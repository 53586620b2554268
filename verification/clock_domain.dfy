/** The clock-domain crosser: callbacks in the second clock's domain for the updates in the first's. */
module ClockDomain {

  const WORD: nat := 0x1_0000_0000_0000_0000

  datatype Crosser = Crosser(hasCallback: bool, clock1: nat, clock2: nat, counter1: nat, counter2: nat) {
    /** The second clock runs; otherwise the second counter never catches up. */
    predicate Valid() {
      0 < clock2
    }
  }

  /** The least q with a <= q * b. */
  function CeilDiv(a: nat, b: nat): nat
    requires b > 0
  {
    (a + b - 1) / b
  }

  lemma CeilBounds(a: nat, b: nat)
    requires b > 0
    ensures (CeilDiv(a, b) - 1) * b < a <= CeilDiv(a, b) * b
  {
    var q := CeilDiv(a, b);
    assert a + b - 1 == q * b + (a + b - 1) % b;
    assert (q - 1) * b == q * b - b;
  }

  lemma Scaled(a: int, b: int, c: nat)
    requires a <= b
    ensures a * c <= b * c
  {
  }

  lemma NonNegative(a: nat, b: nat)
    ensures 0 <= a * b
  {
  }

  lemma Regroup(a: int, b: int, k: int)
    ensures (a + b) * k == a * k + b * k
  {
  }

  lemma CeilUnique(a: nat, b: nat, q: int)
    requires b > 0 && (q - 1) * b < a <= q * b
    ensures q == CeilDiv(a, b)
  {
    var r := CeilDiv(a, b);
    CeilBounds(a, b);
    if q < r {
      Scaled(q, r - 1, b);
    } else if r < q {
      Scaled(r, q - 1, b);
    }
  }

  lemma CeilMonotone(a: nat, a': nat, b: nat)
    requires b > 0 && a <= a'
    ensures CeilDiv(a, b) <= CeilDiv(a', b)
  {
    var q, q' := CeilDiv(a, b), CeilDiv(a', b);
    CeilBounds(a, b);
    CeilBounds(a', b);
    if q > q' {
      Scaled(q', q - 1, b);
    }
  }

  lemma CeilOfProduct(k: nat, j: nat)
    requires j > 0
    ensures CeilDiv(k * j, j) == k
  {
    Regroup(k, -1, j);
    CeilUnique(k * j, j, k);
  }

  /** Addition of 64-bit words. */
  function Add64(a: nat, b: nat): nat {
    (a + b) % WORD
  }

  lemma NoWrap(a: nat, b: nat)
    requires a + b < WORD
    ensures Add64(a, b) == a + b
  {
  }

  // ---- One update and many ----

  /** Callbacks until the second counter has caught up with the first one's advance; counters that meet are reset. */
  function Advance(c: Crosser): (r: (Crosser, nat))
    requires c.Valid()
    ensures r.0.clock1 == c.clock1 && r.0.clock2 == c.clock2 && r.0.hasCallback == c.hasCallback
  {
    var counter1 := c.counter1 + c.clock1;
    var turns := if c.counter2 < counter1 then CeilDiv(counter1 - c.counter2, c.clock2) else 0;
    var counter2 := c.counter2 + turns * c.clock2;
    var calls := if c.hasCallback then turns else 0;
    if counter1 == counter2 then (c.(counter1 := 0, counter2 := 0), calls)
    else (c.(counter1 := counter1, counter2 := counter2), calls)
  }

  function Step(c: Crosser): (r: (Crosser, nat))
    requires c.Valid()
  {
    if c.clock1 == c.clock2 && c.hasCallback then (c, 1) else Advance(c)
  }

  function Fresh(hasCallback: bool, clock1: nat, clock2: nat): Crosser {
    Crosser(hasCallback, clock1, clock2, 0, 0)
  }

  /** n updates of a new crosser: where they leave it, and the callbacks made in all. */
  function Run(hasCallback: bool, clock1: nat, clock2: nat, n: nat): (r: (Crosser, nat))
    requires Fresh(hasCallback, clock1, clock2).Valid()
    ensures r.0.clock1 == clock1 && r.0.clock2 == clock2 && r.0.hasCallback == hasCallback
  {
    if n == 0 then (Fresh(hasCallback, clock1, clock2), 0)
    else
      var (c, total) := Run(hasCallback, clock1, clock2, n - 1);
      var (c', calls) := Step(c);
      (c', total + calls)
  }

  // ---- The counters between two resets ----

  /** k updates after a reset the counters meet again. */
  ghost predicate Meets(clock1: nat, clock2: nat, k: nat)
    requires clock2 > 0
  {
    k * clock1 == CeilDiv(k * clock1, clock2) * clock2
  }

  ghost predicate NotMet(clock1: nat, clock2: nat, since: nat)
    requires clock2 > 0
  {
    forall k :: 1 <= k <= since ==> !Meets(clock1, clock2, k)
  }

  /** since updates after a reset, the second counter is the first multiple of clock2 that has caught up. */
  ghost predicate Tracks(c: Crosser, since: nat)
    requires c.clock2 > 0
  {
    && c.counter1 == since * c.clock1
    && c.counter2 == CeilDiv(since * c.clock1, c.clock2) * c.clock2
    && since < c.clock2 && NotMet(c.clock1, c.clock2, since)
  }

  lemma FreshTracks(c: Crosser)
    requires c.clock2 > 0 && c.counter1 == c.counter2 == 0
    ensures Tracks(c, 0)
  {
    CeilOfProduct(0, c.clock2);
  }

  /** Both counters stay within clock1 * clock2 during the next update. */
  lemma WithinProduct(clock1: nat, clock2: nat, since: nat)
    requires since < clock2
    ensures since * clock1 + clock1 == (since + 1) * clock1 <= clock1 * clock2
    ensures CeilDiv(since * clock1, clock2) <= CeilDiv((since + 1) * clock1, clock2) <= clock1
    ensures CeilDiv((since + 1) * clock1, clock2) * clock2 <= clock1 * clock2
  {
    hide CeilDiv;
    Scaled(since + 1, clock2, clock1);
    Regroup(since, 1, clock1);
    CeilOfProduct(clock1, clock2);
    CeilMonotone(since * clock1, (since + 1) * clock1, clock2);
    CeilMonotone((since + 1) * clock1, clock1 * clock2, clock2);
    Scaled(CeilDiv((since + 1) * clock1, clock2), clock1, clock2);
  }

  /** The turns of the loop, without its reset. */
  lemma AdvanceTurns(c: Crosser, since: nat)
    requires c.Valid() && Tracks(c, since)
    ensures var q := CeilDiv((since + 1) * c.clock1, c.clock2);
      Advance(c) == (
        if (since + 1) * c.clock1 == q * c.clock2 then c.(counter1 := 0, counter2 := 0)
        else c.(counter1 := (since + 1) * c.clock1, counter2 := q * c.clock2),
        if c.hasCallback then q - CeilDiv(since * c.clock1, c.clock2) else 0)
  {
    hide CeilDiv;
    WithinProduct(c.clock1, c.clock2, since);
    NonNegative(since + 1, c.clock1);
    TurnsBetween(CeilDiv(since * c.clock1, c.clock2), (since + 1) * c.clock1, c.clock2);
  }

  /** How many multiples of d after the p-th it takes to reach b. */
  lemma TurnsBetween(p: nat, b: nat, d: nat)
    requires d > 0 && p <= CeilDiv(b, d)
    ensures var q := CeilDiv(b, d);
      var turns := if p * d < b then CeilDiv(b - p * d, d) else 0;
      turns == q - p && p * d + turns * d == q * d
  {
    hide CeilDiv;
    var q: int := CeilDiv(b, d);
    Regroup(p, q - p, d);
    CeilBounds(b, d);
    if p * d < b {
      Regroup(p, q - 1 - p, d);
      CeilUnique(b - p * d, d, q - p);
    } else if p < q {
      Scaled(p, q - 1, d);
    }
  }

  /** The counters go on tracking, from the last reset or from a new one. */
  lemma StepTracks(c: Crosser, since: nat)
    requires c.Valid() && Tracks(c, since)
    ensures if Meets(c.clock1, c.clock2, since + 1) then Tracks(Advance(c).0, 0) else Tracks(Advance(c).0, since + 1)
  {
    hide Advance, CeilDiv, NotMet;
    AdvanceTurns(c, since);
    if Meets(c.clock1, c.clock2, since + 1) {
      FreshTracks(Advance(c).0);
    } else {
      StillNotMet(c.clock1, c.clock2, since);
    }
  }

  lemma StillNotMet(clock1: nat, clock2: nat, since: nat)
    requires since < clock2 && NotMet(clock1, clock2, since) && !Meets(clock1, clock2, since + 1)
    ensures NotMet(clock1, clock2, since + 1) && since + 1 < clock2
  {
    hide Meets;
    MeetAtLast(clock1, clock2);
  }

  lemma MeetAtLast(clock1: nat, clock2: nat)
    requires clock2 > 0
    ensures Meets(clock1, clock2, clock2)
  {
    hide CeilDiv;
    assert clock2 * clock1 == clock1 * clock2;
    CeilOfProduct(clock1, clock2);
  }

  // ---- Whole runs ----

  /** The callbacks due after n updates: one for each second-clock period begun. */
  function Owed(hasCallback: bool, clock1: nat, clock2: nat, n: nat): nat
    requires clock2 > 0
  {
    if hasCallback then CeilDiv(n * clock1, clock2) else 0
  }

  /** A whole number of second-clock periods can be split off. */
  lemma CeilAfterWhole(q: nat, rest: nat, d: nat)
    requires d > 0
    ensures CeilDiv(q * d + rest, d) == q + CeilDiv(rest, d)
  {
    hide CeilDiv;
    NonNegative(q, d);
    var r: int := CeilDiv(rest, d);
    CeilBounds(rest, d);
    Regroup(q, r, d);
    Regroup(q, r - 1, d);
    CeilUnique(q * d + rest, d, q + r);
  }

  /** After n updates: start of them up to the last reset, which took exactly periods second-clock periods. */
  lemma {:induction false} RunTracks(hasCallback: bool, clock1: nat, clock2: nat, n: nat)
    returns (start: nat, periods: nat)
    requires Fresh(hasCallback, clock1, clock2).Valid() && !(hasCallback && clock1 == clock2)
    ensures start <= n && start * clock1 == periods * clock2
    ensures Tracks(Run(hasCallback, clock1, clock2, n).0, n - start)
    ensures Run(hasCallback, clock1, clock2, n).1 == Owed(hasCallback, clock1, clock2, n)
  {
    hide Advance, CeilDiv, Tracks, Meets, Run;
    if n == 0 {
      NoRunYet(hasCallback, clock1, clock2);
      return 0, 0;
    }
    start, periods := RunTracks(hasCallback, clock1, clock2, n - 1);
    var c, since := Run(hasCallback, clock1, clock2, n - 1).0, n - 1 - start;
    RunStep(hasCallback, clock1, clock2, n - 1);
    StepTracks(c, since);
    StepCalls(c, since);
    OwedAfter(start, periods, since, clock1, clock2);
    OwedAfter(start, periods, since + 1, clock1, clock2);
    if Meets(clock1, clock2, since + 1) {
      periods := NewPeriods(start, periods, since + 1, clock1, clock2);
      start := n;
    }
  }

  lemma NoRunYet(hasCallback: bool, clock1: nat, clock2: nat)
    requires clock2 > 0
    ensures Tracks(Run(hasCallback, clock1, clock2, 0).0, 0)
    ensures Run(hasCallback, clock1, clock2, 0).1 == Owed(hasCallback, clock1, clock2, 0)
  {
    FreshTracks(Fresh(hasCallback, clock1, clock2));
    CeilOfProduct(0, clock2);
  }

  lemma StepCalls(c: Crosser, since: nat)
    requires c.Valid() && Tracks(c, since)
    ensures var p, q := CeilDiv(since * c.clock1, c.clock2), CeilDiv((since + 1) * c.clock1, c.clock2);
      p <= q && Advance(c).1 == if c.hasCallback then q - p else 0
  {
    hide Advance, CeilDiv, NotMet;
    AdvanceTurns(c, since);
    WithinProduct(c.clock1, c.clock2, since);
  }

  /** What is due after the updates up to a reset and since it. */
  lemma OwedAfter(start: nat, periods: nat, since: nat, clock1: nat, clock2: nat)
    requires clock2 > 0 && start * clock1 == periods * clock2
    ensures CeilDiv((start + since) * clock1, clock2) == periods + CeilDiv(since * clock1, clock2)
  {
    hide CeilDiv;
    Regroup(start, since, clock1);
    NonNegative(since, clock1);
    CeilAfterWhole(periods, since * clock1, clock2);
  }

  lemma NewPeriods(start: nat, periods: nat, since: nat, clock1: nat, clock2: nat) returns (p: nat)
    requires clock2 > 0 && start * clock1 == periods * clock2 && Meets(clock1, clock2, since)
    ensures (start + since) * clock1 == p * clock2
  {
    hide CeilDiv;
    var q := CeilDiv(since * clock1, clock2);
    Regroup(start, since, clock1);
    Regroup(periods, q, clock2);
    p := periods + q;
  }

  lemma {:induction false} OneToOne(clock: nat, n: nat)
    requires Fresh(true, clock, clock).Valid()
    ensures Run(true, clock, clock, n) == (Fresh(true, clock, clock), n)
  {
    if n > 0 {
      OneToOne(clock, n - 1);
    }
  }

  /** n updates make the ceiling of n * clock1 / clock2 callbacks, whatever the resets. */
  lemma CallbackTotal(hasCallback: bool, clock1: nat, clock2: nat, n: nat)
    requires Fresh(hasCallback, clock1, clock2).Valid()
    ensures Run(hasCallback, clock1, clock2, n).1 == Owed(hasCallback, clock1, clock2, n)
  {
    if hasCallback && clock1 == clock2 {
      OneToOne(clock1, n);
      CeilOfProduct(n, clock1);
    } else {
      var _, _ := RunTracks(hasCallback, clock1, clock2, n);
    }
  }

  /** No counter ever exceeds clock1 * clock2. */
  lemma CountersBounded(hasCallback: bool, clock1: nat, clock2: nat, n: nat)
    requires Fresh(hasCallback, clock1, clock2).Valid()
    ensures Run(hasCallback, clock1, clock2, n).0.counter1 <= clock1 * clock2
    ensures Run(hasCallback, clock1, clock2, n).0.counter2 <= clock1 * clock2
  {
    hide CeilDiv;
    if hasCallback && clock1 == clock2 {
      OneToOne(clock1, n);
    } else {
      var start, _ := RunTracks(hasCallback, clock1, clock2, n);
      var since := n - start;
      WithinProduct(clock1, clock2, since);
      Scaled(CeilDiv(since * clock1, clock2), clock1, clock2);
    }
  }

  // ---- 64-bit counters ----

  /** The counters meet while they are below 2^64: the least common multiple of the clocks is. */
  ghost predicate Fits(clock1: nat, clock2: nat)
    requires clock2 > 0
  {
    exists k: nat :: k >= 1 && Meets(clock1, clock2, k) && k * clock1 < WORD
  }

  /** The sums that an update forms fit in 64 bits. */
  ghost predicate NoOverflow(c: Crosser)
    requires c.Valid()
  {
    !(c.hasCallback && c.clock1 == c.clock2) ==>
      var counter1 := c.counter1 + c.clock1;
      var turns := if c.counter2 < counter1 then CeilDiv(counter1 - c.counter2, c.clock2) else 0;
      counter1 < WORD && c.counter2 + turns * c.clock2 < WORD
  }

  /** Until the counters meet they stay below the point where they do. */
  lemma BelowMeeting(clock1: nat, clock2: nat, since: nat, k: nat)
    requires clock2 > 0 && NotMet(clock1, clock2, since) && k >= 1 && Meets(clock1, clock2, k)
    ensures (since + 1) * clock1 <= k * clock1
    ensures CeilDiv((since + 1) * clock1, clock2) * clock2 <= k * clock1
  {
    hide CeilDiv;
    assert since < k;
    Scaled(since + 1, k, clock1);
    NonNegative(since + 1, clock1);
    CeilMonotone((since + 1) * clock1, k * clock1, clock2);
    Scaled(CeilDiv((since + 1) * clock1, clock2), CeilDiv(k * clock1, clock2), clock2);
  }

  /** What an update's sums are. */
  lemma SumsOf(c: Crosser, since: nat)
    requires c.Valid() && Tracks(c, since)
    ensures !(c.hasCallback && c.clock1 == c.clock2) ==>
      (NoOverflow(c) <==> (since + 1) * c.clock1 < WORD && CeilDiv((since + 1) * c.clock1, c.clock2) * c.clock2 < WORD)
  {
    hide CeilDiv, NotMet;
    WithinProduct(c.clock1, c.clock2, since);
    NonNegative(since + 1, c.clock1);
    TurnsBetween(CeilDiv(since * c.clock1, c.clock2), (since + 1) * c.clock1, c.clock2);
  }

  lemma FitsNeverOverflows(hasCallback: bool, clock1: nat, clock2: nat, n: nat)
    requires clock2 > 0 && Fits(clock1, clock2)
    ensures NoOverflow(Run(hasCallback, clock1, clock2, n).0)
  {
    hide CeilDiv, NotMet, Meets, NoOverflow;
    var c := Run(hasCallback, clock1, clock2, n).0;
    if hasCallback && clock1 == clock2 {
      ShortcutFits(c);
    } else {
      var start, _ := RunTracks(hasCallback, clock1, clock2, n);
      var k: nat :| k >= 1 && Meets(clock1, clock2, k) && k * clock1 < WORD;
      BelowMeeting(clock1, clock2, n - start, k);
      SumsOf(c, n - start);
    }
  }

  lemma ShortcutFits(c: Crosser)
    requires c.Valid() && c.hasCallback && c.clock1 == c.clock2
    ensures NoOverflow(c)
  {
  }

  /** The first meeting after a reset. */
  lemma {:induction false} FirstMeeting(clock1: nat, clock2: nat, from: nat) returns (k: nat)
    requires clock2 > 0 && from < clock2 && NotMet(clock1, clock2, from)
    ensures from < k <= clock2 && Meets(clock1, clock2, k) && NotMet(clock1, clock2, k - 1)
    decreases clock2 - from
  {
    hide Meets;
    MeetAtLast(clock1, clock2);
    if Meets(clock1, clock2, from + 1) {
      k := from + 1;
    } else {
      k := FirstMeeting(clock1, clock2, from + 1);
    }
  }

  /** Before the first meeting nothing is reset. */
  lemma {:induction false} NoResetYet(hasCallback: bool, clock1: nat, clock2: nat, n: nat)
    requires 0 < clock2 && n < clock2 && NotMet(clock1, clock2, n) && !(hasCallback && clock1 == clock2)
    ensures Tracks(Run(hasCallback, clock1, clock2, n).0, n)
  {
    hide CeilDiv, Meets, Advance;
    if n == 0 {
      FreshTracks(Fresh(hasCallback, clock1, clock2));
    } else {
      NoResetYet(hasCallback, clock1, clock2, n - 1);
      StepTracks(Run(hasCallback, clock1, clock2, n - 1).0, n - 1);
      assert !Meets(clock1, clock2, n);
    }
  }

  lemma EqualClocksFit(clock1: nat, clock2: nat)
    requires clock2 > 0
    ensures clock1 == clock2 < WORD ==> Fits(clock1, clock2)
  {
    hide CeilDiv;
    CeilOfProduct(1, clock2);
    assert clock1 == clock2 ==> Meets(clock1, clock2, 1);
  }

  /** No sum ever leaves 64 bits if and only if the counters meet within them. */
  lemma NeverOverflowsIff(hasCallback: bool, clock1: nat, clock2: nat)
    requires 0 < clock2 && clock1 < WORD
    ensures (forall n :: NoOverflow(Run(hasCallback, clock1, clock2, n).0)) <==> Fits(clock1, clock2)
  {
    hide CeilDiv, NoOverflow, Run;
    EqualClocksFit(clock1, clock2);
    if Fits(clock1, clock2) {
      forall n
        ensures NoOverflow(Run(hasCallback, clock1, clock2, n).0)
      {
        FitsNeverOverflows(hasCallback, clock1, clock2, n);
      }
    } else {
      var k := FirstMeeting(clock1, clock2, 0);
      NoResetYet(hasCallback, clock1, clock2, k - 1);
      SumsOf(Run(hasCallback, clock1, clock2, k - 1).0, k - 1);
      assert !NoOverflow(Run(hasCallback, clock1, clock2, k - 1).0);
    }
  }

  class ClockDomainCrosser {
    var hasCallback: bool
    var clock1: nat
    var clock2: nat
    var counter1: nat
    var counter2: nat
    /** Updates since construction. */
    ghost var updates: nat

    ghost function Value(): Crosser
      reads this
    {
      Crosser(hasCallback, clock1, clock2, counter1, counter2)
    }

    ghost predicate Valid()
      reads this
    {
      && clock2 > 0 && Fits(clock1, clock2) && Value() == Run(hasCallback, clock1, clock2, updates).0
    }

    constructor (clock1: nat, clock2: nat, hasCallback: bool)
      requires clock2 > 0 && Fits(clock1, clock2)
      ensures Valid() && updates == 0 && Value() == Fresh(hasCallback, clock1, clock2)
    {
      this.clock1, this.clock2, this.hasCallback := clock1, clock2, hasCallback;
      counter1, counter2 := 0, 0;
      updates := 0;
    }

    /** One update with 64-bit additions, none of which wraps; calls is the number of times the callback ran. */
    method Update() returns (calls: nat)
      requires Valid()
      modifies this
      ensures Valid() && updates == old(updates) + 1
      ensures clock1 == old(clock1) && clock2 == old(clock2) && hasCallback == old(hasCallback)
      ensures Owed(hasCallback, clock1, clock2, old(updates)) + calls == Owed(hasCallback, clock1, clock2, updates)
    {
      hide Advance, Run, CeilDiv, Add64, Owed, NotMet, Meets;
      CallbackTotal(hasCallback, clock1, clock2, updates);
      CallbackTotal(hasCallback, clock1, clock2, updates + 1);
      RunStep(hasCallback, clock1, clock2, updates);
      if clock1 == clock2 && hasCallback {
        calls, updates := 1, updates + 1;
        return;
      }
      ghost var start, _ := RunTracks(hasCallback, clock1, clock2, updates);
      ghost var since := updates - start;
      ghost var p, q := CeilDiv(since * clock1, clock2), CeilDiv((since + 1) * clock1, clock2);
      ghost var k: nat :| k >= 1 && Meets(clock1, clock2, k) && k * clock1 < WORD;
      BelowMeeting(clock1, clock2, since, k);
      WithinProduct(clock1, clock2, since);
      AdvanceTurns(Value(), since);
      NoWrap(counter1, clock1);
      counter1 := Add64(counter1, clock1);
      calls := 0;
      ghost var m := p;
      while counter2 < counter1
        invariant counter1 == (since + 1) * clock1 && counter2 == m * clock2
        invariant p <= m <= q
        invariant calls == if hasCallback then m - p else 0
        invariant clock1 == old(clock1) && clock2 == old(clock2) && hasCallback == old(hasCallback)
        invariant updates == old(updates)
        decreases q - m
      {
        NextMultiple(m, q, counter1, clock2);
        Regroup(m, 1, clock2);
        Scaled(m + 1, q, clock2);
        NoWrap(counter2, clock2);
        counter2 := Add64(counter2, clock2);
        if hasCallback {
          calls := calls + 1;
        }
        m := m + 1;
      }
      CaughtUp(m, q, counter1, clock2);
      updates := updates + 1;
      if counter1 == counter2 {
        counter1, counter2 := 0, 0;
      }
    }
  }

  lemma RunStep(hasCallback: bool, clock1: nat, clock2: nat, n: nat)
    requires Fresh(hasCallback, clock1, clock2).Valid()
    ensures var c := Run(hasCallback, clock1, clock2, n);
      Run(hasCallback, clock1, clock2, n + 1) == (Step(c.0).0, c.1 + Step(c.0).1)
  {
  }

  lemma NextMultiple(m: nat, q: nat, b: nat, d: nat)
    requires d > 0 && m <= q && q == CeilDiv(b, d) && m * d < b
    ensures m < q
  {
    CeilBounds(b, d);
  }

  lemma CaughtUp(m: nat, q: nat, b: nat, d: nat)
    requires d > 0 && m <= q && q == CeilDiv(b, d) && m * d >= b
    ensures m == q
  {
    CeilBounds(b, d);
    if m < q {
      Scaled(m, q - 1, d);
    }
  }
}
