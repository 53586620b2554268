/** The staggered refresh counters of the memory controller, for any number of ranks. */
module RefreshSchedule {
  import opened DramTypes

  datatype RefreshState = RefreshState(countdown: seq<nat>, next: nat)

  /** The update in which rank i is first due. */
  function FirstDue(ranks: nat, period: nat, i: nat): nat
    requires ranks >= 1
  {
    period / ranks * (i + 1)
  }

  /** Rank i starts i + 1 shares of the period away from its first refresh. */
  function Initial(ranks: nat, period: nat): RefreshState
    requires ranks >= 1
  {
    RefreshState(seq(ranks, i requires 0 <= i < ranks => FirstDue(ranks, period, i)), 0)
  }

  predicate Due(s: RefreshState)
    requires s.next < |s.countdown|
  {
    s.countdown[s.next] == 0
  }

  /** The refresh of the rank whose turn it is has been requested: rewind its counter, move to the next rank. */
  function Rewind(s: RefreshState, period: nat): RefreshState
    requires s.next < |s.countdown|
  {
    RefreshState(s.countdown[s.next := period], if s.next + 1 == |s.countdown| then 0 else s.next + 1)
  }

  function Age(s: RefreshState): RefreshState {
    s.(countdown := DecAll(s.countdown))
  }

  /** One update of the controller, as far as the refresh counters are concerned. */
  function Tick(s: RefreshState, period: nat): RefreshState
    requires s.next < |s.countdown|
  {
    Age(Requested(s, period))
  }

  /** The counters before the n-th update. */
  function Before(ranks: nat, period: nat, n: nat): (s: RefreshState)
    requires ranks >= 1
    ensures |s.countdown| == ranks && s.next < ranks
  {
    if n == 0 then Initial(ranks, period) else Tick(Before(ranks, period, n - 1), period)
  }

  /** The n-th update asks for the refresh of rank i. */
  predicate Requests(ranks: nat, period: nat, n: nat, i: nat)
    requires ranks >= 1
  {
    Due(Before(ranks, period, n)) && Before(ranks, period, n).next == i
  }

  /** No counter is decremented at zero in the n-th update. */
  predicate NoWrap(ranks: nat, period: nat, n: nat)
    requires ranks >= 1
  {
    var t := Requested(Before(ranks, period, n), period);
    forall i :: 0 <= i < ranks ==> t.countdown[i] > 0
  }

  /** In the round that began at `base`, ranks before `next` have had their refresh and the others wait for it. */
  function NextDue(ranks: nat, period: nat, base: int, next: nat, i: nat): int
    requires ranks >= 1
  {
    FirstDue(ranks, period, i) + base + (if i < next then period else 0)
  }

  predicate InRound(ranks: nat, period: nat, n: nat, s: RefreshState, round: nat)
    requires ranks >= 1 && period >= 1
  {
    var base := period * round;
    && |s.countdown| == ranks && s.next < ranks
    && n <= FirstDue(ranks, period, s.next) + base
    && n > (if s.next == 0 then FirstDue(ranks, period, ranks - 1) + base - period
            else FirstDue(ranks, period, s.next - 1) + base) - (if n == 0 then 1 else 0)
    && forall i :: 0 <= i < ranks ==> s.countdown[i] == NextDue(ranks, period, base, s.next, i) - n
  }

  /** The shares are in order and fit into one period. */
  lemma SharesOrdered(ranks: nat, period: nat, i: nat, j: nat)
    requires ranks >= 1 && period / ranks >= 1 && i < j < ranks
    ensures 0 < FirstDue(ranks, period, i) < FirstDue(ranks, period, j) <= period
  {
    var q := period / ranks;
    assert q * (i + 1) + q * (j - i) == q * (j + 1);
    assert q * (j - i) >= 1 by {
      assert q * (j - i) >= 1 * (j - i);
    }
    LastShareFits(ranks, period, j);
  }

  lemma LastShareFits(ranks: nat, period: nat, i: nat)
    requires ranks >= 1 && period / ranks >= 1 && i < ranks
    ensures 0 < FirstDue(ranks, period, i) <= period
  {
    var q := period / ranks;
    assert period == ranks * q + period % ranks;
    MoreShares(q, i + 1, ranks);
  }

  lemma MoreShares(q: nat, i: nat, j: nat)
    requires q >= 1 && 1 <= i <= j
    ensures 0 < q * i <= q * j && q * j == j * q
  {
    assert q * j == q * i + q * (j - i);
  }

  /** The counters after the request of an update and before their decrement. */
  function Requested(s: RefreshState, period: nat): RefreshState
    requires s.next < |s.countdown|
  {
    if Due(s) then Rewind(s, period) else s
  }

  lemma RoundContinues(ranks: nat, period: nat, n: nat, s: RefreshState, round: nat) returns (round': nat)
    requires ranks >= 1 && period / ranks >= 1 && period >= 1 && InRound(ranks, period, n, s, round)
    ensures InRound(ranks, period, n + 1, Tick(s, period), round')
    ensures forall i :: 0 <= i < ranks ==> Requested(s, period).countdown[i] > 0
  {
    hide FirstDue;
    var t := Requested(s, period);
    round' := if Due(s) && s.next + 1 == ranks then round + 1 else round;
    assert period * (round + 1) == period * round + period;
    forall i | 0 <= i < ranks
      ensures t.countdown[i] == NextDue(ranks, period, period * round', t.next, i) - n
      ensures t.countdown[i] > 0
    {
      LastShareFits(ranks, period, i);
      LastShareFits(ranks, period, s.next);
      if i < s.next {
        SharesOrdered(ranks, period, i, s.next);
      } else if s.next < i {
        SharesOrdered(ranks, period, s.next, i);
      }
    }
    LastShareFits(ranks, period, t.next);
    LastShareFits(ranks, period, ranks - 1);
    if s.next + 1 < ranks {
      SharesOrdered(ranks, period, s.next, s.next + 1);
    }
  }

  lemma Remainder(k: int, d: int, period: nat)
    requires 0 <= d < period
    ensures (period * k + d) % period == d
  {
    var x := period * k + d;
    var m := x / period - k;
    assert period * (x / period) == period * k + period * m;
    assert period * m == d - x % period;
    assert m >= 1 ==> period * m >= period;
    assert m <= -1 ==> period * m + period <= 0;
  }

  lemma {:induction false} RoundAt(ranks: nat, period: nat, n: nat) returns (round: nat)
    requires ranks >= 1 && period / ranks >= 1 && period >= 1
    ensures InRound(ranks, period, n, Before(ranks, period, n), round)
  {
    if n == 0 {
      round := 0;
      LastShareFits(ranks, period, 0);
      LastShareFits(ranks, period, ranks - 1);
    } else {
      var prev := RoundAt(ranks, period, n - 1);
      round := RoundContinues(ranks, period, n - 1, Before(ranks, period, n - 1), prev);
    }
  }

  /** Where the n-th update stands between two refreshes of rank i. */
  lemma BetweenRefreshes(ranks: nat, period: nat, n: nat, s: RefreshState, round: nat, i: nat) returns (k: int, d: int)
    requires ranks >= 1 && period / ranks >= 1 && period >= 1 && i < ranks && InRound(ranks, period, n, s, round)
    ensures n - FirstDue(ranks, period, i) == period * k + d
    ensures if Due(s) && s.next == i then d == 0 && k >= 0 else n < FirstDue(ranks, period, i) || 0 < d < period
  {
    hide FirstDue;
    LastShareFits(ranks, period, i);
    LastShareFits(ranks, period, s.next);
    LastShareFits(ranks, period, ranks - 1);
    if i < s.next {
      SharesOrdered(ranks, period, i, s.next);
      NotAfter(ranks, period, i, s.next - 1);
      k := round;
    } else {
      NotAfter(ranks, period, s.next, i);
      NotAfter(ranks, period, i, ranks - 1);
      k := if Due(s) && s.next == i then round else round - 1;
      PreviousRound(period, round);
    }
    d := n - FirstDue(ranks, period, i) - period * k;
  }

  lemma NotAfter(ranks: nat, period: nat, i: nat, j: nat)
    requires ranks >= 1 && period / ranks >= 1 && i <= j < ranks
    ensures FirstDue(ranks, period, i) <= FirstDue(ranks, period, j) && (i < j ==> FirstDue(ranks, period, i) < FirstDue(ranks, period, j))
  {
    hide FirstDue;
    if i < j {
      SharesOrdered(ranks, period, i, j);
    }
  }

  lemma PreviousRound(period: nat, round: nat)
    ensures period * (round - 1) == period * round - period
  {
  }

  /** Rank i is asked to refresh exactly in the updates q(i + 1) + mP, where P is the period and q its share. */
  lemma RequestTimes(ranks: nat, period: nat, n: nat, i: nat)
    requires ranks >= 1 && period / ranks >= 1 && period >= 1 && i < ranks
    ensures Requests(ranks, period, n, i) <==>
              n >= FirstDue(ranks, period, i) && (n - FirstDue(ranks, period, i)) % period == 0
  {
    var s := Before(ranks, period, n);
    var round := RoundAt(ranks, period, n);
    var k, d := BetweenRefreshes(ranks, period, n, s, round, i);
    if 0 <= d < period {
      Remainder(k, d, period);
    }
    assert k >= 0 ==> period * k >= 0;
  }

  /** With one rank the refresh is due at every positive multiple of the period. */
  lemma SingleRank(period: nat, n: nat)
    requires period >= 1
    ensures Due(Before(1, period, n)) <==> n >= period && (n - period) % period == 0
  {
    assert period / 1 == period && FirstDue(1, period, 0) == period;
    RequestTimes(1, period, n, 0);
  }

  /** The counters never wrap around exactly when every rank gets a share of at least one cycle. */
  lemma NeverWraps(ranks: nat, period: nat)
    requires ranks >= 1
    ensures (forall n: nat :: NoWrap(ranks, period, n)) <==> period / ranks >= 1
  {
    if period / ranks >= 1 {
      PositivePeriod(ranks, period);
      forall n: nat
        ensures NoWrap(ranks, period, n)
      {
        var round := RoundAt(ranks, period, n);
        var round' := RoundContinues(ranks, period, n, Before(ranks, period, n), round);
      }
    } else {
      assert FirstDue(ranks, period, ranks - 1) == 0;
      assert ranks == 1 ==> period == 0;
      assert Requested(Before(ranks, period, 0), period).countdown[ranks - 1] == 0;
      assert !NoWrap(ranks, period, 0);
    }
  }

  lemma PositivePeriod(ranks: nat, period: nat)
    requires ranks >= 1 && period / ranks >= 1
    ensures period >= 1
  {
  }
}
