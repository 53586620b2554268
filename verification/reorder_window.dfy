/** The pipeline viewer's print queue: instructions retire out of order and are sorted within a bounded window. */
module ReorderWindow {

  /** The parts of an instruction record that sorting and filtering read, and the text to print. */
  datatype Instruction = Instruction(sn: int, fetch: int, retire: int, text: string)

  datatype Settings = Settings(maxThreshold: nat, minThreshold: nat, snStart: int, snStop: int, tickStart: int, tickStop: int,
    onlyCommitted: bool)

  predicate Kept(s: Settings, x: Instruction) {
    && !(s.snStart > 0 && x.sn < s.snStart)
    && !(s.snStop > 0 && x.sn > s.snStop)
    && !(s.tickStart > 0 && x.fetch < s.tickStart)
    && !(s.tickStop > 0 && x.fetch > s.tickStop)
    && !(s.onlyCommitted && x.retire == 0)
  }

  function Filtered(s: Settings, xs: seq<Instruction>): seq<Instruction> {
    if xs == [] then []
    else Filtered(s, xs[..|xs| - 1]) + (if Kept(s, xs[|xs| - 1]) then [xs[|xs| - 1]] else [])
  }

  // ---- Sorting by sequence number ----

  predicate Ordered(xs: seq<Instruction>) {
    forall i, j :: 0 <= i < j < |xs| ==> xs[i].sn <= xs[j].sn
  }

  /** x goes behind everything that is not larger. */
  function Insert(xs: seq<Instruction>, x: Instruction): (r: seq<Instruction>)
    ensures |r| == |xs| + 1
  {
    if xs == [] || xs[|xs| - 1].sn <= x.sn then xs + [x] else Insert(xs[..|xs| - 1], x) + [xs[|xs| - 1]]
  }

  /** Python's stable sort. */
  function Sort(xs: seq<Instruction>): (r: seq<Instruction>)
    ensures |r| == |xs|
  {
    if xs == [] then [] else Insert(Sort(xs[..|xs| - 1]), xs[|xs| - 1])
  }

  lemma {:induction false} InsertAdds(xs: seq<Instruction>, x: Instruction)
    ensures multiset(Insert(xs, x)) == multiset(xs) + multiset{x}
  {
    if xs != [] && xs[|xs| - 1].sn > x.sn {
      InsertAdds(xs[..|xs| - 1], x);
      assert xs == xs[..|xs| - 1] + [xs[|xs| - 1]];
    }
  }

  lemma {:induction false} SortPermutes(xs: seq<Instruction>)
    ensures multiset(Sort(xs)) == multiset(xs)
  {
    if xs != [] {
      SortPermutes(xs[..|xs| - 1]);
      InsertAdds(Sort(xs[..|xs| - 1]), xs[|xs| - 1]);
      assert xs == xs[..|xs| - 1] + [xs[|xs| - 1]];
    }
  }

  lemma {:induction false} InsertKeepsOrder(xs: seq<Instruction>, x: Instruction)
    requires Ordered(xs)
    ensures Ordered(Insert(xs, x))
    ensures forall y :: y in Insert(xs, x) <==> y in xs || y == x
  {
    if xs != [] && xs[|xs| - 1].sn > x.sn {
      var front, last := xs[..|xs| - 1], xs[|xs| - 1];
      InsertKeepsOrder(front, x);
      assert xs == front + [last];
      var r := Insert(front, x);
      forall i | 0 <= i < |r|
        ensures r[i].sn <= last.sn
      {
        assert r[i] in r;
      }
    }
  }

  /** The stable order: sorted by sequence number, and of equal numbers the order they had before. */
  function WithNumber(xs: seq<Instruction>, sn: int): seq<Instruction> {
    if xs == [] then []
    else WithNumber(xs[..|xs| - 1], sn) + (if xs[|xs| - 1].sn == sn then [xs[|xs| - 1]] else [])
  }

  lemma {:induction false} InsertIsStable(xs: seq<Instruction>, x: Instruction, sn: int)
    requires Ordered(xs)
    ensures WithNumber(Insert(xs, x), sn) == WithNumber(xs + [x], sn)
  {
    assert (xs + [x])[..|xs|] == xs;
    if xs != [] && xs[|xs| - 1].sn > x.sn {
      var front, last := xs[..|xs| - 1], xs[|xs| - 1];
      InsertIsStable(front, x, sn);
      assert (front + [x])[..|front|] == front;
      assert (Insert(front, x) + [last])[..|xs|] == Insert(front, x);
      if last.sn == sn {
        NoneLarger(front, x, sn);
      }
    }
  }

  lemma NoneLarger(front: seq<Instruction>, x: Instruction, sn: int)
    requires x.sn < sn
    ensures WithNumber(front + [x], sn) == WithNumber(front, sn)
  {
    assert (front + [x])[..|front|] == front;
  }

  lemma {:induction false} SortSorts(xs: seq<Instruction>)
    ensures Ordered(Sort(xs))
    ensures forall sn :: WithNumber(Sort(xs), sn) == WithNumber(xs, sn)
  {
    if xs != [] {
      var front, last := xs[..|xs| - 1], xs[|xs| - 1];
      SortSorts(front);
      InsertKeepsOrder(Sort(front), last);
      forall sn
        ensures WithNumber(Sort(xs), sn) == WithNumber(xs, sn)
      {
        InsertIsStable(Sort(front), last, sn);
        assert (Sort(front) + [last])[..|front|] == Sort(front);
      }
    }
  }

  // ---- Sorting what is already partly sorted ----

  lemma {:induction false} SortOrdered(xs: seq<Instruction>)
    requires Ordered(xs)
    ensures Sort(xs) == xs
  {
    if xs != [] {
      SortOrdered(xs[..|xs| - 1]);
      assert xs == xs[..|xs| - 1] + [xs[|xs| - 1]];
    }
  }

  /** Nothing smaller than what stands before the window comes in: the insertion takes place behind it. */
  lemma {:induction false} InsertBehind(out: seq<Instruction>, xs: seq<Instruction>, x: Instruction)
    requires out == [] || out[|out| - 1].sn <= x.sn
    ensures Insert(out + xs, x) == out + Insert(xs, x)
  {
    if xs == [] {
      assert out + xs == out;
    } else {
      assert (out + xs)[|out + xs| - 1] == xs[|xs| - 1];
      assert (out + xs)[..|out + xs| - 1] == out + xs[..|xs| - 1];
      if xs[|xs| - 1].sn > x.sn {
        InsertBehind(out, xs[..|xs| - 1], x);
      }
    }
  }

  lemma SortSnoc(xs: seq<Instruction>, x: Instruction)
    ensures Sort(xs + [x]) == Insert(Sort(xs), x)
  {
    assert (xs + [x])[..|xs|] == xs;
  }

  // ---- The queue over a whole trace ----

  /** What has been taken off the queue, kept or not, and what is on it. */
  datatype Window = Window(out: seq<Instruction>, queue: seq<Instruction>)

  /** print_insts: sort, then print down to the lower threshold. */
  function Flush(w: Window, lower: nat): (r: Window)
    ensures |r.queue| == if |w.queue| > lower then lower else |w.queue|
    ensures |r.out| + |r.queue| == |w.out| + |w.queue|
  {
    var sorted := Sort(w.queue);
    var n := if |sorted| > lower then |sorted| - lower else 0;
    Window(w.out + sorted[..n], sorted[n..])
  }

  /** queue_inst. */
  function Arrive(s: Settings, w: Window, x: Instruction): Window {
    var w' := w.(queue := w.queue + [x]);
    if |w'.queue| > s.maxThreshold then Flush(w', s.minThreshold) else w'
  }

  function After(s: Settings, trace: seq<Instruction>): (w: Window)
    ensures |w.out| + |w.queue| == |trace|
    ensures w.out != [] ==> |w.queue| >= s.minThreshold
  {
    if trace == [] then Window([], []) else Arrive(s, After(s, trace[..|trace| - 1]), trace[|trace| - 1])
  }

  /** Everything taken off the queue once the end of the trace has flushed it. */
  function Output(s: Settings, trace: seq<Instruction>): seq<Instruction> {
    Flush(After(s, trace), 0).out
  }

  /** No instruction arrives after one with a larger number has left the queue. */
  ghost predicate InTime(s: Settings, trace: seq<Instruction>) {
    forall n :: 0 <= n < |trace| ==> InTimeAt(s, trace, n)
  }

  /** How many instructions have left the queue is a matter of counting; which ones they should be, of sorting. */
  ghost predicate InTimeAt(s: Settings, trace: seq<Instruction>, n: nat)
    requires n < |trace|
  {
    var p := |After(s, trace[..n]).out|;
    p > 0 ==> Sort(trace[..n])[p - 1].sn <= trace[n].sn
  }

  ghost predicate Synchronized(w: Window, trace: seq<Instruction>) {
    w.out + Sort(w.queue) == Sort(trace)
  }

  lemma FlushSplits(w: Window, lower: nat)
    requires Ordered(Sort(w.queue))
    ensures Flush(w, lower).out + Flush(w, lower).queue == w.out + Sort(w.queue)
    ensures Ordered(Flush(w, lower).queue)
  {
    hide Sort, Ordered;
    var sorted := Sort(w.queue);
    var n := if |sorted| > lower then |sorted| - lower else 0;
    SuffixOrdered(sorted, n);
    Rejoin(w.out, sorted, n);
  }

  lemma Rejoin(a: seq<Instruction>, xs: seq<Instruction>, n: nat)
    requires n <= |xs|
    ensures a + xs[..n] + xs[n..] == a + xs
  {
  }

  lemma SuffixOrdered(xs: seq<Instruction>, n: nat)
    requires Ordered(xs) && n <= |xs|
    ensures Ordered(xs[n..])
  {
  }

  lemma FlushKeeps(w: Window, lower: nat, trace: seq<Instruction>)
    requires Synchronized(w, trace)
    ensures Synchronized(Flush(w, lower), trace)
  {
    hide Sort, WithNumber;
    SortSorts(w.queue);
    FlushSplits(w, lower);
    SortOrdered(Flush(w, lower).queue);
  }

  lemma ArriveKeeps(s: Settings, w: Window, trace: seq<Instruction>, x: Instruction)
    requires Synchronized(w, trace)
    requires w.out == [] || w.out[|w.out| - 1].sn <= x.sn
    ensures Synchronized(Arrive(s, w, x), trace + [x])
  {
    hide Sort, Insert, Flush;
    SortSnoc(trace, x);
    SortSnoc(w.queue, x);
    InsertBehind(w.out, Sort(w.queue), x);
    var w' := w.(queue := w.queue + [x]);
    if |w'.queue| > s.maxThreshold {
      FlushKeeps(w', s.minThreshold, trace + [x]);
    }
  }

  lemma EmptyTrace(s: Settings)
    ensures Synchronized(After(s, []), [])
  {
  }

  lemma InTimeLast(s: Settings, trace: seq<Instruction>)
    requires InTime(s, trace) && trace != []
    ensures InTimeAt(s, trace, |trace| - 1)
  {
  }

  lemma {:induction false} PrefixInTime(s: Settings, trace: seq<Instruction>)
    requires InTime(s, trace) && trace != []
    ensures InTime(s, trace[..|trace| - 1])
  {
    var front := trace[..|trace| - 1];
    forall n | 0 <= n < |front|
      ensures InTimeAt(s, front, n)
    {
      assert front[..n] == trace[..n];
      assert InTimeAt(s, trace, n);
    }
  }

  lemma {:induction false} InTimeSynchronizes(s: Settings, trace: seq<Instruction>)
    requires InTime(s, trace)
    ensures Synchronized(After(s, trace), trace)
  {
    hide Sort, Arrive, Flush, InTime;
    if trace == [] {
      EmptyTrace(s);
    } else {
      var n := |trace| - 1;
      PrefixInTime(s, trace);
      InTimeSynchronizes(s, trace[..n]);
      var w := After(s, trace[..n]);
      InTimeLast(s, trace);
      assert w.out != [] ==> w.out[|w.out| - 1] == Sort(trace[..n])[|w.out| - 1];
      ArriveKeeps(s, w, trace[..n], trace[n]);
      assert trace[..n] + [trace[n]] == trace;
    }
  }

  /** The other half: an instruction that comes too late stays out of place. */
  lemma {:induction false} LateStaysLate(s: Settings, trace: seq<Instruction>, n: nat)
    requires n < |trace| && InTime(s, trace[..n]) && !InTimeAt(s, trace, n)
    ensures !Ordered(Output(s, trace))
  {
    hide Sort, After, Flush;
    var w := After(s, trace[..n]);
    var p := |w.out| - 1;
    InTimeSynchronizes(s, trace[..n]);
    assert w.out[p] == Sort(trace[..n])[p];
    OutputExtends(s, trace, n);
    var out := Output(s, trace);
    var k := FindIn(out[|w.out|..], w.queue, trace[n..], trace[n]);
    assert out[p].sn > out[|w.out| + k].sn;
  }

  /** What has left the queue stays where it is, and the rest of the output is made of the rest of the instructions. */
  lemma {:induction false} AfterExtends(s: Settings, trace: seq<Instruction>, n: nat)
    requires n <= |trace|
    ensures var w, w' := After(s, trace[..n]), After(s, trace);
      w.out <= w'.out && multiset(w'.out[|w.out|..]) + multiset(w'.queue) == multiset(w.queue) + multiset(trace[n..])
    decreases |trace|
  {
    hide Sort, Arrive, After;
    if n == |trace| {
      assert trace[..n] == trace && trace[n..] == [];
    } else {
      var front, last := trace[..|trace| - 1], trace[|trace| - 1];
      AfterExtends(s, front, n);
      assert front[..n] == trace[..n] && trace[n..] == front[n..] + [last];
      AfterSnoc(s, trace);
      ArriveExtends(s, After(s, front), last, |After(s, trace[..n]).out|);
    }
  }

  lemma AfterSnoc(s: Settings, trace: seq<Instruction>)
    requires trace != []
    ensures After(s, trace) == Arrive(s, After(s, trace[..|trace| - 1]), trace[|trace| - 1])
  {
  }

  lemma FlushExtends(w: Window, lower: nat, p: nat)
    requires p <= |w.out|
    ensures var r := Flush(w, lower);
      w.out <= r.out && multiset(r.out[p..]) + multiset(r.queue) == multiset(w.out[p..]) + multiset(w.queue)
  {
    hide Sort;
    SortPermutes(w.queue);
    var sorted := Sort(w.queue);
    var n := if |sorted| > lower then |sorted| - lower else 0;
    assert sorted == sorted[..n] + sorted[n..];
    assert (w.out + sorted[..n])[p..] == w.out[p..] + sorted[..n];
  }

  lemma ArriveExtends(s: Settings, w: Window, x: Instruction, p: nat)
    requires p <= |w.out|
    ensures var r := Arrive(s, w, x);
      w.out <= r.out && multiset(r.out[p..]) + multiset(r.queue) == multiset(w.out[p..]) + multiset(w.queue) + multiset{x}
  {
    hide Flush;
    FlushExtends(w.(queue := w.queue + [x]), s.minThreshold, p);
  }

  lemma OutputExtends(s: Settings, trace: seq<Instruction>, n: nat)
    requires n <= |trace|
    ensures var w, out := After(s, trace[..n]), Output(s, trace);
      w.out <= out && multiset(out[|w.out|..]) == multiset(w.queue) + multiset(trace[n..])
  {
    hide Sort, Flush, After;
    AfterExtends(s, trace, n);
    var w, w' := After(s, trace[..n]), After(s, trace);
    FlushExtends(w', 0, |w.out|);
    assert Flush(w', 0).queue == [];
  }

  lemma FindIn(xs: seq<Instruction>, a: seq<Instruction>, b: seq<Instruction>, x: Instruction) returns (k: nat)
    requires multiset(xs) == multiset(a) + multiset(b) && b != [] && b[0] == x
    ensures k < |xs| && xs[k] == x
  {
    assert x in multiset(b);
    assert x in multiset(xs);
    k :| k < |xs| && xs[k] == x;
  }

  lemma {:induction false} FirstLate(s: Settings, trace: seq<Instruction>) returns (n: nat)
    requires !InTime(s, trace)
    ensures n < |trace| && InTime(s, trace[..n]) && !InTimeAt(s, trace, n)
    decreases |trace|
  {
    hide InTimeAt;
    var m := |trace| - 1;
    var front := trace[..m];
    assert forall k :: 0 <= k < m ==> (InTimeAt(s, front, k) <==> InTimeAt(s, trace, k)) by {
      SameBefore(s, trace, m);
    }
    if InTime(s, front) {
      n := m;
    } else {
      n := FirstLate(s, front);
      assert front[..n] == trace[..n];
    }
  }

  lemma SameBefore(s: Settings, trace: seq<Instruction>, m: nat)
    requires m <= |trace|
    ensures forall k :: 0 <= k < m ==> (InTimeAt(s, trace[..m], k) <==> InTimeAt(s, trace, k))
  {
    hide Sort, After;
    forall k | 0 <= k < m
      ensures InTimeAt(s, trace[..m], k) <==> InTimeAt(s, trace, k)
    {
      assert trace[..m][..k] == trace[..k];
    }
  }

  /** The viewer prints a trace in sorted order if and only if no instruction comes too late. */
  lemma OutputSortedIff(s: Settings, trace: seq<Instruction>)
    ensures Output(s, trace) == Sort(trace) <==> InTime(s, trace)
  {
    hide Sort, After, Flush, WithNumber, Ordered;
    SortSorts(trace);
    if InTime(s, trace) {
      InTimeSynchronizes(s, trace);
      FlushEmpties(After(s, trace));
    } else {
      var n := FirstLate(s, trace);
      LateStaysLate(s, trace, n);
    }
  }

  lemma FlushEmpties(w: Window)
    ensures Flush(w, 0).out == w.out + Sort(w.queue)
  {
    hide Sort;
    assert Sort(w.queue)[..|w.queue|] == Sort(w.queue);
  }

  // ---- When instructions leave the queue ----

  /** Between two flushes nothing leaves; a flush takes the smallest instructions in order and leaves minThreshold of them. */
  lemma TurnsOver(s: Settings, w: Window, x: Instruction)
    requires |w.queue| <= s.maxThreshold
    ensures
      var r := Arrive(s, w, x);
      if |w.queue| < s.maxThreshold then r == Window(w.out, w.queue + [x])
      else
        && w.out <= r.out && |r.queue| == (if s.minThreshold <= s.maxThreshold then s.minThreshold else s.maxThreshold + 1)
        && multiset(r.out[|w.out|..]) + multiset(r.queue) == multiset(w.queue) + multiset{x}
        && Ordered(r.out[|w.out|..] + r.queue)
  {
    hide Sort, Ordered;
    if |w.queue| == s.maxThreshold {
      var sorted := Sort(w.queue + [x]);
      var r := Arrive(s, w, x);
      ArriveExtends(s, w, x, |w.out|);
      SortSorts(w.queue + [x]);
      assert r.out[|w.out|..] + r.queue == sorted;
    }
  }

  /** So many have left after n arrivals: the first flush comes when the queue is over its threshold, and then at equal distances. */
  lemma {:induction false} OutCount(s: Settings, trace: seq<Instruction>)
    requires s.minThreshold <= s.maxThreshold
    ensures
      var n, share := |trace|, s.maxThreshold + 1 - s.minThreshold;
      |After(s, trace).out| == if n <= s.maxThreshold then 0 else (n - s.minThreshold) / share * share
  {
    hide Flush, Arrive;
    var n, share := |trace|, s.maxThreshold + 1 - s.minThreshold;
    if n > 0 {
      var front := trace[..n - 1];
      OutCount(s, front);
      ArriveCounts(s, After(s, front), trace[n - 1]);
      NextShare(n - 1 - s.minThreshold, share);
    }
  }

  lemma ArriveCounts(s: Settings, w: Window, x: Instruction)
    ensures
      var left := |w.queue| + 1;
      |Arrive(s, w, x).out| == |w.out| + if left > s.maxThreshold && left > s.minThreshold then left - s.minThreshold else 0
  {
  }

  lemma NextShare(k: int, share: int)
    requires share >= 1
    ensures
      var done := k / share * share;
      && done <= k < done + share && (0 <= k < share ==> done == 0)
      && (k + 1) / share * share == if k + 1 == done + share then done + share else done
  {
    var q, r := k / share, k % share;
    assert k == q * share + r;
    if r + 1 == share {
      MultipleIs(k + 1, share, q + 1, 0);
    } else {
      MultipleIs(k + 1, share, q, r + 1);
    }
    if 0 <= k < share {
      MultipleIs(k, share, 0, k);
    }
  }

  lemma MultipleIs(k: int, share: int, q: int, r: int)
    requires share >= 1 && k == q * share + r && 0 <= r < share
    ensures k / share * share == q * share
  {
    var d := k / share - q;
    assert k / share * share == q * share + d * share;
    assert d >= 1 ==> d * share >= share;
    assert d <= -1 ==> d * share <= -share;
  }

  // ---- Displacement ----

  /** How many numbers of xs are at most sn. */
  function AtMost(xs: seq<Instruction>, sn: int): nat {
    if xs == [] then 0 else AtMost(xs[..|xs| - 1], sn) + (if xs[|xs| - 1].sn <= sn then 1 else 0)
  }

  /** Where the i-th instruction stands in the sorted trace: behind the earlier ones up to it and the later smaller ones. */
  function SortedPosition(trace: seq<Instruction>, i: nat): nat
    requires i < |trace|
  {
    AtMost(trace[..i], trace[i].sn) + AtMost(trace[i..], trace[i].sn - 1)
  }

  /** No instruction arrives more than the given number of places behind its sorted position. */
  ghost predicate Displaced(trace: seq<Instruction>, places: nat) {
    forall i :: 0 <= i < |trace| ==> i <= SortedPosition(trace, i) + places
  }

  lemma {:induction false} AtMostConcat(a: seq<Instruction>, b: seq<Instruction>, sn: int)
    ensures AtMost(a + b, sn) == AtMost(a, sn) + AtMost(b, sn)
  {
    if b == [] {
      assert a + b == a;
    } else {
      assert (a + b)[..|a + b| - 1] == a + b[..|b| - 1];
      AtMostConcat(a, b[..|b| - 1], sn);
    }
  }

  lemma {:induction false} AtMostBounds(xs: seq<Instruction>, sn: int)
    ensures AtMost(xs, sn) <= |xs|
    ensures (forall i :: 0 <= i < |xs| ==> xs[i].sn > sn) ==> AtMost(xs, sn) == 0
    ensures (forall i :: 0 <= i < |xs| ==> xs[i].sn <= sn) ==> AtMost(xs, sn) == |xs|
  {
    if xs != [] {
      AtMostBounds(xs[..|xs| - 1], sn);
    }
  }

  lemma AtMostOne(x: Instruction, sn: int)
    ensures AtMost([x], sn) == if x.sn <= sn then 1 else 0
  {
    assert [x][..0] == [];
  }

  lemma {:induction false} AtMostInsert(xs: seq<Instruction>, x: Instruction, sn: int)
    ensures AtMost(Insert(xs, x), sn) == AtMost(xs + [x], sn)
  {
    AtMostConcat(xs, [x], sn);
    if xs != [] && xs[|xs| - 1].sn > x.sn {
      var front, last := xs[..|xs| - 1], xs[|xs| - 1];
      AtMostInsert(front, x, sn);
      AtMostConcat(front, [x], sn);
      AtMostConcat(Insert(front, x), [last], sn);
      AtMostOne(x, sn);
      AtMostOne(last, sn);
    }
  }

  lemma {:induction false} AtMostSort(xs: seq<Instruction>, sn: int)
    ensures AtMost(Sort(xs), sn) == AtMost(xs, sn)
  {
    if xs != [] {
      var front, last := xs[..|xs| - 1], xs[|xs| - 1];
      AtMostSort(front, sn);
      AtMostInsert(Sort(front), last, sn);
      assert (Sort(front) + [last])[..|front|] == Sort(front);
    }
  }

  /** In sorted order the numbers up to sn come first. */
  lemma AtMostSplits(xs: seq<Instruction>, sn: int, k: nat)
    requires Ordered(xs) && k < |xs|
    ensures k < AtMost(xs, sn) <==> xs[k].sn <= sn
  {
    hide AtMost, Ordered;
    if xs[k].sn <= sn {
      var front := xs[..k + 1];
      assert xs == front + xs[k + 1..];
      AtMostConcat(front, xs[k + 1..], sn);
      PrefixOrdered(xs, k + 1);
      AllAtMost(front, sn);
    } else {
      assert xs == xs[..k] + xs[k..];
      AtMostConcat(xs[..k], xs[k..], sn);
      AtMostBounds(xs[..k], sn);
      SuffixOrdered(xs, k);
      NoneAtMost(xs[k..], sn);
    }
  }

  lemma NoneAtMost(xs: seq<Instruction>, sn: int)
    requires Ordered(xs) && xs != [] && xs[0].sn > sn
    ensures AtMost(xs, sn) == 0
  {
    AtMostBounds(xs, sn);
  }

  /** The first of the smallest instructions from n on. */
  lemma {:induction false} FirstSmallest(trace: seq<Instruction>, n: nat) returns (j: nat)
    requires n < |trace|
    ensures n <= j < |trace|
    ensures forall i :: n <= i < |trace| ==> trace[j].sn <= trace[i].sn
    ensures forall i :: n <= i < j ==> trace[j].sn < trace[i].sn
    decreases |trace| - n
  {
    if n + 1 == |trace| {
      return n;
    }
    j := FirstSmallest(trace, n + 1);
    if trace[n].sn <= trace[j].sn {
      j := n;
    }
  }

  /** Nothing from n on comes before it in sorted order. */
  lemma SmallestPosition(trace: seq<Instruction>, n: nat, j: nat)
    requires n <= j < |trace|
    requires forall i :: n <= i < |trace| ==> trace[j].sn <= trace[i].sn
    requires forall i :: n <= i < j ==> trace[j].sn < trace[i].sn
    ensures SortedPosition(trace, j) == AtMost(Sort(trace[..n]), trace[j].sn)
  {
    hide AtMost, Sort;
    var y := trace[j].sn;
    assert trace[..j] == trace[..n] + trace[n..j];
    AtMostConcat(trace[..n], trace[n..j], y);
    AtMostBounds(trace[n..j], y);
    AtMostBounds(trace[j..], y - 1);
    AtMostSort(trace[..n], y);
  }

  lemma DisplacedInTimeAt(s: Settings, trace: seq<Instruction>, n: nat)
    requires Displaced(trace, s.minThreshold) && n < |trace|
    ensures InTimeAt(s, trace, n)
  {
    hide Sort, After, Ordered, WithNumber, SortedPosition;
    var p := |After(s, trace[..n]).out|;
    if p > 0 {
      var sorted := Sort(trace[..n]);
      var j := FirstSmallest(trace, n);
      SmallestPosition(trace, n, j);
      SortSorts(trace[..n]);
      AtMostSplits(sorted, trace[j].sn, p - 1);
      assert j <= SortedPosition(trace, j) + s.minThreshold;
    }
  }

  /** The bound the viewer documents is enough: every instruction within minThreshold places of its sorted position. */
  lemma WindowSuffices(s: Settings, trace: seq<Instruction>)
    requires Displaced(trace, s.minThreshold)
    ensures Output(s, trace) == Sort(trace)
  {
    hide Sort, Output, InTimeAt;
    forall n | 0 <= n < |trace|
      ensures InTimeAt(s, trace, n)
    {
      DisplacedInTimeAt(s, trace, n);
    }
    OutputSortedIff(s, trace);
  }

  // ---- The sorted position is the position in the sorted trace ----

  lemma {:induction false} InsertAt(xs: seq<Instruction>, x: Instruction)
    requires Ordered(xs)
    ensures var k := AtMost(xs, x.sn); k <= |xs| && Insert(xs, x) == xs[..k] + [x] + xs[k..]
  {
    hide AtMost, Ordered;
    if xs == [] || xs[|xs| - 1].sn <= x.sn {
      AllAtMost(xs, x.sn);
      assert xs[..|xs|] == xs && xs[|xs|..] == [];
    } else {
      var front, last := xs[..|xs| - 1], xs[|xs| - 1];
      assert xs == front + [last];
      PrefixOrdered(xs, |xs| - 1);
      InsertAt(front, x);
      AtMostConcat(front, [last], x.sn);
      AtMostOne(last, x.sn);
      Widen(front, x, last, AtMost(front, x.sn));
    }
  }

  lemma AllAtMost(xs: seq<Instruction>, sn: int)
    requires Ordered(xs) && (xs == [] || xs[|xs| - 1].sn <= sn)
    ensures AtMost(xs, sn) == |xs|
  {
    AtMostBounds(xs, sn);
  }

  lemma PrefixOrdered(xs: seq<Instruction>, n: nat)
    requires Ordered(xs) && n <= |xs|
    ensures Ordered(xs[..n])
  {
  }

  lemma Widen(front: seq<Instruction>, x: Instruction, last: Instruction, k: nat)
    requires k <= |front|
    ensures front[..k] + [x] + front[k..] + [last] == (front + [last])[..k] + [x] + (front + [last])[k..]
  {
  }

  lemma {:induction false} PositionInSorted(trace: seq<Instruction>, i: nat)
    requires i < |trace|
    ensures SortedPosition(trace, i) < |trace| && Sort(trace)[SortedPosition(trace, i)] == trace[i]
  {
    hide Sort, SortedPosition, AtMost, Ordered, Insert;
    var m := |trace| - 1;
    var front, last := trace[..m], trace[m];
    var sorted := Sort(front);
    assert Ordered(sorted) by {
      SortSorts(front);
    }
    assert front + [last] == trace;
    SortSnoc(front, last);
    InsertAt(sorted, last);
    AtMostSort(front, last.sn);
    PositionStep(front, last, i);
    if i < m {
      PositionInSorted(front, i);
      AtMostSplits(sorted, last.sn, SortedPosition(front, i));
    }
  }

  lemma CutSnoc(front: seq<Instruction>, last: Instruction, i: nat)
    requires i <= |front|
    ensures (front + [last])[..i] == front[..i] && (front + [last])[i..] == front[i..] + [last]
  {
  }

  /** A new last instruction stands behind those up to it, and moves the larger ones back. */
  lemma PositionStep(front: seq<Instruction>, last: Instruction, i: nat)
    requires i <= |front|
    ensures SortedPosition(front + [last], i) ==
      if i == |front| then AtMost(front, last.sn)
      else SortedPosition(front, i) + if last.sn < front[i].sn then 1 else 0
  {
    hide AtMost;
    CutSnoc(front, last, i);
    if i == |front| {
      assert front[..i] == front && front[i..] + [last] == [last];
      AtMostOne(last, last.sn - 1);
    } else {
      AtMostConcat(front[i..], [last], front[i].sn - 1);
      AtMostOne(last, front[i].sn - 1);
    }
  }

  // ---- The viewer ----

  lemma {:induction false} FilteredSnoc(s: Settings, xs: seq<Instruction>, x: Instruction)
    ensures Filtered(s, xs + [x]) == Filtered(s, xs) + if Kept(s, x) then [x] else []
  {
    assert (xs + [x])[..|xs|] == xs;
  }

  /** ys are the elements of xs at the positions `at`, in order. */
  predicate Picks(xs: seq<Instruction>, at: seq<nat>, ys: seq<Instruction>) {
    && |at| == |ys|
    && (forall i, j :: 0 <= i < j < |at| ==> at[i] < at[j])
    && (forall i :: 0 <= i < |at| ==> at[i] < |xs| && xs[at[i]] == ys[i])
  }

  /** Printed is, in order, every instruction of out whose number and fetch tick are within the bounds that are set. */
  ghost predicate Prints(s: Settings, out: seq<Instruction>, printed: seq<Instruction>) {
    exists at: seq<nat> :: Picks(out, at, printed) && forall k: nat :: k < |out| ==>
      (k in at <==>
        && (s.snStart <= 0 || s.snStart <= out[k].sn) && (s.snStop <= 0 || out[k].sn <= s.snStop)
        && (s.tickStart <= 0 || s.tickStart <= out[k].fetch) && (s.tickStop <= 0 || out[k].fetch <= s.tickStop)
        && (s.onlyCommitted ==> out[k].retire != 0))
  }

  lemma FilteredPrints(s: Settings, out: seq<Instruction>)
    ensures Prints(s, out, Filtered(s, out))
  {
    hide Filtered, Picks;
    var at := FilteredPicks(s, out);
  }

  lemma {:induction false} FilteredPicks(s: Settings, out: seq<Instruction>) returns (at: seq<nat>)
    ensures Picks(out, at, Filtered(s, out)) && forall k: nat :: k < |out| ==> (k in at <==> Kept(s, out[k]))
  {
    hide Kept;
    at := [];
    if out != [] {
      var n := |out| - 1;
      var front := FilteredPicks(s, out[..n]);
      at := front + if Kept(s, out[n]) then [n] else [];
      forall k: nat | k < |out|
        ensures k in at <==> Kept(s, out[k])
      {
        assert k < n ==> out[..n][k] == out[k];
      }
    }
  }

  class PrintQueue {
    const settings: Settings
    var queue: seq<Instruction>
    var printed: seq<Instruction>
    /** Everything taken off the queue, printed or filtered out. */
    ghost var out: seq<Instruction>

    ghost predicate Valid()
      reads this
    {
      printed == Filtered(settings, out)
    }

    ghost function Value(): Window
      reads this
    {
      Window(out, queue)
    }

    constructor (settings: Settings)
      ensures Valid() && this.settings == settings && Value() == Window([], [])
    {
      this.settings := settings;
      queue, printed, out := [], [], [];
    }

    method PrintInsts(lower: nat)
      requires Valid()
      modifies this
      ensures Valid() && Value() == Flush(old(Value()), lower)
      ensures Prints(settings, Value().out, printed)
    {
      hide Sort, Filtered, Kept;
      queue := Sort(queue);
      ghost var sorted, n := queue, 0;
      while |queue| > lower
        invariant Valid() && n <= |sorted| && queue == sorted[n..] && out == old(out) + sorted[..n]
        invariant n == 0 || |queue| >= lower
        decreases |queue|
      {
        var item := queue[0];
        queue := queue[1..];
        FilteredSnoc(settings, out, item);
        n, out := n + 1, out + [item];
        if !Kept(settings, item) {
          continue;
        }
        printed := printed + [item];
      }
      FilteredPrints(settings, out);
    }

    method QueueInst(x: Instruction)
      requires Valid()
      modifies this
      ensures Valid() && Value() == Arrive(settings, old(Value()), x)
    {
      queue := queue + [x];
      if |queue| > settings.maxThreshold {
        PrintInsts(settings.minThreshold);
      }
    }

    /** The trace's retired instructions from a new queue to the flush at the end of the file. */
    method ProcessTrace(trace: seq<Instruction>)
      requires Valid() && Value() == Window([], [])
      modifies this
      ensures Prints(settings, Output(settings, trace), printed)
      ensures InTime(settings, trace) || Displaced(trace, settings.minThreshold) ==> Prints(settings, Sort(trace), printed)
    {
      hide Sort, Filtered, Flush, Arrive;
      var n := 0;
      while n < |trace|
        invariant Valid() && n <= |trace| && Value() == After(settings, trace[..n])
      {
        assert trace[..n + 1] == trace[..n] + [trace[n]];
        AfterSnoc(settings, trace[..n + 1]);
        QueueInst(trace[n]);
        n := n + 1;
      }
      assert trace[..n] == trace;
      PrintInsts(0);
      OutputSortedIff(settings, trace);
      if Displaced(trace, settings.minThreshold) {
        WindowSuffices(settings, trace);
      }
    }
  }
}
