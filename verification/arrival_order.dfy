/** Whether a request overtakes another on its way into the controller. */
module ArrivalOrder {
  import opened DramTypes
  import opened Wrappers
  import opened MemoryController
  import opened MemorySystem
  import opened Runs
  import opened TransactionFlow
  import opened RunOrder
  import opened Collecting
  import opened ReadConservation
  import CommandQueue
  import AddressMapping

  /** Everything that has arrived and is not yet split, in the order in which it will be split. */
  function Arrivals(s: System): seq<Transaction> {
    s.controller.transactions + s.pending
  }

  /** The caller's view of the situation in which a request goes past the overflow queue. */
  predicate Overtakes(cfg: Config, s: System, t: Transaction) {
    WillAccept(cfg, s.controller) && exists k :: 0 <= k < |s.pending| && s.pending[k] != t
  }

  lemma {:induction false} RotationIsConstant(s: seq<Transaction>, t: Transaction)
    requires [t] + s == s + [t]
    ensures forall k :: 0 <= k < |s| ==> s[k] == t
  {
    if s != [] {
      assert ([t] + s)[0] == t && (s + [t])[0] == s[0];
      assert [t] + s[1..] == s;
      assert s[1..] + [t] == (s + [t])[1..];
      assert ([t] + s)[1..] == s;
      RotationIsConstant(s[1..], t);
    }
  }

  lemma {:induction false} ConstantRotates(s: seq<Transaction>, t: Transaction)
    requires forall k :: 0 <= k < |s| ==> s[k] == t
    ensures [t] + s == s + [t]
  {
  }

  /** A new request keeps its place behind all earlier ones unless it overtakes the overflow queue. */
  lemma AddKeepsOrderIff(cfg: Config, s: System, t: Transaction)
    ensures Arrivals(Add(cfg, s, t)) == Arrivals(s) + [t] <==> !Overtakes(cfg, s, t)
  {
    var q, p := s.controller.transactions, s.pending;
    if WillAccept(cfg, s.controller) {
      assert Arrivals(Add(cfg, s, t)) == q + ([t] + p);
      assert Arrivals(s) + [t] == q + (p + [t]);
      if q + ([t] + p) == q + (p + [t]) {
        assert (q + ([t] + p))[|q|..] == [t] + p && (q + (p + [t]))[|q|..] == p + [t];
        RotationIsConstant(p, t);
      }
      if forall k :: 0 <= k < |p| ==> p[k] == t {
        ConstantRotates(p, t);
      }
    } else {
      assert Arrivals(Add(cfg, s, t)) == q + (p + [t]);
      assert Arrivals(s) + [t] == q + (p + [t]);
    }
  }

  /** A cycle never reorders: what it splits and keeps is what had arrived. */
  lemma AdmissionKeepsOrder(cfg: Config, s: System)
    requires Begin(cfg, s).Ok?
    ensures Begin(cfg, s).value.0.transactions + (if Admitted(cfg, s).Some? then s.pending[1..] else s.pending) == Arrivals(s)
  {
    if Admitted(cfg, s).Some? {
      assert s.pending == [s.pending[0]] + s.pending[1..];
    }
  }

  lemma OnlyOneSplits(cfg: Config, m: ControllerState, m': ControllerState, x: Transaction)
    requires Split(cfg, m) == Ok(m') && m.transactions == [x] && cfg.Valid() && cfg.cmdQueueDepth >= 2
    requires |m.queue.queues| == CommandQueue.QueueCount(cfg)
    requires forall n :: 0 <= n < |m.queue.queues| ==> m.queue.queues[n] == []
    ensures m'.transactions == []
  {
    hide AddressMapping.Decode;
    assert Splittable(cfg, m.queue, x);
  }

  /** With empty queues of sufficient depth, a cycle splits the only waiting transaction. */
  lemma FirstTransactionSplits(cfg: Config, s: System, x: Transaction)
    requires Steady(cfg, s) && cfg.cmdQueueDepth >= 2 && s.controller.transactions == [x] && Admitted(cfg, s).None?
    requires forall n :: 0 <= n < |s.controller.queue.queues| ==> s.controller.queue.queues[n] == []
    ensures Shaped(cfg, s) && Cycle(cfg, s).Ok?
    ensures Cycle(cfg, s).value.0.controller.transactions == [] && Cycle(cfg, s).value.0.pending == s.pending
  {
    hide ServeBuses, Issue, Split, ManagePower, ReturnRead, MemoryController.Update, Cycle, AddressMapping.Decode;
    SteadyShaped(cfg, s);
    BeginAhead(cfg, s);
    var (m, r) := Begin(cfg, s).value;
    var m4, m5, r5, m6, m7, m8, r8 := UpdatePhases(cfg, m, r, s.controller.clock - 1);
    IssueEffect(cfg, m5, m6);
    CommandQueue.PopQueues(cfg, m5.banks, m5.queue);
    assert m6.queue.queues == m5.queue.queues;
    OnlyOneSplits(cfg, m6, m7, x);
    ReturnEffect(m8);
    CycleParts(cfg, s);
  }

  /**
   * Overtaking happens: with a transaction queue of depth one, a write that arrives while the queue is full
   * waits in the overflow queue, the next cycle makes room, and a later read of the same address goes first.
   */
  lemma ReadOvertakesWrite(cfg: Config, a: nat)
    requires cfg.Valid() && cfg.transQueueDepth == 1 && cfg.cmdQueueDepth >= 2
    ensures
      var first, write, read := Transaction(false, a, 0), Transaction(true, a, 1), Transaction(false, a, 2);
      var events := [Arrive(first), Arrive(write), Tick];
      && Run(cfg, events).Ok?
      && Overtakes(cfg, Run(cfg, events).value.system, read)
      && Arrivals(Add(cfg, Run(cfg, events).value.system, read)) == [read, write]
  {
    hide Cycle, Steady, Advance;
    var first, write, read := Transaction(false, a, 0), Transaction(true, a, 1), Transaction(false, a, 2);
    var t0 := Trail(Reset(cfg), [], [], [], []);
    var e1, e2, e3 := [Arrive(first)], [Arrive(first), Arrive(write)], [Arrive(first), Arrive(write), Tick];
    assert e1[..0] == [] && e2[..1] == e1 && e3[..2] == e2;
    RunArrives(cfg, e1, t0, first);
    var t1 := Run(cfg, e1).value;
    RunArrives(cfg, e2, t1, write);
    var t2 := Run(cfg, e2).value;
    NoFault(cfg, e2);
    FirstTransactionSplits(cfg, t2.system, first);
    var (s', out) := Cycle(cfg, t2.system).value;
    RunTicks(cfg, e3, t2, s', out);
    assert s'.pending[0] != read;
  }

  // ---- Whole runs ----

  /** The requests of a run in the order of their arrival. */
  function Arrived(events: seq<Event>): seq<Transaction> {
    if events == [] then []
    else
      var e := events[|events| - 1];
      Arrived(events[..|events| - 1]) + if e.Arrive? then [e.transaction] else []
  }

  /** The requests accepted and those still pending, in that order, are those that arrived. */
  ghost predicate InOrder(cfg: Config, events: seq<Event>) {
    Run(cfg, events).Ok? && Run(cfg, events).value.accepted + Run(cfg, events).value.system.pending == Arrived(events)
  }

  /** The i-th event is not a request that overtakes another. */
  ghost predicate Waits(cfg: Config, events: seq<Event>, i: nat)
    requires i < |events|
  {
    events[i].Arrive? && Run(cfg, events[..i]).Ok? ==>
      !Overtakes(cfg, Run(cfg, events[..i]).value.system, events[i].transaction)
  }

  ghost predicate NoneOvertakes(cfg: Config, events: seq<Event>) {
    forall i :: 0 <= i < |events| ==> Waits(cfg, events, i)
  }

  /** One more event keeps the order exactly if it overtakes nobody. */
  lemma EventKeepsOrderIff(cfg: Config, events: seq<Event>)
    requires cfg.Valid() && events != [] && InOrder(cfg, events[..|events| - 1])
    ensures InOrder(cfg, events) <==> Waits(cfg, events, |events| - 1)
  {
    hide Cycle, Steady, Overtakes;
    var n := |events| - 1;
    var before := events[..n];
    NoFault(cfg, before);
    NoFault(cfg, events);
    var t := Run(cfg, before).value;
    match events[n]
    case Arrive(tr) =>
      RunArrives(cfg, events, t, tr);
      JoinsInOrderIff(cfg, t, tr);
    case Tick =>
      CycleSteady(cfg, t.system);
      var (s', out) := Cycle(cfg, t.system).value;
      RunTicks(cfg, events, t, s', out);
      TickKeepsOrder(cfg, t, s', out);
  }

  lemma JoinsInOrderIff(cfg: Config, t: Trail, tr: Transaction)
    ensures
      var s' := Add(cfg, t.system, tr);
      var accepted := if WillAccept(cfg, t.system.controller) then t.accepted + [tr] else t.accepted;
      accepted + s'.pending == t.accepted + t.system.pending + [tr] <==> !Overtakes(cfg, t.system, tr)
  {
    var q, p := t.accepted, t.system.pending;
    assert q + p + [tr] == q + (p + [tr]);
    if WillAccept(cfg, t.system.controller) {
      assert q + [tr] + p == q + ([tr] + p);
      if q + ([tr] + p) == q + (p + [tr]) {
        assert (q + ([tr] + p))[|q|..] == [tr] + p && (q + (p + [tr]))[|q|..] == p + [tr];
        RotationIsConstant(p, tr);
      }
      if forall k :: 0 <= k < |p| ==> p[k] == tr {
        ConstantRotates(p, tr);
      }
    }
  }

  lemma TickKeepsOrder(cfg: Config, t: Trail, s': System, out: Output)
    requires MemorySystem.Shaped(cfg, t.system) && Cycle(cfg, t.system) == Ok((s', out))
    ensures t.accepted + OptionSeq(Admitted(cfg, t.system)) + s'.pending == t.accepted + t.system.pending
  {
    hide MemoryController.Update, Begin;
    if Admitted(cfg, t.system).Some? {
      assert t.system.pending == [t.system.pending[0]] + t.system.pending[1..];
    }
  }

  lemma WaitsInPrefix(cfg: Config, events: seq<Event>, n: nat, i: nat)
    requires i < n <= |events|
    ensures Waits(cfg, events[..n], i) <==> Waits(cfg, events, i)
  {
    hide Run;
    assert events[..n][..i] == events[..i];
  }

  lemma NoneInPrefix(cfg: Config, events: seq<Event>, n: nat)
    requires NoneOvertakes(cfg, events) && n <= |events|
    ensures NoneOvertakes(cfg, events[..n])
  {
    hide Waits;
    forall i | 0 <= i < n
      ensures Waits(cfg, events[..n], i)
    {
      WaitsInPrefix(cfg, events, n, i);
    }
  }

  lemma StartsInOrder(cfg: Config)
    ensures InOrder(cfg, [])
  {
  }

  lemma {:induction false} WaitingKeepsOrder(cfg: Config, events: seq<Event>)
    requires cfg.Valid() && NoneOvertakes(cfg, events)
    ensures InOrder(cfg, events)
  {
    hide Waits, InOrder;
    if events == [] {
      StartsInOrder(cfg);
    } else {
      var n := |events| - 1;
      NoneInPrefix(cfg, events, n);
      WaitingKeepsOrder(cfg, events[..n]);
      EventKeepsOrderIff(cfg, events);
    }
  }

  /** Requests are in order of arrival all along a run if and only if none of them overtakes another. */
  lemma RunKeepsOrderIff(cfg: Config, events: seq<Event>)
    requires cfg.Valid()
    ensures (forall n :: 0 <= n <= |events| ==> InOrder(cfg, events[..n])) <==> NoneOvertakes(cfg, events)
  {
    hide InOrder, Waits;
    if NoneOvertakes(cfg, events) {
      forall n | 0 <= n <= |events|
        ensures InOrder(cfg, events[..n])
      {
        NoneInPrefix(cfg, events, n);
        WaitingKeepsOrder(cfg, events[..n]);
      }
    }
    if forall n :: 0 <= n <= |events| ==> InOrder(cfg, events[..n]) {
      forall i | 0 <= i < |events|
        ensures Waits(cfg, events, i)
      {
        var prefix := events[..i + 1];
        assert prefix[..i] == events[..i];
        EventKeepsOrderIff(cfg, prefix);
        WaitsInPrefix(cfg, events, i + 1, i);
      }
    }
  }

  /** What has been accepted stays at the front. */
  lemma {:induction false} AcceptedGrows(cfg: Config, events: seq<Event>, n: nat)
    requires cfg.Valid() && n <= |events|
    ensures Run(cfg, events).Ok? && Run(cfg, events[..n]).Ok?
    ensures Run(cfg, events[..n]).value.accepted <= Run(cfg, events).value.accepted
    ensures Arrived(events[..n]) <= Arrived(events)
    decreases |events| - n
  {
    hide Cycle, Steady;
    NoFault(cfg, events);
    NoFault(cfg, events[..n]);
    if n == |events| {
      assert events[..n] == events;
    } else {
      AcceptedGrows(cfg, events, n + 1);
      var more := events[..n + 1];
      assert more[..n] == events[..n];
      NoFault(cfg, more);
      var t := Run(cfg, events[..n]).value;
      match events[n]
      case Arrive(tr) => RunArrives(cfg, more, t, tr);
      case Tick =>
        CycleSteady(cfg, t.system);
        RunTicks(cfg, more, t, Cycle(cfg, t.system).value.0, Cycle(cfg, t.system).value.1);
    }
  }

  predicate Distinct(s: seq<Transaction>) {
    forall i, j :: 0 <= i < j < |s| ==> s[i] != s[j]
  }

  /** With requests that can be told apart, one that overtakes stays out of place for the rest of the run. */
  lemma OvertakingShows(cfg: Config, events: seq<Event>, n: nat)
    requires cfg.Valid() && n < |events| && Distinct(Arrived(events))
    requires InOrder(cfg, events[..n]) && !Waits(cfg, events, n)
    ensures !InOrder(cfg, events)
  {
    hide Run, Waits, Arrived, Distinct;
    var before, after := events[..n], events[..n + 1];
    assert after[..n] == before;
    WaitsInPrefix(cfg, events, n + 1, n);
    FirstOvertaken(cfg, after);
    AcceptedGrows(cfg, events, n + 1);
    var t := Run(cfg, events).value;
    OutOfPlace(Arrived(after), Arrived(events), Run(cfg, after).value.accepted, t.accepted, t.system.pending,
               |Run(cfg, before).value.accepted|);
  }

  lemma OutOfPlace(a': seq<Transaction>, a: seq<Transaction>, accepted': seq<Transaction>, accepted: seq<Transaction>,
                   pending: seq<Transaction>, k: nat)
    requires a' <= a && accepted' <= accepted && Distinct(a)
    requires k < |a'| - 1 && k < |accepted'| && accepted'[k] == a'[|a'| - 1]
    ensures accepted + pending != a
  {
    assert (accepted + pending)[k] == a[|a'| - 1];
  }

  /** The request that goes first was the last to arrive. */
  lemma FirstOvertaken(cfg: Config, events: seq<Event>)
    requires cfg.Valid() && events != []
    requires InOrder(cfg, events[..|events| - 1]) && !Waits(cfg, events, |events| - 1)
    ensures Run(cfg, events).Ok?
    ensures
      var k := |Run(cfg, events[..|events| - 1]).value.accepted|;
      var a, accepted := Arrived(events), Run(cfg, events).value.accepted;
      k < |a| - 1 && k < |accepted| && accepted[k] == a[|a| - 1]
  {
    var n := |events| - 1;
    var t := Run(cfg, events[..n]).value;
    RunArrives(cfg, events, t, events[n].transaction);
  }

  lemma {:induction false} FirstToOvertake(cfg: Config, events: seq<Event>) returns (n: nat)
    requires cfg.Valid() && !NoneOvertakes(cfg, events)
    ensures n < |events| && InOrder(cfg, events[..n]) && !Waits(cfg, events, n)
    decreases |events|
  {
    hide InOrder, Waits;
    var m := |events| - 1;
    var front := events[..m];
    forall i | 0 <= i < m
      ensures Waits(cfg, front, i) <==> Waits(cfg, events, i)
    {
      WaitsInPrefix(cfg, events, m, i);
    }
    if NoneOvertakes(cfg, front) {
      WaitingKeepsOrder(cfg, front);
      n := m;
    } else {
      n := FirstToOvertake(cfg, front);
      assert front[..n] == events[..n];
    }
  }

  /** Requests that can be told apart are in order of arrival at the end of a run if and only if none overtook another. */
  lemma DistinctInOrderIff(cfg: Config, events: seq<Event>)
    requires cfg.Valid() && Distinct(Arrived(events))
    ensures InOrder(cfg, events) <==> NoneOvertakes(cfg, events)
  {
    hide InOrder, Distinct, Arrived;
    if NoneOvertakes(cfg, events) {
      WaitingKeepsOrder(cfg, events);
    } else {
      var n := FirstToOvertake(cfg, events);
      OvertakingShows(cfg, events, n);
    }
  }

  /** Then column commands and answers are in order of arrival too. */
  lemma ArrivalOrderHolds(cfg: Config, events: seq<Event>, bank: nat, row: nat, a: nat)
    requires cfg.Valid() && NoneOvertakes(cfg, events)
    ensures Run(cfg, events).Ok?
    ensures
      var t := Run(cfg, events).value;
      && Collect(t.trace, SlotColumn(bank, row)) + Line(cfg, t.system.controller, bank, row)
         + Collect(t.system.pending, WantsRow(cfg, bank, row))
         == Collect(Arrived(events), WantsRow(cfg, bank, row))
      && Collect(t.returned, WaitingAt(a)) + Unanswered(t.system.controller, a) + Collect(t.system.pending, ReadOf(a))
         == Collect(Arrived(events), ReadOf(a))
  {
    hide Run;
    WaitingKeepsOrder(cfg, events);
    RowOrder(cfg, events, bank, row);
    ReadOrder(cfg, events, a);
    var t := Run(cfg, events).value;
    CollectConcat(t.accepted, t.system.pending, WantsRow(cfg, bank, row));
    CollectConcat(t.accepted, t.system.pending, ReadOf(a));
  }

  /** Whatever the order, no request is lost and none is made up. */
  lemma {:induction false} NothingLost(cfg: Config, events: seq<Event>)
    requires cfg.Valid()
    ensures Run(cfg, events).Ok?
    ensures
      var t := Run(cfg, events).value;
      multiset(t.accepted) + multiset(t.system.pending) == multiset(Arrived(events))
  {
    hide Run, Cycle, Steady, MemorySystem.Shaped;
    NoFault(cfg, events);
    if events == [] {
      NothingArrived(cfg);
    } else {
      var before := events[..|events| - 1];
      NothingLost(cfg, before);
      NoFault(cfg, before);
      var t := Run(cfg, before).value;
      match events[|events| - 1]
      case Arrive(tr) =>
        RunArrives(cfg, events, t, tr);
        assert Arrived(events) == Arrived(before) + [tr];
      case Tick =>
        CycleSteady(cfg, t.system);
        var (s', out) := Cycle(cfg, t.system).value;
        RunTicks(cfg, events, t, s', out);
        TickKeepsOrder(cfg, t, s', out);
        var admitted := OptionSeq(Admitted(cfg, t.system));
        assert multiset(t.accepted + admitted + s'.pending) == multiset(t.accepted + t.system.pending);
    }
  }

  lemma NothingArrived(cfg: Config)
    ensures Run(cfg, []).Ok? && Run(cfg, []).value.accepted == [] && Run(cfg, []).value.system.pending == []
  {
  }
}
