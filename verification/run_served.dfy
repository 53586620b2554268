/** Every request is served: after finitely many cycles without arrivals nothing is left anywhere in the memory system. */
module RunServed {
  import opened DramTypes
  import opened MemoryController
  import opened MemorySystem
  import opened TransactionFlow
  import opened Collecting
  import opened ReadConservation
  import opened Runs
  import opened RunOrder
  import opened Progress
  import Liveness
  import opened RunProgress
  import opened QuietRun
  import opened DataPaths
  import opened ArrivalOrder
  import SystemSafety

  // ---- Data on its way ----

  /** Every finished read is handed back in the cycle in which it comes back; all data arrives within its latency. */
  predicate Prompt(cfg: Config, s: System) {
    && s.controller.finished == [] && Within(cfg, ReadPath(s.rank), cfg.CL + cfg.AL)
    && Within(cfg, WritePath(s.controller), WriteLatency(cfg))
  }

  /** A cycle hands back the read that has come back in it. */
  lemma CycleAnswers(cfg: Config, s: System)
    requires Steady(cfg, s) && s.controller.finished == []
    ensures MemorySystem.Shaped(cfg, s) && Cycle(cfg, s).Ok? && Cycle(cfg, s).value.0.controller.finished == []
  {
    hide Cycle, MemoryController.Update, ServeBuses, Issue, Split, ManagePower, SystemSafety.Sound;
    SteadyShaped(cfg, s);
    BeginAhead(cfg, s);
    var (m, r) := Begin(cfg, s).value;
    var m4, m5, r5, m6, m7, m8, r8 := UpdatePhases(cfg, m, r, s.controller.clock - 1);
    IssueEffect(cfg, m5, m6);
    SplitEffect(cfg, m6, m7);
    CycleParts(cfg, s);
  }

  lemma CyclePrompt(cfg: Config, s: System)
    requires Steady(cfg, s) && Prompt(cfg, s)
    ensures MemorySystem.Shaped(cfg, s) && Cycle(cfg, s).Ok? && Prompt(cfg, Cycle(cfg, s).value.0)
  {
    hide Cycle, Steady, MemorySystem.Shaped, AgePath, Joined, Within;
    SteadyTimely(cfg, s);
    CyclePaths(cfg, s);
    CycleAnswers(cfg, s);
    WithinAges(cfg, ReadPath(s.rank), cfg.CL + cfg.AL, IsReadPacket(s.controller.cmdBus));
    WithinAges(cfg, WritePath(s.controller), WriteLatency(cfg), IsWritePacket(Cycle(cfg, s).value.1.issued));
  }

  lemma {:induction false} RunPrompt(cfg: Config, events: seq<Event>)
    requires cfg.Valid()
    ensures Run(cfg, events).Ok? && Prompt(cfg, Run(cfg, events).value.system)
  {
    hide Run, Steady, Cycle, MemorySystem.Shaped, Within;
    NoFault(cfg, events);
    if events == [] {
      RunOfNothing(cfg);
      NothingIsWithin(cfg);
    } else {
      var before := events[..|events| - 1];
      RunPrompt(cfg, before);
      NoFault(cfg, before);
      var t := Run(cfg, before).value;
      match events[|events| - 1]
      case Arrive(tr) => RunArrives(cfg, events, t, tr);
      case Tick =>
        CyclePrompt(cfg, t.system);
        RunTicks(cfg, events, t, Cycle(cfg, t.system).value.0, Cycle(cfg, t.system).value.1);
    }
  }

  lemma NothingIsWithin(cfg: Config)
    ensures Prompt(cfg, Reset(cfg))
  {
  }

  lemma InRunPrompt(cfg: Config, t: Trail)
    requires cfg.Valid() && InRun(cfg, t)
    ensures Prompt(cfg, t.system)
  {
    hide Run, Prompt;
    var events :| Run(cfg, events) == Ok(t);
    RunPrompt(cfg, events);
  }

  // ---- Draining ----

  /** The cycles until all data that is on its way has arrived. */
  function DataLeft(cfg: Config, t: Trail): int {
    Max(Max(Remaining(cfg, ReadPath(t.system.rank)), Remaining(cfg, WritePath(t.system.controller))), 0)
  }

  lemma DataLeftWithin(cfg: Config, t: Trail)
    requires cfg.Valid() && Prompt(cfg, t.system)
    ensures DataLeft(cfg, t) <= cfg.RL() + cfg.Burst()
  {
  }

  /** No column command is on the command bus. */
  predicate NoColumn(s: System) {
    s.controller.cmdBus.Some? ==> !s.controller.cmdBus.value.kind.IsColumn()
  }

  /** A tick when nothing is left to be sent. */
  lemma IdleTick(cfg: Config, t: Trail) returns (t': Trail)
    requires Progressive(cfg) && InRun(cfg, t) && Left(t) == 0
    ensures InRun(cfg, t') && Reaches(cfg, t, t') && Left(t') == 0 && |t'.trace| == |t.trace| + 1 && NoColumn(t'.system)
    ensures NoColumn(t.system) ==>
      && ReadPath(t'.system.rank) == AgePath(cfg, ReadPath(t.system.rank))
      && WritePath(t'.system.controller) == AgePath(cfg, WritePath(t.system.controller))
    ensures Timely(cfg, ReadPath(t.system.rank)) && Timely(cfg, WritePath(t.system.controller))
  {
    hide InRun, Reaches, Left, Cycle, Steady, MemorySystem.Shaped, ControllerLively, AgePath, QueueBusy, WorkLeft, Advance;
    InRunLively(cfg, t);
    var sent;
    t', sent := TickForward(cfg, t, |t.trace| - 1 + Liveness.Horizon(cfg));
    SteadyTimely(cfg, t.system);
    CyclePaths(cfg, t.system);
  }

  /** The data paths run empty. */
  lemma {:induction false} PathsDrain(cfg: Config, t: Trail) returns (t': Trail)
    requires Progressive(cfg) && InRun(cfg, t) && Left(t) == 0 && NoColumn(t.system)
    ensures InRun(cfg, t') && Reaches(cfg, t, t') && Left(t') == 0 && NoColumn(t'.system)
    ensures Quiet(ReadPath(t'.system.rank)) && Quiet(WritePath(t'.system.controller))
    ensures |t'.trace| <= |t.trace| + DataLeft(cfg, t)
    decreases DataLeft(cfg, t)
  {
    hide InRun, Reaches, Left, AgePath, Quiet, Remaining, NoColumn;
    var p, q := ReadPath(t.system.rank), WritePath(t.system.controller);
    if Quiet(p) && Quiet(q) {
      StaysReached(cfg, t);
      return t;
    }
    var u := IdleTick(cfg, t);
    RemainingAges(cfg, p);
    RemainingAges(cfg, q);
    t' := PathsDrain(cfg, u);
    ReachesFurther(cfg, t, u, t');
  }

  // ---- Nothing is left ----

  /** No request is pending, queued, on a bus, in the rank or waiting for its answer. */
  predicate AllDone(s: System) {
    && s.pending == [] && s.controller.transactions == []
    && (forall n :: 0 <= n < |s.controller.queue.queues| ==> s.controller.queue.queues[n] == [])
    && NoColumn(s)
    && s.controller.dataBus.None? && s.controller.writePackets == [] && s.controller.writeCountdown == []
    && s.rank.outgoing.None? && s.rank.readPackets == [] && s.rank.readCountdown == []
    && s.controller.finished == [] && s.controller.pendingReads == []
  }

  lemma NoneLeft(t: Trail)
    requires Left(t) == 0
    ensures t.system.pending == [] && t.system.controller.transactions == []
    ensures forall n :: 0 <= n < |t.system.controller.queue.queues| ==> t.system.controller.queue.queues[n] == []
  {
    NoPackets(t.system.controller.queue.queues);
  }

  /** Without reads in flight no read is pending. */
  lemma NoReadPending(cfg: Config, s: System)
    requires Steady(cfg, s) && Quiet(ReadPath(s.rank)) && NoColumn(s) && s.controller.finished == []
    requires forall n :: 0 <= n < |s.controller.queue.queues| ==> s.controller.queue.queues[n] == []
    ensures s.controller.pendingReads == []
  {
    var waiting := s.controller.pendingReads;
    var a := if waiting == [] then 0 else waiting[|waiting| - 1].address;
    NoFlight(cfg, s, a);
    assert Collect(waiting, WaitingAt(a)) == Flight(cfg, s.controller, s.rank, a);
    LastShows(waiting, a);
  }

  lemma LastShows(ts: seq<Transaction>, a: nat)
    ensures ts != [] && ts[|ts| - 1].address == a ==> Collect(ts, WaitingAt(a)) != []
  {
    if ts != [] {
      var front, last := ts[..|ts| - 1], ts[|ts| - 1];
      assert ts == front + [last];
      CollectAppend(front, last, WaitingAt(a));
    }
  }

  lemma NoFlight(cfg: Config, s: System, a: nat)
    requires Steady(cfg, s) && Quiet(ReadPath(s.rank)) && NoColumn(s) && s.controller.finished == []
    requires forall n :: 0 <= n < |s.controller.queue.queues| ==> s.controller.queue.queues[n] == []
    ensures Flight(cfg, s.controller, s.rank, a) == []
  {
    hide Locate;
    assert |s.rank.readPackets| == 0;
  }

  /** From every state of a run, ticks alone lead to a state in which everything is done. */
  lemma DoneEventually(cfg: Config, t: Trail) returns (t': Trail)
    requires Progressive(cfg) && InRun(cfg, t)
    ensures InRun(cfg, t') && Reaches(cfg, t, t') && AllDone(t'.system)
    ensures |t'.trace| <= |t.trace| + WorkLeft(t) * Response(cfg) + 1 + cfg.RL() + cfg.Burst()
  {
    hide InRun, Reaches, Left, Steady, WorkLeft, Response, DataLeft, Prompt, NoColumn, Quiet;
    var t1 := Drains(cfg, t);
    var t2 := IdleTick(cfg, t1);
    ReachesFurther(cfg, t, t1, t2);
    InRunPrompt(cfg, t2);
    DataLeftWithin(cfg, t2);
    t' := PathsDrain(cfg, t2);
    ReachesFurther(cfg, t, t2, t');
    NothingLeft(cfg, t');
  }

  lemma NothingLeft(cfg: Config, t: Trail)
    requires cfg.Valid() && InRun(cfg, t) && Left(t) == 0 && NoColumn(t.system)
    requires Quiet(ReadPath(t.system.rank)) && Quiet(WritePath(t.system.controller))
    ensures AllDone(t.system)
  {
    hide InRun, Left, Steady, NoColumn;
    NoneLeft(t);
    RunIsSteady(cfg, t);
    InRunPrompt(cfg, t);
    NoReadPending(cfg, t.system);
    NoDataLeft(cfg, t.system);
  }

  lemma NoDataLeft(cfg: Config, s: System)
    requires Steady(cfg, s) && Quiet(ReadPath(s.rank)) && Quiet(WritePath(s.controller))
    ensures s.controller.writePackets == [] && s.rank.readPackets == []
  {
    assert |s.controller.writePackets| == 0 && |s.rank.readPackets| == 0;
  }

  // ---- The run and its continuation ----

  function Ticks(n: nat): seq<Event> {
    seq(n, _ => Event.Tick)
  }

  lemma {:induction false} AfterIsRun(cfg: Config, events: seq<Event>, t: Trail, n: nat)
    requires Run(cfg, events) == Ok(t)
    ensures Run(cfg, events + Ticks(n)) == After(cfg, t, n)
    ensures Arrived(events + Ticks(n)) == Arrived(events)
  {
    hide Advance;
    var all := events + Ticks(n);
    if n == 0 {
      assert all == events;
    } else {
      AfterIsRun(cfg, events, t, n - 1);
      assert all[..|all| - 1] == events + Ticks(n - 1);
      assert all[|all| - 1] == Event.Tick;
    }
  }

  /** All commands are issued, all reads answered and all writes completed, each once and in order. */
  ghost predicate Complete(cfg: Config, t: Trail) {
    && AllDone(t.system)
    && (forall bank: nat, row: nat :: Collect(t.trace, SlotColumn(bank, row)) == Collect(t.accepted, WantsRow(cfg, bank, row)))
    && (forall a: nat :: Collect(t.returned, WaitingAt(a)) == Collect(t.accepted, ReadOf(a)))
    && t.written == Collect(t.trace, SlotWrite())
  }

  /**
   * Every run, continued by enough ticks, serves every request that has arrived: none is lost, all are accepted, their
   * commands issued in order per row, their reads answered in order per address and their writes completed.
   */
  lemma EverythingServed(cfg: Config, events: seq<Event>) returns (n: nat)
    requires Progressive(cfg)
    ensures n <= 4 * |Arrived(events)| * Response(cfg) + 1 + cfg.RL() + cfg.Burst()
    ensures Run(cfg, events + Ticks(n)).Ok? && Complete(cfg, Run(cfg, events + Ticks(n)).value)
    ensures multiset(Run(cfg, events + Ticks(n)).value.accepted) == multiset(Arrived(events))
  {
    hide Run, Arrived, Complete, AllDone, Advance, WorkLeft, Response;
    NoFault(cfg, events);
    WorkArrives(cfg, events);
    ResponseIsNat(cfg);
    var t := Run(cfg, events).value;
    var t' := DoneEventually(cfg, t);
    NoLess(WorkLeft(t), 4 * |Arrived(events)|, Response(cfg));
    n := |t'.trace| - |t.trace|;
    AfterIsRun(cfg, events, t, n);
    NothingLost(cfg, events + Ticks(n));
    DoneIsComplete(cfg, events + Ticks(n));
    DoneHasNoPending(t'.system);
  }

  lemma ResponseIsNat(cfg: Config)
    requires cfg.Valid()
    ensures Response(cfg) >= 0
  {
    SquareIsNat(cfg);
  }

  /** A request brings work of four, two for each of its packets; nothing else brings any. */
  lemma {:induction false} WorkArrives(cfg: Config, events: seq<Event>)
    requires Roomy(cfg)
    ensures Run(cfg, events).Ok? && WorkLeft(Run(cfg, events).value) <= 4 * |Arrived(events)|
  {
    hide Run, WorkLeft, Advance, InRun, Reaches, ControllerLively;
    NoFault(cfg, events);
    if events == [] {
      RunOfNothing(cfg);
      NoWorkAtFirst(cfg);
    } else {
      var before := events[..|events| - 1];
      WorkArrives(cfg, before);
      NoFault(cfg, before);
      var t := Run(cfg, before).value;
      match events[|events| - 1]
      case Arrive(tr) =>
        RunArrives(cfg, events, t, tr);
        MoreWork(cfg, t, Run(cfg, events).value, tr);
      case Tick =>
        RunInRun(cfg, before, t);
        InRunLively(cfg, t);
        var t', sent := TickForward(cfg, t, |t.trace| - 1 + Liveness.Horizon(cfg));
        LastEvent(cfg, events, t);
    }
  }

  lemma RunInRun(cfg: Config, events: seq<Event>, t: Trail)
    requires Run(cfg, events) == Ok(t)
    ensures InRun(cfg, t)
  {
    hide Run;
  }

  lemma LastEvent(cfg: Config, events: seq<Event>, t: Trail)
    requires events != [] && Run(cfg, events[..|events| - 1]) == Ok(t)
    ensures Run(cfg, events) == Advance(cfg, t, events[|events| - 1])
  {
    hide Advance;
  }

  lemma NoWorkAtFirst(cfg: Config)
    requires cfg.Valid()
    ensures WorkLeft(Trail(Reset(cfg), [], [], [], [])) == 0
  {
    var m := Reset(cfg).controller;
    NoPackets(m.queue.queues);
    NoneAreOpen(m.banks);
  }

  lemma {:induction false} NoneAreOpen(banks: seq<BankState>)
    requires NoneOpen(banks)
    ensures OpenBanks(banks) == 0
  {
    if banks != [] {
      NoneAreOpen(banks[..|banks| - 1]);
    }
  }

  lemma MoreWork(cfg: Config, t: Trail, t': Trail, tr: Transaction)
    requires t'.system == Add(cfg, t.system, tr)
    ensures WorkLeft(t') == WorkLeft(t) + 4
  {
  }

  lemma DoneHasNoPending(s: System)
    requires AllDone(s)
    ensures s.pending == []
  {
  }

  lemma DoneIsComplete(cfg: Config, events: seq<Event>)
    requires cfg.Valid() && Run(cfg, events).Ok? && AllDone(Run(cfg, events).value.system)
    ensures Complete(cfg, Run(cfg, events).value)
  {
    hide Run;
    var t := Run(cfg, events).value;
    forall bank: nat, row: nat
      ensures Collect(t.trace, SlotColumn(bank, row)) == Collect(t.accepted, WantsRow(cfg, bank, row))
    {
      RowOrder(cfg, events, bank, row);
      assert Line(cfg, t.system.controller, bank, row) == [];
    }
    forall a: nat
      ensures Collect(t.returned, WaitingAt(a)) == Collect(t.accepted, ReadOf(a))
    {
      ReadOrder(cfg, events, a);
      assert Unanswered(t.system.controller, a) == [];
    }
    WriteOrder(cfg, events);
  }
}
