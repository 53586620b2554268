/** A request that is never served because refreshes follow one another too closely; exactly when every request is served. */
module RunStarved {
  import opened DramTypes
  import opened Wrappers
  import opened MemoryController
  import opened MemorySystem
  import opened TransactionFlow
  import opened Runs
  import opened Progress
  import opened RunProgress
  import opened RunServed
  import opened QuietRun
  import Liveness
  import RefreshSchedule

  // ---- Nothing but refreshes ----

  /** In cycle n or later, in cycle y, a refresh is asked for, and no bank can be activated before that. */
  predicate AskedFirst(cfg: Config, banks: seq<BankState>, n: nat, y: nat)
    requires cfg.Valid()
  {
    n <= y && Multiple(cfg.refreshCycles, y) && ActivateFrom(banks, y)
  }

  /** Packets wait while all banks are closed, and a refresh waits too or is asked for before a bank can be activated. */
  ghost predicate Starved(cfg: Config, t: Trail)
    requires cfg.Valid()
  {
    var m, n := t.system.controller, |t.trace|;
    && InRun(cfg, t) && QueueBusy(m.queue) && NoneOpen(m.banks)
    && (|| m.queue.refreshWaiting || Multiple(cfg.refreshCycles, n)
        || (!m.powerDown && exists y: nat :: AskedFirst(cfg, m.banks, n, y)))
  }

  /** Nothing was sent, or a refresh. */
  predicate OnlyRefresh(sent: Option<Packet>) {
    sent.None? || IsRefresh(sent)
  }

  lemma NextMultiple(period: nat, n: nat) returns (y: nat)
    requires period >= 1
    ensures n < y <= n + period && Multiple(period, y)
  {
    var k := n / period;
    y := period * k + period;
    RefreshSchedule.Remainder(k, 0, period);
  }

  /** A tick of a run, with what holds up its activations. */
  lemma TickWithheld(cfg: Config, t: Trail, from: int) returns (t': Trail, sent: Option<Packet>)
    requires Roomy(cfg) && InRun(cfg, t) && ActivateFrom(t.system.controller.banks, from)
    ensures InRun(cfg, t') && t'.trace == t.trace + [sent] && Advance(cfg, t, Event.Tick) == Ok(t')
    ensures WorkLeft(t') <= WorkLeft(t)
    ensures
      var m, m', n := t.system.controller, t'.system.controller, |t.trace|;
      var waiting := m.queue.refreshWaiting || Multiple(cfg.refreshCycles, n);
      && HoldsActivates(cfg, m.banks, m.queue, waiting, sent, m'.banks, m'.powerDown == m.powerDown, n, from)
      && m'.queue.refreshWaiting == (waiting && !IsRefresh(sent)) && (IsRefresh(sent) ==> waiting)
      && (Left(t) > 0 && OnlyRefresh(sent) ==> QueueBusy(m'.queue)) && (QueueBusy(m'.queue) && !m.powerDown ==> !m'.powerDown)
      && (m.powerDown ==> sent.None?)
  {
    hide InRun, Steady, Cycle, ControllerLively, MemorySystem.Shaped, QueueBusy, Multiple, Advance, Reaches, HoldsActivates, ActivateFrom,
      WorkLeft, Left, RefreshSchedule.Due;
    InRunLively(cfg, t);
    t', sent := TickForward(cfg, t, |t.trace| - 1 + Liveness.Horizon(cfg));
    CycleActivates(cfg, t.system, from);
  }

  /** A starved controller stays so, whatever it sends. */
  lemma StarvedStep(cfg: Config, t: Trail) returns (t': Trail, sent: Option<Packet>)
    requires Roomy(cfg) && cfg.refreshCycles <= cfg.tRFC && Starved(cfg, t)
    ensures Advance(cfg, t, Event.Tick) == Ok(t') && t'.trace == t.trace + [sent] && OnlyRefresh(sent) && Starved(cfg, t')
  {
    hide InRun, QueueBusy, NoneOpen, ActivateFrom, Multiple, Advance, WorkLeft, Left;
    var m, n := t.system.controller, |t.trace|;
    var waiting := m.queue.refreshWaiting || Multiple(cfg.refreshCycles, n);
    var from;
    if waiting {
      from := LeastActivate(m.banks);
    } else {
      var y: nat :| AskedFirst(cfg, m.banks, n, y);
      from := y;
    }
    BusyHasWork(t);
    t', sent := TickWithheld(cfg, t, from);
    var banks' := t'.system.controller.banks;
    if IsRefresh(sent) {
      var y := NextMultiple(cfg.refreshCycles, n);
      NoLater(banks', n + cfg.tRFC, y);
      assert AskedFirst(cfg, banks', n + 1, y);
    } else if !waiting {
      assert AskedFirst(cfg, banks', n + 1, from);
    }
  }

  lemma NoLater(banks: seq<BankState>, from: int, sooner: int)
    requires ActivateFrom(banks, from) && sooner <= from
    ensures ActivateFrom(banks, sooner)
  {
  }

  lemma {:induction false} StarvesOn(cfg: Config, t: Trail, n: nat)
    requires Roomy(cfg) && cfg.refreshCycles <= cfg.tRFC && Starved(cfg, t)
    ensures After(cfg, t, n).Ok? && Starved(cfg, After(cfg, t, n).value)
    ensures
      var trace := After(cfg, t, n).value.trace;
      t.trace <= trace && forall k :: |t.trace| <= k < |trace| ==> OnlyRefresh(trace[k])
  {
    hide Starved, Advance, OnlyRefresh;
    if n > 0 {
      StarvesOn(cfg, t, n - 1);
      var t', _ := StarvedStep(cfg, After(cfg, t, n - 1).value);
    }
  }

  // ---- The run ----

  /** With all banks closed, packets that are not queued yet when pop is called wait at least for the next cycle. */
  lemma ClosedTick(cfg: Config, t: Trail) returns (t': Trail, sent: Option<Packet>)
    requires Roomy(cfg) && InRun(cfg, t) && NoneOpen(t.system.controller.banks) && !QueueBusy(t.system.controller.queue)
    ensures InRun(cfg, t') && t'.trace == t.trace + [sent] && Advance(cfg, t, Event.Tick) == Ok(t')
    ensures OnlyRefresh(sent) && NoneOpen(t'.system.controller.banks) && WorkLeft(t') <= WorkLeft(t)
    ensures Left(t) > 0 ==> QueueBusy(t'.system.controller.queue)
  {
    hide InRun, NoneOpen, WorkLeft, Left, QueueBusy, Advance, ActivateFrom, ActivateBy;
    var from := LeastActivate(t.system.controller.banks);
    t', sent := TickWithheld(cfg, t, from);
  }

  /** Before the first refresh nothing happens without a request. */
  lemma {:induction false} IdleStart(cfg: Config, n: nat) returns (t: Trail)
    requires Roomy(cfg)
    ensures Run(cfg, Ticks(n)) == Ok(t) && |t.trace| == n && WorkLeft(t) == 0 && NoneOpen(t.system.controller.banks)
    ensures forall k :: 0 <= k < n ==> OnlyRefresh(t.trace[k])
  {
    hide InRun, NoneOpen, WorkLeft, Run, OnlyRefresh, Advance, QueueBusy;
    if n == 0 {
      assert Ticks(0) == [];
      t := StartsIdle(cfg);
    } else {
      var u := IdleStart(cfg, n - 1);
      RunInRun(cfg, Ticks(n - 1), u);
      IdleIsEmpty(u);
      var sent;
      t, sent := ClosedTick(cfg, u);
      OneMore(cfg, Ticks(n - 1), u, Event.Tick);
      assert Ticks(n) == Ticks(n - 1) + [Event.Tick];
    }
  }

  lemma StartsIdle(cfg: Config) returns (t: Trail)
    requires cfg.Valid()
    ensures Run(cfg, []) == Ok(t) && t.trace == [] && WorkLeft(t) == 0 && NoneOpen(t.system.controller.banks)
  {
    hide WorkLeft;
    t := Trail(Reset(cfg), [], [], [], []);
    NoWorkAtFirst(cfg);
  }

  lemma IdleIsEmpty(t: Trail)
    requires WorkLeft(t) == 0
    ensures !QueueBusy(t.system.controller.queue) && t.system.controller.transactions == [] && t.system.pending == []
  {
    BusyHasWork(t);
  }

  lemma OneMore(cfg: Config, events: seq<Event>, t: Trail, e: Event)
    requires Run(cfg, events) == Ok(t)
    ensures Run(cfg, events + [e]) == Advance(cfg, t, e)
  {
    hide Advance;
    assert (events + [e])[..|events|] == events;
  }

  /** A request that arrives just before the first refresh is asked for. */
  function LateRequest(cfg: Config, tr: Transaction): seq<Event>
    requires cfg.Valid()
  {
    Ticks(cfg.refreshCycles - 1) + [Arrive(tr)] + [Event.Tick]
  }

  lemma LateRequestStarves(cfg: Config, tr: Transaction) returns (t: Trail)
    requires Roomy(cfg)
    ensures Run(cfg, LateRequest(cfg, tr)) == Ok(t) && Starved(cfg, t) && |t.trace| == cfg.refreshCycles
    ensures forall k :: 0 <= k < |t.trace| ==> OnlyRefresh(t.trace[k])
  {
    hide InRun, NoneOpen, WorkLeft, Run, OnlyRefresh, QueueBusy, Left, Ticks;
    var n := cfg.refreshCycles - 1;
    var idle := IdleStart(cfg, n);
    IdleIsEmpty(idle);
    OneMore(cfg, Ticks(n), idle, Arrive(tr));
    var asked := RequestArrives(cfg, idle, tr);
    RunInRun(cfg, Ticks(n) + [Arrive(tr)], asked);
    var sent;
    t, sent := ClosedTick(cfg, asked);
    OneMore(cfg, Ticks(n) + [Arrive(tr)], asked, Event.Tick);
    assert Multiple(cfg.refreshCycles, cfg.refreshCycles);
  }

  lemma RequestArrives(cfg: Config, t: Trail, tr: Transaction) returns (t': Trail)
    requires t.system.controller.transactions == [] && cfg.transQueueDepth >= 1
    ensures Advance(cfg, t, Arrive(tr)) == Ok(t') && t'.trace == t.trace && Left(t') > 0
    ensures t'.system.controller.banks == t.system.controller.banks && t'.system.controller.queue == t.system.controller.queue
  {
    t' := Advance(cfg, t, Arrive(tr)).value;
  }

  lemma StarvedIsNotDone(t: Trail)
    requires QueueBusy(t.system.controller.queue)
    ensures !AllDone(t.system)
  {
  }

  /**
   * With a refresh period of at most tRFC a request that arrives just before the first refresh is never served: nothing but
   * refreshes is ever sent.
   */
  lemma Starves(cfg: Config, tr: Transaction, n: nat)
    requires Roomy(cfg) && cfg.refreshCycles <= cfg.tRFC
    ensures Run(cfg, LateRequest(cfg, tr) + Ticks(n)).Ok?
    ensures
      var t := Run(cfg, LateRequest(cfg, tr) + Ticks(n)).value;
      !AllDone(t.system) && forall k :: 0 <= k < |t.trace| ==> OnlyRefresh(t.trace[k])
  {
    hide Run, LateRequest, After, AllDone, OnlyRefresh;
    var t := LateRequestStarves(cfg, tr);
    StarvesOn(cfg, t, n);
    AfterIsRun(cfg, LateRequest(cfg, tr), t, n);
    StarvedIsNotDone(After(cfg, t, n).value);
  }

  // ---- No room ----

  /** A request waits for room that there never is. */
  predicate Stuck(cfg: Config, s: System) {
    s.pending != [] || (s.controller.transactions != [] && cfg.cmdQueueDepth < 2)
  }

  lemma NoneSplittable(cfg: Config, m: ControllerState)
    requires cfg.cmdQueueDepth < 2
    ensures Split(cfg, m) == Ok(m)
  {
    hide Locate;
  }

  lemma StuckCycle(cfg: Config, s: System)
    requires Steady(cfg, s) && Stuck(cfg, s) && (cfg.cmdQueueDepth < 2 || cfg.transQueueDepth == 0)
    ensures MemorySystem.Shaped(cfg, s) && Cycle(cfg, s).Ok? && Stuck(cfg, Cycle(cfg, s).value.0)
  {
    hide Cycle, MemoryController.Update, ServeBuses, Issue, Split, ManagePower;
    SteadyShaped(cfg, s);
    BeginAhead(cfg, s);
    var (m, r) := Begin(cfg, s).value;
    var m4, m5, r5, m6, m7, m8, r8 := UpdatePhases(cfg, m, r, s.controller.clock - 1);
    IssueEffect(cfg, m5, m6);
    ReturnEffect(m8);
    CycleParts(cfg, s);
    if cfg.cmdQueueDepth < 2 {
      NoneSplittable(cfg, m6);
    }
  }

  lemma {:induction false} StaysStuck(cfg: Config, tr: Transaction, n: nat)
    requires cfg.Valid() && (cfg.cmdQueueDepth < 2 || cfg.transQueueDepth == 0)
    ensures Run(cfg, [Arrive(tr)] + Ticks(n)).Ok? && Stuck(cfg, Run(cfg, [Arrive(tr)] + Ticks(n)).value.system)
  {
    hide Run, Stuck, Cycle, Steady;
    if n == 0 {
      RunOfNothing(cfg);
      OneMore(cfg, [], Trail(Reset(cfg), [], [], [], []), Arrive(tr));
      assert [Arrive(tr)] + Ticks(0) == [] + [Arrive(tr)];
      ArrivesStuck(cfg, tr);
    } else {
      var before := [Arrive(tr)] + Ticks(n - 1);
      StaysStuck(cfg, tr, n - 1);
      NoFault(cfg, before);
      StuckCycle(cfg, Run(cfg, before).value.system);
      OneMore(cfg, before, Run(cfg, before).value, Event.Tick);
      assert [Arrive(tr)] + Ticks(n) == before + [Event.Tick];
    }
  }

  lemma ArrivesStuck(cfg: Config, tr: Transaction)
    requires cfg.cmdQueueDepth < 2 || cfg.transQueueDepth == 0
    ensures Stuck(cfg, Add(cfg, Reset(cfg), tr))
  {
  }

  // ---- The exact condition ----

  /** The run, continued by n ticks, has served everything. */
  ghost predicate ServedAfter(cfg: Config, events: seq<Event>, n: nat) {
    Run(cfg, events + Ticks(n)).Ok? && Complete(cfg, Run(cfg, events + Ticks(n)).value)
  }

  ghost predicate ServedEventually(cfg: Config, events: seq<Event>) {
    exists n: nat :: ServedAfter(cfg, events, n)
  }

  /**
   * Every run can be continued by ticks until everything is served if and only if a transaction can be queued, its two
   * packets fit, and the refresh period is longer than tRFC.
   */
  lemma ServedIff(cfg: Config)
    requires cfg.Valid()
    ensures (forall events :: ServedEventually(cfg, events)) <==>
              cfg.transQueueDepth >= 1 && cfg.cmdQueueDepth >= 2 && cfg.refreshCycles > cfg.tRFC
  {
    hide Run, LateRequest, AllDone;
    var tr := Transaction(false, 0, 0);
    if Progressive(cfg) {
      forall events
        ensures ServedEventually(cfg, events)
      {
        var n := EverythingServed(cfg, events);
        assert ServedAfter(cfg, events, n);
      }
    } else if Roomy(cfg) {
      forall n: nat
        ensures !ServedAfter(cfg, LateRequest(cfg, tr), n)
      {
        Starves(cfg, tr, n);
      }
      assert !ServedEventually(cfg, LateRequest(cfg, tr));
    } else {
      forall n: nat
        ensures !ServedAfter(cfg, [Arrive(tr)], n)
      {
        StaysStuck(cfg, tr, n);
        StuckIsNotDone(cfg, Run(cfg, [Arrive(tr)] + Ticks(n)).value.system);
      }
      assert !ServedEventually(cfg, [Arrive(tr)]);
    }
  }

  lemma StuckIsNotDone(cfg: Config, s: System)
    requires Stuck(cfg, s)
    ensures !AllDone(s)
  {
  }
}
