/** Progress over whole runs: once no more requests arrive, every request is served within a bounded number of cycles. */
module RunProgress {
  import opened DramTypes
  import opened Wrappers
  import opened MemoryController
  import opened MemorySystem
  import opened Runs
  import opened RunTiming
  import opened Settled
  import opened Liveness
  import opened Progress
  import opened QuietRun
  import ActivationWindow
  import RefreshSchedule
  import SystemSafety

  /** Requests can be accepted and split. */
  predicate Roomy(cfg: Config) {
    cfg.Valid() && cfg.cmdQueueDepth >= 2 && cfg.transQueueDepth >= 1
  }

  /** And a refresh is over before the next one is asked for. */
  predicate Progressive(cfg: Config) {
    Roomy(cfg) && cfg.refreshCycles > cfg.tRFC
  }

  function Left(t: Trail): nat {
    Load(t.system.controller, |t.system.pending|)
  }

  function WorkLeft(t: Trail): nat {
    Effort(t.system.controller, |t.system.pending|)
  }

  predicate IsRefresh(p: Option<Packet>) {
    p.Some? && p.value.kind.REFRESH?
  }

  // ---- The state of the scheduler in a run ----

  lemma CycleProgress(cfg: Config, s: System, due: int)
    requires Steady(cfg, s)
    requires ControllerLively(cfg, s.controller, due) && ActivationWindow.WindowOk(cfg, s.controller.queue.window)
    ensures MemorySystem.Shaped(cfg, s) && Cycle(cfg, s).Ok?
    ensures
      var (s', out) := Cycle(cfg, s).value;
      var m, m', clock := s.controller, s'.controller, s.controller.clock;
      var waiting := m.queue.refreshWaiting || RefreshSchedule.Due(m.refresh);
      && ControllerLively(cfg, m', if m'.powerDown == m.powerDown then SentDue(cfg, out.issued, due, clock) else Max(due, clock + Horizon(cfg)))
      && (due <= clock && !m.powerDown && (waiting || QueueBusy(m.queue)) ==> out.issued.Some?)
      && (QueueBusy(m'.queue) && (due <= clock || !m.powerDown) ==> !m'.powerDown) && (m.powerDown ==> out.issued.None?)
      && Effort(m', |s'.pending|) <= Effort(m, |s.pending|) && Load(m', |s'.pending|) <= Load(m, |s.pending|)
      && (out.issued.Some? && out.issued.value.kind.IsColumn() ==> Load(m', |s'.pending|) < Load(m, |s.pending|))
      && (out.issued.Some? && !IsRefresh(out.issued) ==> Effort(m', |s'.pending|) < Effort(m, |s.pending|))
      && m'.queue.refreshWaiting == (waiting && !IsRefresh(out.issued)) && (IsRefresh(out.issued) ==> waiting)
      && (Load(m, |s.pending|) > 0 && cfg.transQueueDepth >= 1 && cfg.cmdQueueDepth >= 2 && (out.issued.None? || IsRefresh(out.issued)) ==>
            QueueBusy(m'.queue))
  {
    hide Cycle, MemoryController.Update, Lively, QueueBusy, Effort, Load, Horizon, SystemSafety.Sound, SystemSafety.RankAhead;
    SteadyShaped(cfg, s);
    BeginAhead(cfg, s);
    var (m, r) := Begin(cfg, s).value;
    var now := s.controller.clock - 1;
    var pending := |s.pending| - (if Admitted(cfg, s).Some? then 1 else 0);
    UpdateLively(cfg, m, r, now, due);
    UpdateEffort(cfg, m, r, now, pending);
    CycleParts(cfg, s);
    BeginKeepsEffort(cfg, s, m, pending);
    assert m.queue == s.controller.queue && m.refresh == s.controller.refresh && m.powerDown == s.controller.powerDown;
    var (m', r', out) := MemoryController.Update(cfg, m, r).value;
    var m'' := m'.(clock := m'.clock + 1);
    SameEffort(m', m'', pending);
    CycleSteady(cfg, s);
  }

  lemma CycleActivates(cfg: Config, s: System, from: int)
    requires Steady(cfg, s) && ActivateFrom(s.controller.banks, from)
    ensures MemorySystem.Shaped(cfg, s) && Cycle(cfg, s).Ok?
    ensures
      var (s', out) := Cycle(cfg, s).value;
      var m, m' := s.controller, s'.controller;
      HoldsActivates(cfg, m.banks, m.queue, m.queue.refreshWaiting || RefreshSchedule.Due(m.refresh), out.issued, m'.banks,
                     m'.powerDown == m.powerDown, m.clock, from)
  {
    hide Cycle, MemoryController.Update, HoldsActivates, ActivateFrom, RefreshSchedule.Due;
    SteadyShaped(cfg, s);
    BeginAhead(cfg, s);
    var (m, r) := Begin(cfg, s).value;
    UpdateActivates(cfg, m, r, s.controller.clock - 1, from);
    CycleParts(cfg, s);
  }

  lemma BeginKeepsEffort(cfg: Config, s: System, m: ControllerState, pending: nat)
    requires m == s.controller.(finished := m.finished, transactions := m.transactions)
    requires m.transactions == s.controller.transactions + OptionSeq(Admitted(cfg, s))
    requires pending == |s.pending| - (if Admitted(cfg, s).Some? then 1 else 0)
    ensures Effort(m, pending) == Effort(s.controller, |s.pending|) && Load(m, pending) == Load(s.controller, |s.pending|)
    ensures Load(s.controller, |s.pending|) > 0 && cfg.transQueueDepth >= 1 ==> m.transactions != [] || QueueBusy(m.queue)
  {
    NoPackets(m.queue.queues);
  }

  lemma ResetLively(cfg: Config)
    requires cfg.Valid()
    ensures ControllerLively(cfg, Reset(cfg).controller, Horizon(cfg) - 1)
  {
    var m := Reset(cfg).controller;
    forall b | 0 <= b < |m.banks|
      ensures BankDue(cfg, m.banks[b], -1, Horizon(cfg) - 1)
    {
    }
  }

  /** Everything is due within the horizon, in every state of a run. */
  lemma {:induction false} RunLively(cfg: Config, events: seq<Event>)
    requires cfg.Valid()
    ensures Run(cfg, events).Ok?
    ensures
      var t := Run(cfg, events).value;
      ControllerLively(cfg, t.system.controller, |t.trace| - 1 + Horizon(cfg))
  {
    hide Run, Steady, ControllerLively, ActivationWindow.WindowOk, Cycle, MemorySystem.Shaped, Horizon;
    NoFault(cfg, events);
    if events == [] {
      RunOfNothing(cfg);
      ResetLively(cfg);
    } else {
      var before := events[..|events| - 1];
      RunLively(cfg, before);
      NoFault(cfg, before);
      WindowInRun(cfg, before);
      var t := Run(cfg, before).value;
      match events[|events| - 1]
      case Arrive(tr) =>
        RunArrives(cfg, events, t, tr);
        AddLively(cfg, t.system, tr, |t.trace| - 1 + Horizon(cfg));
      case Tick =>
        TickLively(cfg, t.system);
        RunTicks(cfg, events, t, Cycle(cfg, t.system).value.0, Cycle(cfg, t.system).value.1);
    }
  }

  lemma WindowInRun(cfg: Config, events: seq<Event>)
    requires cfg.Valid()
    ensures Run(cfg, events).Ok?
    ensures ActivationWindow.WindowOk(cfg, Run(cfg, events).value.system.controller.queue.window)
  {
    hide Run;
    RunWindow(cfg, events);
  }

  lemma RunOfNothing(cfg: Config)
    ensures Run(cfg, []) == Ok(Trail(Reset(cfg), [], [], [], []))
  {
  }

  lemma TickLively(cfg: Config, s: System)
    requires cfg.Valid() && Steady(cfg, s)
    requires ControllerLively(cfg, s.controller, s.controller.clock - 1 + Horizon(cfg))
    requires ActivationWindow.WindowOk(cfg, s.controller.queue.window)
    ensures MemorySystem.Shaped(cfg, s) && Cycle(cfg, s).Ok?
    ensures ControllerLively(cfg, Cycle(cfg, s).value.0.controller, s.controller.clock + Horizon(cfg))
  {
    hide Steady, ControllerLively, Cycle, MemorySystem.Shaped, QueueBusy, Effort, Load, ActivationWindow.WindowOk;
    var due := s.controller.clock - 1 + Horizon(cfg);
    CycleProgress(cfg, s, due);
    var (s', out) := Cycle(cfg, s).value;
    if out.issued.Some? {
      DelayWithinHorizon(cfg, out.issued.value.kind);
    }
    LaterLively(cfg, s'.controller,
                if s'.controller.powerDown == s.controller.powerDown then SentDue(cfg, out.issued, due, s.controller.clock) else due + 1,
                due + 1);
  }

  lemma AddLively(cfg: Config, s: System, tr: Transaction, due: int)
    requires ControllerLively(cfg, s.controller, due)
    ensures ControllerLively(cfg, Add(cfg, s, tr).controller, due)
  {
    hide Lively;
  }

  lemma LaterLively(cfg: Config, m: ControllerState, due: int, later: int)
    requires ControllerLively(cfg, m, due) && due <= later
    ensures ControllerLively(cfg, m, later)
  {
    hide Attended, AllDue, WindowDue;
    LaterDue(cfg, m.banks, m.queue.window, m.clock - 1, m.clock - 1, due, later);
  }

  lemma InRunLively(cfg: Config, t: Trail)
    requires Roomy(cfg) && InRun(cfg, t)
    ensures ControllerLively(cfg, t.system.controller, |t.trace| - 1 + Horizon(cfg))
    ensures ActivationWindow.WindowOk(cfg, t.system.controller.queue.window)
    ensures Steady(cfg, t.system) && t.system.controller.clock == |t.trace|
    ensures RefreshShaped(t.system.controller.refresh)
    ensures RefreshSchedule.Due(t.system.controller.refresh) <==> Multiple(cfg.refreshCycles, |t.trace|)
  {
    hide Run, ControllerLively, Steady, ActivationWindow.WindowOk;
    var events :| Run(cfg, events) == Ok(t);
    RunLively(cfg, events);
    WindowInRun(cfg, events);
    RunRefresh(cfg, events);
    NoFault(cfg, events);
  }

  // ---- Ticks without arrivals ----

  /** A run continued by n ticks. */
  function After(cfg: Config, t: Trail, n: nat): Result<Trail> {
    if n == 0 then Ok(t)
    else
      var u :- After(cfg, t, n - 1);
      Advance(cfg, u, Event.Tick)
  }

  /** The run has got from t to t' by ticks alone. */
  ghost predicate Reaches(cfg: Config, t: Trail, t': Trail) {
    |t.trace| <= |t'.trace| && After(cfg, t, |t'.trace| - |t.trace|) == Ok(t')
  }

  lemma {:induction false} AfterMore(cfg: Config, t: Trail, u: Trail, a: nat, b: nat)
    requires After(cfg, t, a) == Ok(u)
    ensures After(cfg, t, a + b) == After(cfg, u, b)
  {
    hide Advance;
    if b > 0 {
      AfterMore(cfg, t, u, a, b - 1);
    }
  }

  lemma ReachesFurther(cfg: Config, t: Trail, u: Trail, t': Trail)
    requires Reaches(cfg, t, u) && Reaches(cfg, u, t')
    ensures Reaches(cfg, t, t')
  {
    hide After;
    AfterMore(cfg, t, u, |u.trace| - |t.trace|, |t'.trace| - |u.trace|);
  }

  lemma TickReaches(cfg: Config, t: Trail, t': Trail)
    requires Advance(cfg, t, Event.Tick) == Ok(t') && |t'.trace| == |t.trace| + 1
    ensures Reaches(cfg, t, t')
  {
    hide Advance;
    assert After(cfg, t, 0) == Ok(t);
  }

  lemma StaysReached(cfg: Config, t: Trail)
    ensures Reaches(cfg, t, t)
  {
  }

  // ---- The next command ----

  /** A refresh is asked for in the cycles that are multiples of the period. */
  predicate Multiple(period: nat, n: nat)
    requires period >= 1
  {
    n >= period && (n - period) % period == 0
  }

  lemma MultiplesApart(period: nat, y: nat, z: nat)
    requires period >= 1 && Multiple(period, y) && Multiple(period, z) && y < z
    ensures z >= y + period
  {
    var i, j := (y - period) / period, (z - period) / period;
    assert y - period == period * i && z - period == period * j;
    Times(period, j, i);
    Times(period, i + 1, j);
    assert period * (i + 1) == period * i + period;
  }

  lemma Times(p: nat, a: int, b: int)
    ensures a <= b ==> p * a <= p * b
  {
  }

  ghost predicate AskedBetween(cfg: Config, from: nat, to: nat)
    requires cfg.Valid()
  {
    exists y: nat :: from <= y < to && Multiple(cfg.refreshCycles, y)
  }

  /** One tick of a run. */
  lemma TickForward(cfg: Config, t: Trail, due: int) returns (t': Trail, sent: Option<Packet>)
    requires Roomy(cfg) && InRun(cfg, t) && ControllerLively(cfg, t.system.controller, due)
    ensures InRun(cfg, t') && t'.trace == t.trace + [sent] && Advance(cfg, t, Event.Tick) == Ok(t') && Reaches(cfg, t, t')
    ensures t'.system.controller.powerDown == t.system.controller.powerDown ==>
      ControllerLively(cfg, t'.system.controller, SentDue(cfg, sent, due, |t.trace|))
    ensures due <= |t.trace| && !t.system.controller.powerDown && QueueBusy(t.system.controller.queue) ==> sent.Some?
    ensures QueueBusy(t'.system.controller.queue) && (due <= |t.trace| || !t.system.controller.powerDown) ==>
      !t'.system.controller.powerDown
    ensures t.system.controller.powerDown ==> sent.None?
    ensures WorkLeft(t') <= WorkLeft(t) && (sent.Some? && !IsRefresh(sent) ==> WorkLeft(t') < WorkLeft(t))
    ensures
      var waiting := t.system.controller.queue.refreshWaiting || Multiple(cfg.refreshCycles, |t.trace|);
      t'.system.controller.queue.refreshWaiting == (waiting && !IsRefresh(sent)) && (IsRefresh(sent) ==> waiting)
    ensures Left(t) > 0 && (sent.None? || IsRefresh(sent)) ==> QueueBusy(t'.system.controller.queue)
    ensures Left(t') <= Left(t) && (sent.Some? && sent.value.kind.IsColumn() ==> Left(t') < Left(t))
    ensures MemorySystem.Shaped(cfg, t.system) && Cycle(cfg, t.system).Ok? && Cycle(cfg, t.system).value.0 == t'.system
    ensures Cycle(cfg, t.system).value.1.issued == sent
  {
    hide InRun, Steady, Cycle, ControllerLively, MemorySystem.Shaped, QueueBusy, Effort, Load, ActivationWindow.WindowOk, Multiple,
      Advance, Reaches, SentDue;
    InRunLively(cfg, t);
    CycleProgress(cfg, t.system, due);
    var out;
    t', out := TickInRun(cfg, t);
    sent := out.issued;
    TickReaches(cfg, t, t');
  }

  /** No refresh is sent before a bank can be activated, and one holds up all banks for tRFC. */
  lemma TickHolds(cfg: Config, t: Trail, t': Trail, sent: Option<Packet>, from: int)
    requires Roomy(cfg) && InRun(cfg, t) && ActivateFrom(t.system.controller.banks, from)
    requires MemorySystem.Shaped(cfg, t.system) && Cycle(cfg, t.system).Ok? && Cycle(cfg, t.system).value.0 == t'.system
    requires Cycle(cfg, t.system).value.1.issued == sent
    ensures IsRefresh(sent) ==> from <= |t.trace|
    ensures t'.system.controller.powerDown == t.system.controller.powerDown ==>
      ActivateFrom(t'.system.controller.banks, if IsRefresh(sent) then |t.trace| + cfg.tRFC else from)
  {
    hide InRun, Steady, Cycle;
    RunIsSteady(cfg, t);
    CycleActivates(cfg, t.system, from);
    BanksThere(cfg, t.system);
    assert IsRefresh(sent) ==> t.system.controller.banks[0].nextActivate <= |t.trace|;
  }

  lemma BanksThere(cfg: Config, s: System)
    requires Steady(cfg, s)
    ensures |s.controller.banks| > 0
  {
  }

  /** A controller with packets to send wakes up within the horizon. */
  lemma {:induction false} NextAwake(cfg: Config, t: Trail, due: int) returns (t': Trail)
    requires Roomy(cfg) && InRun(cfg, t) && ControllerLively(cfg, t.system.controller, due)
    requires QueueBusy(t.system.controller.queue)
    ensures InRun(cfg, t') && Reaches(cfg, t, t') && |t.trace| <= |t'.trace| <= Max(due, |t.trace|) + 1
    ensures WorkLeft(t') <= WorkLeft(t)
    ensures WorkLeft(t') < WorkLeft(t) || (QueueBusy(t'.system.controller.queue) && !t'.system.controller.powerDown)
    decreases Max(due, |t.trace|) - |t.trace|
  {
    hide InRun, ControllerLively, QueueBusy, WorkLeft, Multiple, Left, Reaches, Cycle, MemorySystem.Shaped;
    BusyHasWork(t);
    if !t.system.controller.powerDown {
      StaysReached(cfg, t);
      return t;
    }
    var u, sent := TickForward(cfg, t, due);
    t' := u;
    if u.system.controller.powerDown {
      t' := NextAwake(cfg, u, due);
      ReachesFurther(cfg, t, u, t');
    }
  }

  /**
   * A queue with packets gets an awake controller to send a command: no refresh before the banks can be activated, and
   * none if none is asked for in the meantime.
   */
  lemma {:induction false} NextCommand(cfg: Config, t: Trail, due: int, from: int) returns (t': Trail, sent: Option<Packet>)
    requires Roomy(cfg) && InRun(cfg, t) && ControllerLively(cfg, t.system.controller, due)
    requires QueueBusy(t.system.controller.queue) && !t.system.controller.powerDown
    requires ActivateFrom(t.system.controller.banks, from)
    ensures InRun(cfg, t') && Reaches(cfg, t, t') && |t.trace| < |t'.trace| <= Max(due, |t.trace|) + 1
    ensures sent.Some? && WorkLeft(t') <= WorkLeft(t) && (!IsRefresh(sent) ==> WorkLeft(t') < WorkLeft(t))
    ensures IsRefresh(sent) ==> from < |t'.trace| && Refreshed(cfg, t', due)
    ensures IsRefresh(sent) ==>
      t.system.controller.queue.refreshWaiting || AskedBetween(cfg, |t.trace|, |t'.trace|)
    decreases Max(due, |t.trace|) - |t.trace|
  {
    hide InRun, ControllerLively, QueueBusy, WorkLeft, Multiple, Left, Reaches, Cycle, MemorySystem.Shaped, ActivateFrom;
    BusyHasWork(t);
    t', sent := TickForward(cfg, t, due);
    TickHolds(cfg, t, t', sent, from);
    if sent.None? {
      var u, n, waiting := t', |t.trace|, t'.system.controller.queue.refreshWaiting;
      t', sent := NextCommand(cfg, u, due, from);
      ReachesFurther(cfg, t, u, t');
      assert IsRefresh(sent) && waiting && !t.system.controller.queue.refreshWaiting ==> Multiple(cfg.refreshCycles, n);
    }
  }

  /** The state after a cycle in which a busy controller has sent a refresh, when it had something to wait for until due. */
  ghost predicate Refreshed(cfg: Config, t: Trail, due: int) {
    var m, x := t.system.controller, |t.trace| - 1;
    && QueueBusy(m.queue) && !m.powerDown && !m.queue.refreshWaiting
    && ActivateFrom(m.banks, x + cfg.tRFC) && ControllerLively(cfg, m, Max(due, x + cfg.tRFC))
  }

  lemma BusyHasWork(t: Trail)
    ensures QueueBusy(t.system.controller.queue) ==> Left(t) > 0
  {
    NoPackets(t.system.controller.queue.queues);
  }

  /** With work left, the controller wakes up if it sleeps and does some of it in bounded time. */
  lemma NextProgress(cfg: Config, t: Trail) returns (t': Trail)
    requires Progressive(cfg) && InRun(cfg, t) && Left(t) > 0
    ensures InRun(cfg, t') && Reaches(cfg, t, t') && |t'.trace| <= |t.trace| + Response(cfg)
    ensures WorkLeft(t') < WorkLeft(t)
  {
    hide InRun, ControllerLively, QueueBusy, WorkLeft, Left, Reaches, Cycle, MemorySystem.Shaped;
    var sent, u;
    InRunLively(cfg, t);
    SquareIsNat(cfg);
    u, sent := TickForward(cfg, t, |t.trace| - 1 + Horizon(cfg));
    if sent.Some? && !IsRefresh(sent) {
      return u;
    }
    t' := BusyProgress(cfg, u);
    ReachesFurther(cfg, t, u, t');
  }

  /** The cycles in which some work is done. */
  function Response(cfg: Config): int {
    1 + Horizon(cfg) + AwakeResponse(cfg)
  }

  /** The same for an awake controller: until its times have come, and through the refreshes that can follow one another. */
  function AwakeResponse(cfg: Config): int {
    Horizon(cfg) + 2 * cfg.tRFC + cfg.tRFC * cfg.tRFC
  }

  lemma SquareIsNat(cfg: Config)
    requires cfg.Valid()
    ensures cfg.tRFC * cfg.tRFC >= 0 && Horizon(cfg) >= 1
  {
  }

  lemma BusyProgress(cfg: Config, t: Trail) returns (t': Trail)
    requires Progressive(cfg) && InRun(cfg, t) && QueueBusy(t.system.controller.queue)
    ensures InRun(cfg, t') && Reaches(cfg, t, t') && |t'.trace| <= |t.trace| + Horizon(cfg) + AwakeResponse(cfg)
    ensures WorkLeft(t') < WorkLeft(t)
  {
    hide InRun, ControllerLively, QueueBusy, WorkLeft, AskedBetween, Reaches;
    InRunLively(cfg, t);
    SquareIsNat(cfg);
    var u := NextAwake(cfg, t, |t.trace| - 1 + Horizon(cfg));
    if WorkLeft(u) < WorkLeft(t) {
      return u;
    }
    t' := AwakeProgress(cfg, u);
    ReachesFurther(cfg, t, u, t');
  }

  /** An awake controller with packets to send does some work: refreshes alone cannot hold it up for ever. */
  lemma AwakeProgress(cfg: Config, t: Trail) returns (t': Trail)
    requires Progressive(cfg) && InRun(cfg, t) && QueueBusy(t.system.controller.queue) && !t.system.controller.powerDown
    ensures InRun(cfg, t') && Reaches(cfg, t, t') && |t'.trace| <= |t.trace| + AwakeResponse(cfg)
    ensures WorkLeft(t') < WorkLeft(t)
  {
    hide InRun, ControllerLively, QueueBusy, WorkLeft, Reaches;
    InRunLively(cfg, t);
    SquareIsNat(cfg);
    var due := |t.trace| - 1 + Horizon(cfg);
    LaterLively(cfg, t.system.controller, due, Max(due, |t.trace| - 1 + cfg.tRFC));
    t' := UntilSettled(cfg, t, due);
  }

  /** Sooner or later only refreshes are left to wait for. */
  lemma {:induction false} UntilSettled(cfg: Config, t: Trail, due: int) returns (t': Trail)
    requires Progressive(cfg) && InRun(cfg, t) && QueueBusy(t.system.controller.queue) && !t.system.controller.powerDown
    requires |t.trace| <= due + 1 && ControllerLively(cfg, t.system.controller, Max(due, |t.trace| - 1 + cfg.tRFC))
    ensures InRun(cfg, t') && Reaches(cfg, t, t') && |t'.trace| <= due + 1 + 2 * cfg.tRFC + cfg.tRFC * cfg.tRFC
    ensures WorkLeft(t') < WorkLeft(t)
    decreases due + 1 - |t.trace|
  {
    hide InRun, ControllerLively, QueueBusy, WorkLeft, AskedBetween, Reaches;
    SquareIsNat(cfg);
    var from := LeastActivate(t.system.controller.banks);
    var u, sent := NextCommand(cfg, t, Max(due, |t.trace| - 1 + cfg.tRFC), from);
    t' := u;
    if IsRefresh(sent) {
      var x := |u.trace| - 1;
      if x < due {
        t' := UntilSettled(cfg, u, due);
      } else {
        FirstRounds(cfg);
        t' := RefreshRounds(cfg, u, x + 1);
      }
      ReachesFurther(cfg, t, u, t');
    }
  }

  lemma {:induction false} LeastActivate(banks: seq<BankState>) returns (from: int)
    ensures ActivateFrom(banks, from)
  {
    from := 0;
    if banks != [] {
      from := LeastActivate(banks[..|banks| - 1]);
      from := Min(from, banks[|banks| - 1].nextActivate);
    }
  }

  /**
   * A refresh of cycle x has been sent and nothing else is waited for; the next one is asked for in cycle asked at the
   * earliest. Either an ACTIVATE goes out before that, or the next refresh exactly tRFC after this one, and then the time
   * to the one after that has grown by what the period has over tRFC.
   */
  lemma {:induction false} RefreshRounds(cfg: Config, t: Trail, asked: nat) returns (t': Trail)
    requires Progressive(cfg) && InRun(cfg, t) && |t.trace| >= 1 && Refreshed(cfg, t, |t.trace| - 1)
    requires forall y: nat :: |t.trace| <= y < asked ==> !Multiple(cfg.refreshCycles, y)
    ensures InRun(cfg, t') && Reaches(cfg, t, t')
    ensures |t'.trace| <= |t.trace| + Rounds(cfg, |t.trace| - 1 + cfg.tRFC - asked)
    ensures WorkLeft(t') < WorkLeft(t)
    decreases Max(|t.trace| - 1 + cfg.tRFC - asked, -1)
  {
    hide InRun, ControllerLively, QueueBusy, WorkLeft, Reaches, Multiple, ActivateFrom, Rounds;
    var x := |t.trace| - 1;
    var slack := x + cfg.tRFC - asked;
    FewerRounds(cfg, slack);
    var u, sent := NextCommand(cfg, t, x + cfg.tRFC, x + cfg.tRFC);
    t' := u;
    if IsRefresh(sent) {
      var y: nat :| |t.trace| <= y < |u.trace| && Multiple(cfg.refreshCycles, y);
      forall z: nat | |u.trace| <= z < y + cfg.refreshCycles
        ensures !Multiple(cfg.refreshCycles, z)
      {
        NoMultipleWithin(cfg.refreshCycles, y, z);
      }
      t' := RefreshRounds(cfg, u, y + cfg.refreshCycles);
      ReachesFurther(cfg, t, u, t');
      RoundsGrow(cfg, x + 2 * cfg.tRFC - y - cfg.refreshCycles, slack - 1);
    }
  }

  /** The cycles in which as many refreshes can follow one another. */
  function Rounds(cfg: Config, slack: int): int {
    cfg.tRFC * (Max(slack, -1) + 2)
  }

  lemma RoundsGrow(cfg: Config, a: int, b: int)
    ensures a <= b ==> Rounds(cfg, a) <= Rounds(cfg, b)
  {
    Times(cfg.tRFC, Max(a, -1) + 2, Max(b, -1) + 2);
  }

  lemma FewerRounds(cfg: Config, slack: int)
    ensures Rounds(cfg, slack) >= cfg.tRFC
    ensures slack >= 0 ==> Rounds(cfg, slack) == cfg.tRFC + Rounds(cfg, slack - 1)
  {
    Times(cfg.tRFC, 1, Max(slack, -1) + 2);
  }

  lemma FirstRounds(cfg: Config)
    requires cfg.tRFC >= 1
    ensures Rounds(cfg, cfg.tRFC - 1) == cfg.tRFC * cfg.tRFC + cfg.tRFC
  {
  }

  lemma NoMultipleWithin(period: nat, y: nat, z: nat)
    requires period >= 1 && Multiple(period, y) && y < z < y + period
    ensures !Multiple(period, z)
  {
    if Multiple(period, z) {
      MultiplesApart(period, y, z);
      assert false;
    }
  }

  // ---- Until nothing is left ----

  /** Everything that has arrived is sent within a bounded number of cycles after the last arrival. */
  lemma {:induction false} Drains(cfg: Config, t: Trail) returns (t': Trail)
    requires Progressive(cfg) && InRun(cfg, t)
    ensures InRun(cfg, t') && Reaches(cfg, t, t') && Left(t') == 0
    ensures |t'.trace| <= |t.trace| + WorkLeft(t) * Response(cfg)
    decreases WorkLeft(t)
  {
    hide InRun, WorkLeft, Left, Reaches;
    if Left(t) == 0 {
      NoLess(0, WorkLeft(t), Response(cfg));
      StaysReached(cfg, t);
      return t;
    }
    var next := NextProgress(cfg, t);
    t' := Drains(cfg, next);
    ReachesFurther(cfg, t, next, t');
    NoLess(WorkLeft(next), WorkLeft(t) - 1, Response(cfg));
  }

  lemma NoLess(a: int, b: int, k: int)
    requires a <= b && k >= 0
    ensures a * k <= b * k && (b + 1) * k == b * k + k
  {
  }
}
