/** Timing over whole runs: command spacing, the four-activate window, the data bus and the refresh schedule. */
module RunTiming {
  import opened DramTypes
  import opened Wrappers
  import opened MemoryController
  import opened MemorySystem
  import opened CommandSpacing
  import opened TableRefinement
  import opened ActivationWindow
  import opened SystemSafety
  import opened TransactionFlow
  import opened Runs
  import RefreshSchedule

  /** The bank a ready column command names is live; the one a ready ACTIVATE names is at rest. */
  lemma ReadyBank(cfg: Config, m: ControllerState, r: RankState, p: Packet, now: int)
    requires cfg.Valid() && Linked(cfg, m, r, now, now + 1) && m.cmdBus.None? && Ready(cfg, m.banks, p, now)
    ensures p.kind.IsColumn() || p.kind.PRECHARGE? ==> Live(m.banks[p.bank])
    ensures p.kind.ACTIVATE? ==> m.banks[p.bank].state.Idle? && m.banks[p.bank].countdown == 0
  {
    assert Rel(cfg, m.banks[p.bank], Expected(cfg, m, r, p.bank, now + 1), now);
  }

  /** With power management off the rest of an update leaves the table alone. */
  lemma QuietTail(cfg: Config, m6: ControllerState, m7: ControllerState, r5: RankState, m8: ControllerState, r8: RankState)
    requires Split(cfg, m6) == Ok(m7) && |m7.banks| > 0 && ManagePower(cfg, m7, r5) == Ok((m8, r8)) && ReturnRead(m8).Ok?
    ensures m7.queue.window == m6.queue.window
    ensures !cfg.useLowPower ==> m8.banks == m6.banks
    ensures ReturnRead(m8).value.0.banks == m8.banks && ReturnRead(m8).value.0.queue == m7.queue
  {
  }

  /** The cycles in which a trace sends an ACTIVATE, in order. */
  function ActivationTimes(trace: seq<Option<Packet>>): seq<int> {
    if trace == [] then []
    else Activations(ActivationTimes(trace[..|trace| - 1]), trace[|trace| - 1], |trace| - 1)
  }

  lemma UpdateWindow(cfg: Config, m: ControllerState, r: RankState, now: int, acts: seq<int>)
    requires RankAhead(cfg, m, r, now - 1) && m.clock == now && r.clock == now && m.queue.clock == now
    requires WindowOk(cfg, m.queue.window) && FourPerWindow(cfg, acts) && WindowTells(cfg, m.queue.window, acts, now - 1)
    ensures MemoryController.Update(cfg, m, r).Ok?
    ensures
      var (m', _, out) := MemoryController.Update(cfg, m, r).value;
      var acts' := Activations(acts, out.issued, now);
      WindowOk(cfg, m'.queue.window) && FourPerWindow(cfg, acts') && WindowTells(cfg, m'.queue.window, acts', now)
  {
    var m4, m5, r5, m6, m7, m8, r8 := UpdatePhases(cfg, m, r, now - 1);
    PopKeepsWindow(cfg, m5.banks, m5.queue, acts);
    IssueEffect(cfg, m5, m6);
    QuietTail(cfg, m6, m7, r5, m8, r8);
  }

  lemma CycleWindow(cfg: Config, s: System, acts: seq<int>)
    requires Steady(cfg, s)
    requires WindowOk(cfg, s.controller.queue.window) && FourPerWindow(cfg, acts)
    requires WindowTells(cfg, s.controller.queue.window, acts, s.controller.clock - 1)
    ensures Shaped(cfg, s) && Cycle(cfg, s).Ok?
    ensures
      var (s', out) := Cycle(cfg, s).value;
      var acts' := Activations(acts, out.issued, s.controller.clock);
      && WindowOk(cfg, s'.controller.queue.window) && FourPerWindow(cfg, acts')
      && WindowTells(cfg, s'.controller.queue.window, acts', s.controller.clock)
  {
    SteadyShaped(cfg, s);
    BeginAhead(cfg, s);
    var (m, r) := Begin(cfg, s).value;
    UpdateWindow(cfg, m, r, s.controller.clock, acts);
    CycleParts(cfg, s);
  }

  /** In every run the fifth of five consecutive ACTIVATEs comes at least tFAW cycles after the first. */
  lemma {:induction false} RunWindow(cfg: Config, events: seq<Event>)
    requires cfg.Valid()
    ensures Run(cfg, events).Ok?
    ensures
      var t := Run(cfg, events).value;
      && FourPerWindow(cfg, ActivationTimes(t.trace))
      && WindowOk(cfg, t.system.controller.queue.window)
      && WindowTells(cfg, t.system.controller.queue.window, ActivationTimes(t.trace), t.system.controller.clock - 1)
  {
    hide Cycle, Shaped;
    if events != [] {
      var before := events[..|events| - 1];
      RunWindow(cfg, before);
      NoFault(cfg, before);
      var t := Run(cfg, before).value;
      match events[|events| - 1]
      case Arrive(tr) => RunArrives(cfg, events, t, tr);
      case Tick =>
        CycleWindow(cfg, t.system, ActivationTimes(t.trace));
        CycleSteady(cfg, t.system);
        var (s', out) := Cycle(cfg, t.system).value;
        RunTicks(cfg, events, t, s', out);
        assert (t.trace + [out.issued])[..|t.trace|] == t.trace;
    }
  }

  lemma UpdateRefresh(cfg: Config, m: ControllerState, r: RankState, now: int)
    requires RankAhead(cfg, m, r, now - 1) && m.clock == now && r.clock == now && m.queue.clock == now
    ensures MemoryController.Update(cfg, m, r).Ok?
    ensures MemoryController.Update(cfg, m, r).value.0.refresh == RefreshSchedule.Tick(m.refresh, cfg.refreshCycles)
  {
    var m4, m5, r5, m6, m7, m8, r8 := UpdatePhases(cfg, m, r, now - 1);
  }

  lemma CycleRefresh(cfg: Config, s: System)
    requires Steady(cfg, s)
    ensures Shaped(cfg, s) && Cycle(cfg, s).Ok?
    ensures Cycle(cfg, s).value.0.controller.refresh == RefreshSchedule.Tick(s.controller.refresh, cfg.refreshCycles)
  {
    SteadyShaped(cfg, s);
    BeginAhead(cfg, s);
    var (m, r) := Begin(cfg, s).value;
    UpdateRefresh(cfg, m, r, s.controller.clock);
    CycleParts(cfg, s);
  }

  lemma {:induction false} RunCountdown(cfg: Config, events: seq<Event>)
    requires cfg.Valid()
    ensures Run(cfg, events).Ok?
    ensures
      var t := Run(cfg, events).value;
      t.system.controller.refresh == RefreshSchedule.Before(1, cfg.refreshCycles, |t.trace|)
  {
    if events != [] {
      var before := events[..|events| - 1];
      RunCountdown(cfg, before);
      NoFault(cfg, before);
      var t := Run(cfg, before).value;
      match events[|events| - 1]
      case Arrive(tr) => RunArrives(cfg, events, t, tr);
      case Tick =>
        CycleRefresh(cfg, t.system);
        var (s', out) := Cycle(cfg, t.system).value;
        RunTicks(cfg, events, t, s', out);
        assert |t.trace + [out.issued]| - 1 == |t.trace|;
    }
  }

  /** What the counter state of a cycle means: a refresh is asked for at every positive multiple of the period. */
  predicate OnSchedule(period: nat, s: RefreshSchedule.RefreshState, n: nat)
    requires period >= 1
  {
    && RefreshShaped(s)
    && (RefreshSchedule.Due(s) <==> n >= period && (n - period) % period == 0)
  }

  lemma ScheduleHolds(period: nat, n: nat)
    requires period >= 1
    ensures OnSchedule(period, RefreshSchedule.Before(1, period, n), n)
  {
    RefreshSchedule.SingleRank(period, n);
  }

  /**
   * The cycle after any run asks for a refresh exactly when a positive multiple of the period has passed, and its
   * counter is positive when it comes to be decremented.
   */
  lemma RunRefresh(cfg: Config, events: seq<Event>)
    requires cfg.Valid()
    ensures Run(cfg, events).Ok?
    ensures
      var t := Run(cfg, events).value;
      && OnSchedule(cfg.refreshCycles, t.system.controller.refresh, |t.trace|)
      && RefreshSchedule.NoWrap(1, cfg.refreshCycles, |t.trace|)
      && RefreshSchedule.Requested(t.system.controller.refresh, cfg.refreshCycles).countdown[0] > 0
  {
    hide Run, OnSchedule;
    RunCountdown(cfg, events);
    var n := |Run(cfg, events).value.trace|;
    ScheduleHolds(cfg.refreshCycles, n);
    RefreshSchedule.NeverWraps(1, cfg.refreshCycles);
    assert RefreshSchedule.NoWrap(1, cfg.refreshCycles, n);
  }
}
