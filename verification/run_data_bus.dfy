/** The data bus over whole runs: controller and rank never drive it in the same cycle. */
module RunDataBus {
  import opened DramTypes
  import opened MemoryController
  import opened MemorySystem
  import opened SystemSafety
  import opened TransactionFlow
  import opened DataBus
  import opened Runs
  import CommandQueue
  import RunTiming

  /** Serving the buses brings both sides to the end of the new cycle without an overlap. */
  lemma BusesApart(cfg: Config, m: ControllerState, r: RankState, now: int)
    requires RankAhead(cfg, m, r, now) && r.clock == now + 1 && Apart(cfg, View(m, r, now, now + 1, now + 1, now, now + 1))
    ensures ServeBuses(cfg, m, r).Ok?
    ensures
      var (m', r', _) := ServeBuses(cfg, m, r).value;
      Apart(cfg, View(m', r', now + 1, now + 1, now + 2, now + 1, now + 1))
  {
    hide Apart, AgeBanks, DeliverCommand, DeliverData, SendWriteData, Sound;
    var v0 := View(m, r, now, now + 1, now + 1, now, now + 1);
    AgedTableApart(cfg, v0, now);
    var m1 := m.(banks := AgeBanks(cfg, m.banks));
    CommandArrives(cfg, m, r, now);
    DeliveryApart(cfg, v0.(m := m1, base := now + 1));
    var (m2, r2) := DeliverCommand(cfg, m1, r).value;
    WritesCatchUp(cfg, m2, r2, now + 1);
    WritesAgeApart(cfg, View(m2, r2, now, now + 1, now + 2, now + 1, now + 1));
  }

  lemma IssuedApart(cfg: Config, m: ControllerState, m': ControllerState, r: RankState, now: int)
    requires Sound(cfg, m, r, now, now + 1) && BusHandedOver(cfg) && m.cmdBus.None? && m.clock == now && m.queue.clock == now
    requires Apart(cfg, View(m, r, now, now, now + 1, now, now)) && Issue(cfg, m) == Ok(m')
    ensures Apart(cfg, View(m', r, now, now, now + 1, now, now + 1))
  {
    hide Apart, Issue, CommandQueue.Pop;
    var v := View(m, r, now, now, now + 1, now, now);
    IssueEffect(cfg, m, m');
    if m'.cmdBus.Some? {
      SentIsReady(cfg, m.banks, m.queue);
      RunTiming.ReadyBank(cfg, m, r, m'.cmdBus.value, now);
      IssueApart(cfg, v, m', m'.cmdBus.value);
    } else {
      TailApart(cfg, v, m', r, v.next + 1);
    }
  }

  /** What the end of an update does not touch. */
  lemma TailApart(cfg: Config, v: View, m': ControllerState, r': RankState, next: int)
    requires Apart(cfg, v) && next >= v.next
    requires m'.writeCountdown == v.m.writeCountdown && m'.dataBus == v.m.dataBus && m'.dataCyclesLeft == v.m.dataCyclesLeft
    requires m'.cmdBus == v.m.cmdBus && SameSteps(v.m.banks, m'.banks)
    requires r'.readCountdown == v.r.readCountdown && r'.outgoing == v.r.outgoing && r'.dataCyclesLeft == v.r.dataCyclesLeft
    ensures Apart(cfg, v.(m := m', r := r', next := next))
  {
    SubApart(cfg, v.(m := m', r := r', next := next), v);
  }

  /** Up to falling asleep and waking up, the banks have the same steps to go to their next write. */
  predicate SameSteps(banks: seq<BankState>, banks': seq<BankState>) {
    && |banks'| == |banks|
    && forall i :: 0 <= i < |banks| ==>
         && banks'[i].nextWrite == banks[i].nextWrite && banks'[i].countdown == banks[i].countdown
         && (banks'[i].state == banks[i].state || (AtRest(banks[i].state) && AtRest(banks'[i].state)))
  }

  predicate AtRest(s: CurrentBankState) {
    s.Idle? || s.PowerDown?
  }

  lemma PowerKeepsSteps(cfg: Config, m: ControllerState, r: RankState)
    requires |m.banks| > 0 && ManagePower(cfg, m, r).Ok?
    requires forall i :: 0 <= i < |m.banks| ==> (m.powerDown ==> m.banks[i].state.PowerDown?)
    ensures SameSteps(m.banks, ManagePower(cfg, m, r).value.0.banks)
  {
  }

  lemma UpdateApart(cfg: Config, m: ControllerState, r: RankState, now: int)
    requires RankAhead(cfg, m, r, now) && m.clock == now + 1 && r.clock == now + 1 && m.queue.clock == now + 1
    requires BusHandedOver(cfg) && Apart(cfg, View(m, r, now, now + 1, now + 1, now, now + 1))
    ensures MemoryController.Update(cfg, m, r).Ok?
    ensures
      var (m', r', _) := MemoryController.Update(cfg, m, r).value;
      Apart(cfg, View(m', r', now + 1, now + 1, now + 2, now + 1, now + 2))
  {
    hide MemoryController.Update, ServeBuses, AgeBanks, Issue, Split, ManagePower, ReturnRead, Apart;
    var m4, m5, r5, m6, m7, m8, r8 := UpdatePhases(cfg, m, r, now);
    BusesApart(cfg, m, r, now);
    var r4 := ServeBuses(cfg, m, r).value.1;
    TailApart(cfg, View(m4, r4, now + 1, now + 1, now + 2, now + 1, now + 1), m5, r5, now + 1);
    IssuedApart(cfg, m5, m6, r5, now + 1);
    SplitEffect(cfg, m6, m7);
    PowerEffect(cfg, m7, r5);
    PowerKeepsSteps(cfg, m7, r5);
    ReturnEffect(m8);
    var v := View(m6, r5, now + 1, now + 1, now + 2, now + 1, now + 2);
    TailApart(cfg, v, m8, r8, v.next);
    var (m', r', _) := MemoryController.Update(cfg, m, r).value;
    TailApart(cfg, v.(m := m8, r := r8), m', r', v.next);
  }

  function Between(s: System): View {
    var now := s.controller.clock - 1;
    View(s.controller, s.rank, now, now, now + 1, now, now + 1)
  }

  /** Between two events, with clock - 1 the last cycle that is over. */
  ghost predicate BusesShared(cfg: Config, s: System) {
    Apart(cfg, Between(s))
  }

  lemma BeginApart(cfg: Config, s: System)
    requires Steady(cfg, s) && BusesShared(cfg, s) && Begin(cfg, s).Ok?
    ensures
      var now := s.controller.clock;
      Apart(cfg, View(Begin(cfg, s).value.0, Begin(cfg, s).value.1, now - 1, now, now, now - 1, now))
  {
    hide Apart, Begin;
    RankStartsApart(cfg, Between(s), Begin(cfg, s).value.0);
  }

  lemma CycleApart(cfg: Config, s: System)
    requires Steady(cfg, s) && BusHandedOver(cfg) && BusesShared(cfg, s)
    ensures Shaped(cfg, s) && Cycle(cfg, s).Ok?
    ensures BusesShared(cfg, Cycle(cfg, s).value.0)
  {
    hide Cycle, MemoryController.Update, Apart, Sound, RankAhead;
    var now := s.controller.clock - 1;
    SteadyShaped(cfg, s);
    BeginAhead(cfg, s);
    BeginApart(cfg, s);
    var (m, r) := Begin(cfg, s).value;
    UpdateApart(cfg, m, r, now);
    UpdateSound(cfg, m, r, now);
    CycleParts(cfg, s);
    var (m', r', _) := MemoryController.Update(cfg, m, r).value;
    ClockApart(cfg, m', r', now + 1);
  }

  lemma ClockApart(cfg: Config, m: ControllerState, r: RankState, now: int)
    requires Apart(cfg, View(m, r, now, now, now + 1, now, now + 1))
    ensures Apart(cfg, View(m.(clock := m.clock + 1), r.(clock := r.clock + 1), now, now, now + 1, now, now + 1))
  {
    TailApart(cfg, View(m, r, now, now, now + 1, now, now + 1), m.(clock := m.clock + 1), r.(clock := r.clock + 1), now + 1);
  }

  lemma AddApart(cfg: Config, s: System, t: Transaction)
    requires BusesShared(cfg, s)
    ensures BusesShared(cfg, Add(cfg, s, t))
  {
    hide Apart;
    var s' := Add(cfg, s, t);
    TailApart(cfg, Between(s), s'.controller, s'.rank, s.controller.clock);
  }

  lemma {:induction false} RunApart(cfg: Config, events: seq<Event>)
    requires cfg.Valid() && BusHandedOver(cfg)
    ensures Run(cfg, events).Ok? && BusesShared(cfg, Run(cfg, events).value.system)
  {
    if events != [] {
      var before := events[..|events| - 1];
      RunApart(cfg, before);
      NoFault(cfg, before);
      var t := Run(cfg, before).value;
      match events[|events| - 1]
      case Arrive(tr) =>
        RunArrives(cfg, events, t, tr);
        AddApart(cfg, t.system, tr);
      case Tick =>
        CycleApart(cfg, t.system);
        RunTicks(cfg, events, t, Cycle(cfg, t.system).value.0, Cycle(cfg, t.system).value.1);
    }
  }

  /** In every run a write burst and a read burst are never on the bus at the same time. */
  lemma OneDriver(cfg: Config, events: seq<Event>)
    requires cfg.Valid() && BusHandedOver(cfg)
    ensures Run(cfg, events).Ok?
    ensures
      var s := Run(cfg, events).value.system;
      !(s.controller.dataBus.Some? && s.rank.outgoing.Some?)
  {
    NoFault(cfg, events);
    RunApart(cfg, events);
    var s := Run(cfg, events).value.system;
    NotBoth(cfg, s.controller, s.rank, s.controller.clock - 1);
  }

  lemma NotBoth(cfg: Config, m: ControllerState, r: RankState, now: int)
    requires Sound(cfg, m, r, now, now + 1) && Apart(cfg, View(m, r, now, now, now + 1, now, now + 1))
    ensures !(m.dataBus.Some? && r.outgoing.Some?)
  {
    var x, y := now + m.dataCyclesLeft - cfg.Burst(), now + r.dataCyclesLeft - cfg.Burst();
    assert m.dataBus.Some? ==> WriteStarts(cfg, m, now, x);
    assert r.outgoing.Some? ==> ReadStarts(cfg, m, r, now, now + 1, y);
    assert m.dataBus.Some? && r.outgoing.Some? ==> Disjoint(cfg, x, y);
  }
}
