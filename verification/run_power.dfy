/** The low-power mode over whole runs: when the rank falls asleep, when it wakes up, and what it costs. */
module RunPower {
  import opened DramTypes
  import opened Wrappers
  import opened MemoryController
  import opened MemorySystem
  import opened TransactionFlow
  import opened TableRefinement
  import opened Runs
  import opened RunTiming
  import opened Progress
  import opened RunProgress
  import CommandQueue
  import RefreshSchedule
  import SystemSafety
  import Rank
  import BusTiming
  import ReadConservation
  import opened QueueDiscipline

  // ---- One update ----

  /** The table after ageing and the command of the cycle. */
  function Commanded(cfg: Config, banks: seq<BankState>, sent: Option<Packet>, clock: int): seq<BankState> {
    var aged := AgeBanks(cfg, banks);
    if sent.Some? then TableAfter(cfg, sent.value, aged, clock) else aged
  }

  predicate AllIdle(banks: seq<BankState>) {
    forall b :: 0 <= b < |banks| ==> banks[b].state.Idle?
  }

  /** All banks sleep and may wake up at the given time. */
  predicate Asleep(banks: seq<BankState>, wake: int) {
    forall b :: 0 <= b < |banks| ==> banks[b].state.PowerDown? && banks[b].nextPowerUp == wake
  }

  /** All banks are awake and idle, and may be activated at the given time. */
  predicate Woken(banks: seq<BankState>, activate: int) {
    forall b :: 0 <= b < |banks| ==> banks[b].state.Idle? && banks[b].nextActivate == activate
  }

  /** What a cycle does to the power state of controller and rank, from m and r before it to m' and r' after it. */
  ghost predicate PowerStep(cfg: Config, m: ControllerState, m': ControllerState, r: RankState, r': RankState, sent: Option<Packet>, clock: int)
    requires RefreshShaped(m.refresh)
  {
    var work := QueueBusy(m'.queue) || r'.refreshWaiting;
    && |m.banks| == |m'.banks| == |r.banks| == |r'.banks| > 0 && m.powerDown == r.poweredDown && m'.powerDown == r'.poweredDown
    && (!m.powerDown ==> (m'.powerDown <==> cfg.useLowPower && !work && AllIdle(Commanded(cfg, m.banks, sent, clock))))
    && (m.powerDown ==> sent.None? && (!m'.powerDown <==> cfg.useLowPower && work && clock >= m.banks[0].nextPowerUp))
    && (!m.powerDown && m'.powerDown ==> Asleep(m'.banks, clock + cfg.tCKE) && Asleep(r'.banks, clock + cfg.tCKE))
    && (m.powerDown && !m'.powerDown ==> Woken(m'.banks, clock + cfg.tXP) && Woken(r'.banks, clock + cfg.tXP))
    && (m.powerDown && m'.powerDown ==> forall wake: int :: Asleep(m.banks, wake) && Asleep(r.banks, wake) ==>
          Asleep(m'.banks, wake) && Asleep(r'.banks, wake))
    && (!m.powerDown && !m'.powerDown ==> m'.banks == Commanded(cfg, m.banks, sent, clock))
    && (r'.refreshWaiting <==>
          || (r.refreshWaiting && !IsRefresh(m.cmdBus)) || RefreshSchedule.Due(m.refresh)
          || (m.powerDown && m.refresh.countdown[0] <= cfg.tXP))
  }

  lemma DeliveredWaiting(cfg: Config, m: ControllerState, r: RankState)
    requires DeliverCommand(cfg, m, r).Ok? && (m.cmdBus.Some? ==> m.cmdCyclesLeft == 1)
    ensures
      var r' := DeliverCommand(cfg, m, r).value.1;
      && r'.refreshWaiting == (r.refreshWaiting && !IsRefresh(m.cmdBus)) && r'.poweredDown == r.poweredDown
      && r'.clock == r.clock && (m.cmdBus.None? ==> r'.banks == r.banks)
  {
    hide Rank.Allows, Rank.TableAfter;
  }

  lemma ServedWaiting(cfg: Config, m: ControllerState, r: RankState, now: int)
    requires SystemSafety.RankAhead(cfg, m, r, now) && r.clock == now + 1
    ensures ServeBuses(cfg, m, r).Ok?
    ensures
      var r' := ServeBuses(cfg, m, r).value.1;
      && r'.refreshWaiting == (r.refreshWaiting && !IsRefresh(m.cmdBus)) && r'.poweredDown == r.poweredDown
      && r'.clock == r.clock && (m.cmdBus.None? ==> r'.banks == r.banks)
  {
    hide DeliverCommand, DeliverData, SendWriteData, SystemSafety.Sound;
    SystemSafety.CommandArrives(cfg, m, r, now);
    var m1 := m.(banks := AgeBanks(cfg, m.banks));
    var (m2, r2) := DeliverCommand(cfg, m1, r).value;
    SystemSafety.WritesCatchUp(cfg, m2, r2, now + 1);
    DeliveredWaiting(cfg, m1, r);
  }

  /** The end of an update decides whether the rank sleeps. */
  lemma PowerSwitch(cfg: Config, m: ControllerState, r: RankState, clock: int)
    requires cfg.Valid() && |m.banks| > 0 && ManagePower(cfg, m, r).Ok? && m.clock == clock && r.clock == clock
    requires m.powerDown ==> forall i :: 0 <= i < |m.banks| ==> m.banks[i].state.PowerDown?
    ensures
      var (m', r') := ManagePower(cfg, m, r).value;
      var work := QueueBusy(m.queue) || r.refreshWaiting;
      && |m'.banks| == |m.banks| && |r'.banks| == |r.banks|
      && (!m.powerDown ==> (m'.powerDown <==> cfg.useLowPower && !work && AllIdle(m.banks)))
      && (m.powerDown ==> (!m'.powerDown <==> cfg.useLowPower && work && clock >= m.banks[0].nextPowerUp))
      && (!m.powerDown && m'.powerDown ==> Asleep(m'.banks, clock + cfg.tCKE) && Asleep(r'.banks, clock + cfg.tCKE))
      && (m.powerDown && !m'.powerDown ==> Woken(m'.banks, clock + cfg.tXP) && Woken(r'.banks, clock + cfg.tXP))
      && (m'.powerDown == m.powerDown ==> m'.banks == m.banks && r'.banks == r.banks)
  {
    hide QueueBusy, CommandQueue.IsEmpty, Rank.PowerDownBank, Rank.PowerUpBank;
    BusyIsNotEmpty(m.queue, m.queue);
    assert m.powerDown ==> !m.banks[0].state.Idle?;
    assert AllIdle(m.banks) <==> forall i :: 0 <= i < |m.banks| ==> m.banks[i].state.Idle?;
    BankSwitch(cfg, clock);
  }

  lemma BankSwitch(cfg: Config, clock: int)
    ensures forall b: BankState ::
      && Rank.PowerDownBank(cfg, b, clock).state.PowerDown? && Rank.PowerDownBank(cfg, b, clock).nextPowerUp == clock + cfg.tCKE
      && Rank.PowerUpBank(cfg, b, clock).state.Idle? && Rank.PowerUpBank(cfg, b, clock).nextActivate == clock + cfg.tXP
  {
  }

  /** Nothing is on its way to a sleeping rank, and its banks do not change. */
  lemma SleepersRest(cfg: Config, m: ControllerState, r: RankState, now: int)
    requires SystemSafety.RankAhead(cfg, m, r, now) && m.powerDown
    ensures m.cmdBus.None? && AgeBanks(cfg, m.banks) == m.banks
    ensures forall wake: int :: Asleep(m.banks, wake) ==> Asleep(AgeBanks(cfg, m.banks), wake)
  {
    hide Disciplined, BusTiming.Flow, ReadConservation.Conserved, AgeBank;
    forall b | 0 <= b < |m.banks|
      ensures AgeBank(cfg, m.banks[b]) == m.banks[b]
    {
      assert Rel(cfg, m.banks[b], Expected(cfg, m, r, b, now + 1), now);
      RestedBank(cfg, m.banks[b]);
    }
    if m.cmdBus.Some? {
      var b := m.cmdBus.value.bank;
      assert Rel(cfg, m.banks[b], Expected(cfg, m, r, b, now + 1), now);
      BusWakes(cfg, m, r, now, b);
    }
  }

  lemma RestedBank(cfg: Config, c: BankState)
    requires c.countdown == 0
    ensures AgeBank(cfg, c) == c
  {
  }

  lemma BusWakes(cfg: Config, m: ControllerState, r: RankState, now: int, b: nat)
    requires m.cmdBus.Some? && b == m.cmdBus.value.bank && b < |r.banks| && Welcome(cfg, m, r, now + 1)
    ensures !Expected(cfg, m, r, b, now + 1).state.PowerDown?
  {
  }

  lemma RefreshFlag(cfg: Config, m: ControllerState, r: RankState)
    requires RefreshShaped(m.refresh)
    ensures
      var (m', r') := RequestRefresh(cfg, m, r);
      && m'.banks == m.banks && m'.powerDown == m.powerDown && r'.banks == r.banks && r'.poweredDown == r.poweredDown
      && m'.clock == m.clock && r'.clock == r.clock
      && (r'.refreshWaiting <==> r.refreshWaiting || RefreshSchedule.Due(m.refresh) || (m.powerDown && m.refresh.countdown[0] <= cfg.tXP))
  {
  }

  lemma UpdatePower(cfg: Config, m: ControllerState, r: RankState, now: int)
    requires SystemSafety.RankAhead(cfg, m, r, now) && m.clock == now + 1 && r.clock == now + 1 && m.queue.clock == now + 1
    ensures MemoryController.Update(cfg, m, r).Ok? && RefreshShaped(m.refresh)
    ensures
      var (m', r', out) := MemoryController.Update(cfg, m, r).value;
      PowerStep(cfg, m, m', r, r', out.issued, now + 1)
  {
    hide MemoryController.Update, ServeBuses, Issue, Split, ReturnRead, AgeBanks, SystemSafety.Sound, ManagePower, QueueBusy,
      RequestRefresh, RefreshSchedule.Due, CommandQueue.Pop, TableAfter, Asleep, Woken, AllIdle;
    var m4, m5, r5, m6, m7, m8, r8 := UpdatePhases(cfg, m, r, now);
    RankThere(cfg, m, r, now);
    ServedWaiting(cfg, m, r, now);
    RefreshFlag(cfg, m4, ServeBuses(cfg, m, r).value.1);
    SoundShape(cfg, m5, r5, now + 1);
    SleepIsSilent(cfg, m5, r5, now + 1);
    IssueEffect(cfg, m5, m6);
    SplitEffect(cfg, m6, m7);
    ReturnEffect(m8);
    SystemSafety.PowerEffect(cfg, m7, r5);
    RankAgrees(cfg, m5, r5, now + 1);
    SystemSafety.UpdateSound(cfg, m, r, now);
    RankAgrees(cfg, MemoryController.Update(cfg, m, r).value.0, r8, now + 1);
    PowerSwitch(cfg, m7, r5, now + 1);
    if m.powerDown {
      SleepersRest(cfg, m, r, now);
    }
    BusyIsNotEmpty(m7.queue, m7.queue);
    BusyIsNotEmpty(m7.queue, MemoryController.Update(cfg, m, r).value.0.queue);
  }

  lemma RankAgrees(cfg: Config, m: ControllerState, r: RankState, now: int)
    requires SystemSafety.Sound(cfg, m, r, now, now + 1)
    ensures |m.banks| == |r.banks| == cfg.banks > 0 && m.powerDown == r.poweredDown
  {
  }

  lemma RankThere(cfg: Config, m: ControllerState, r: RankState, now: int)
    requires SystemSafety.RankAhead(cfg, m, r, now)
    ensures |m.banks| == |r.banks| == cfg.banks > 0 && m.powerDown == r.poweredDown && RefreshShaped(m.refresh)
  {
  }

  lemma CyclePower(cfg: Config, s: System)
    requires Steady(cfg, s)
    ensures MemorySystem.Shaped(cfg, s) && Cycle(cfg, s).Ok?
    ensures
      var (s', out) := Cycle(cfg, s).value;
      PowerStep(cfg, s.controller, s'.controller, s.rank, s'.rank, out.issued, s.controller.clock)
  {
    hide Cycle, MemoryController.Update, QueueBusy, RefreshSchedule.Due, TableAfter, Commanded, Asleep, Woken, AllIdle;
    SteadyShaped(cfg, s);
    BeginAhead(cfg, s);
    var (m, r) := Begin(cfg, s).value;
    UpdatePower(cfg, m, r, s.controller.clock - 1);
    CycleParts(cfg, s);
    DataOnly(cfg, s.rank);
  }

  lemma DataOnly(cfg: Config, r: RankState)
    ensures
      var r' := Rank.Update(cfg, r).0;
      r'.banks == r.banks && r'.poweredDown == r.poweredDown && r'.refreshWaiting == r.refreshWaiting
  {
  }

  // ---- Runs ----

  predicate Sleeps(t: Trail) {
    t.system.controller.powerDown
  }

  /** The last cycle of a run in which the rank fell asleep. */
  function LastSleep(cfg: Config, events: seq<Event>): Option<nat> {
    if events == [] then None
    else
      var t, t' := Run(cfg, events[..|events| - 1]), Run(cfg, events);
      if t.Ok? && t'.Ok? && !Sleeps(t.value) && Sleeps(t'.value) then Some(|t.value.trace|)
      else LastSleep(cfg, events[..|events| - 1])
  }

  /** The last cycle of a run in which the rank woke up. */
  function LastWake(cfg: Config, events: seq<Event>): Option<nat> {
    if events == [] then None
    else
      var t, t' := Run(cfg, events[..|events| - 1]), Run(cfg, events);
      if t.Ok? && t'.Ok? && Sleeps(t.value) && !Sleeps(t'.value) then Some(|t.value.trace|)
      else LastWake(cfg, events[..|events| - 1])
  }

  /** A sleeping rank may wake up tCKE after it fell asleep; an awake one may not be activated before tXP have passed since. */
  predicate PowerTimes(cfg: Config, t: Trail, slept: Option<nat>, woke: Option<nat>) {
    var m, r := t.system.controller, t.system.rank;
    if Sleeps(t) then
      slept.Some? && cfg.useLowPower && Asleep(m.banks, slept.value + cfg.tCKE) && Asleep(r.banks, slept.value + cfg.tCKE)
    else
      woke.Some? ==> ActivateFrom(m.banks, woke.value + cfg.tXP)
  }

  lemma {:induction false} RunPowerTimes(cfg: Config, events: seq<Event>)
    requires cfg.Valid()
    ensures Run(cfg, events).Ok? && PowerTimes(cfg, Run(cfg, events).value, LastSleep(cfg, events), LastWake(cfg, events))
  {
    hide Run, Steady, Cycle, MemorySystem.Shaped, PowerTimes;
    NoFault(cfg, events);
    if events == [] {
      RunOfNothing(cfg);
      AwakeAtFirst(cfg);
    } else {
      var before := events[..|events| - 1];
      RunPowerTimes(cfg, before);
      NoFault(cfg, before);
      var t, t' := Run(cfg, before).value, Run(cfg, events).value;
      match events[|events| - 1]
      case Arrive(tr) =>
        RunArrives(cfg, events, t, tr);
        AddTimes(cfg, t, t', tr, LastSleep(cfg, before), LastWake(cfg, before));
      case Tick =>
        CycleSteady(cfg, t.system);
        RunTicks(cfg, events, t, Cycle(cfg, t.system).value.0, Cycle(cfg, t.system).value.1);
        TickTimes(cfg, t, t', LastSleep(cfg, before), LastWake(cfg, before));
    }
  }

  lemma AwakeAtFirst(cfg: Config)
    ensures PowerTimes(cfg, Trail(Reset(cfg), [], [], [], []), None, None)
  {
  }

  lemma AddTimes(cfg: Config, t: Trail, t': Trail, tr: Transaction, slept: Option<nat>, woke: Option<nat>)
    requires PowerTimes(cfg, t, slept, woke) && t'.system == Add(cfg, t.system, tr)
    ensures PowerTimes(cfg, t', slept, woke) && Sleeps(t') == Sleeps(t)
  {
  }

  lemma TickTimes(cfg: Config, t: Trail, t': Trail, slept: Option<nat>, woke: Option<nat>)
    requires Steady(cfg, t.system) && t.system.controller.clock == |t.trace|
    requires MemorySystem.Shaped(cfg, t.system) && Cycle(cfg, t.system).Ok? && Cycle(cfg, t.system).value.0 == t'.system
    requires PowerTimes(cfg, t, slept, woke)
    ensures PowerTimes(cfg, t', if !Sleeps(t) && Sleeps(t') then Some(|t.trace|) else slept,
                       if Sleeps(t) && !Sleeps(t') then Some(|t.trace|) else woke)
  {
    hide Steady, Cycle, MemorySystem.Shaped, ActivateFrom, ActivateBy, Commanded, AllIdle, Asleep, RefreshSchedule.Due, QueueBusy;
    CyclePower(cfg, t.system);
    if Sleeps(t) {
      WokenFrom(t'.system.controller.banks, |t.trace| + cfg.tXP);
    } else if woke.Some? {
      var from := woke.value + cfg.tXP;
      CycleActivates(cfg, t.system, from);
      BanksThere(cfg, t.system);
      RefreshIsLate(t.system.controller.banks, from, |t.trace|);
    }
  }

  lemma WokenFrom(banks: seq<BankState>, activate: int)
    ensures Woken(banks, activate) ==> ActivateFrom(banks, activate)
  {
  }

  lemma RefreshIsLate(banks: seq<BankState>, from: int, clock: int)
    requires |banks| > 0 && ActivateFrom(banks, from)
    ensures ActivateBy(banks, clock) ==> from <= clock
  {
    assert banks[0].nextActivate >= from;
  }

  // ---- The refresh that is ahead ----

  /** The counter tells how far away the next request is. */
  lemma CountdownIs(period: nat, n: nat)
    requires period >= 1
    ensures
      var s := RefreshSchedule.Before(1, period, n);
      |s.countdown| == 1 && Multiple(period, n + s.countdown[0]) && forall y: nat :: n <= y < n + s.countdown[0] ==> !Multiple(period, y)
  {
    var s := RefreshSchedule.Before(1, period, n);
    var round := RefreshSchedule.RoundAt(1, period, n);
    assert RefreshSchedule.FirstDue(1, period, 0) == period;
    var next := n + s.countdown[0];
    assert next == period * round + period;
    RefreshSchedule.Remainder(round, 0, period);
    forall y: nat | n <= y < next
      ensures !Multiple(period, y)
    {
      if Multiple(period, y) {
        MultiplesApart(period, y, next);
        assert false;
      }
    }
  }

  /** A refresh will be asked for within the time it takes to wake up. */
  ghost predicate RefreshAhead(cfg: Config, n: nat)
    requires cfg.Valid()
  {
    exists y: nat :: n <= y <= n + cfg.tXP && Multiple(cfg.refreshCycles, y)
  }

  lemma AheadIff(cfg: Config, n: nat)
    requires cfg.Valid()
    ensures
      var s := RefreshSchedule.Before(1, cfg.refreshCycles, n);
      |s.countdown| == 1 && (s.countdown[0] <= cfg.tXP <==> RefreshAhead(cfg, n))
  {
    hide Multiple;
    CountdownIs(cfg.refreshCycles, n);
  }

  // ---- The theorem ----

  /** The run goes on with a tick. */
  function Ticked(events: seq<Event>): seq<Event> {
    events + [Event.Tick]
  }

  /**
   * In every run with low power on, a cycle puts the awake rank to sleep if and only if it ends with no packet queued, no
   * refresh waiting and all banks idle. It wakes it up if and only if a packet is queued or a refresh waits, and tCKE have
   * passed since it fell asleep. A sleeping rank is sent nothing, and after it has woken up no ACTIVATE or REFRESH is sent
   * for tXP.
   */
  lemma PowerRun(cfg: Config, events: seq<Event>)
    requires cfg.Valid()
    ensures Run(cfg, events).Ok? && Run(cfg, Ticked(events)).Ok?
    ensures
      var t, t' := Run(cfg, events).value, Run(cfg, Ticked(events)).value;
      var n := |t.trace|;
      && |t'.trace| == n + 1
      && var sent, m := t'.trace[n], t.system.controller;
      var work := QueueBusy(t'.system.controller.queue) || t'.system.rank.refreshWaiting;
      && (!Sleeps(t) ==> (Sleeps(t') <==> cfg.useLowPower && !work && AllIdle(Commanded(cfg, m.banks, sent, n))))
      && (Sleeps(t) ==> sent.None? && LastSleep(cfg, events).Some?
                        && (!Sleeps(t') <==> work && n >= LastSleep(cfg, events).value + cfg.tCKE))
      && (Sleeps(t) && !Sleeps(t') ==>
            Woken(t'.system.controller.banks, n + cfg.tXP) && Woken(t'.system.rank.banks, n + cfg.tXP))
      && (LastWake(cfg, events).Some? && sent.Some? && (sent.value.kind.ACTIVATE? || sent.value.kind.REFRESH?) ==>
            n >= LastWake(cfg, events).value + cfg.tXP)
      && (t'.system.rank.refreshWaiting <==>
            || (t.system.rank.refreshWaiting && !IsRefresh(m.cmdBus)) || Multiple(cfg.refreshCycles, n)
            || (Sleeps(t) && RefreshAhead(cfg, n)))
  {
    hide Run, Steady, Cycle, MemorySystem.Shaped, QueueBusy, Commanded, AllIdle, Woken, Asleep, ActivateFrom, ActivateBy, Multiple,
      RefreshAhead, RefreshSchedule.Due, PowerTimes, LastSleep, LastWake, OnSchedule, RefreshSchedule.NoWrap, RefreshSchedule.Requested;
    NoFault(cfg, events);
    NoFault(cfg, Ticked(events));
    RunPowerTimes(cfg, events);
    RunCountdown(cfg, events);
    RunRefresh(cfg, events);
    var t := Run(cfg, events).value;
    var n, m := |t.trace|, t.system.controller;
    assert Ticked(events)[..|events|] == events;
    CyclePower(cfg, t.system);
    RunTicks(cfg, Ticked(events), t, Cycle(cfg, t.system).value.0, Cycle(cfg, t.system).value.1);
    AheadIff(cfg, n);
    DueIff(cfg, m.refresh, n);
    AfterWaking(cfg, t, LastSleep(cfg, events), LastWake(cfg, events));
    if Sleeps(t) {
      SleptBank(cfg, t, LastSleep(cfg, events), LastWake(cfg, events));
    }
  }

  lemma SleptBank(cfg: Config, t: Trail, slept: Option<nat>, woke: Option<nat>)
    requires Steady(cfg, t.system) && PowerTimes(cfg, t, slept, woke) && Sleeps(t)
    ensures |t.system.controller.banks| > 0 && slept.Some? && t.system.controller.banks[0].nextPowerUp == slept.value + cfg.tCKE
    ensures cfg.useLowPower
  {
    hide Steady;
    BanksThere(cfg, t.system);
  }

  lemma AfterWaking(cfg: Config, t: Trail, slept: Option<nat>, woke: Option<nat>)
    requires Steady(cfg, t.system) && PowerTimes(cfg, t, slept, woke) && t.system.controller.clock == |t.trace|
    ensures MemorySystem.Shaped(cfg, t.system) && Cycle(cfg, t.system).Ok?
    ensures
      var sent := Cycle(cfg, t.system).value.1.issued;
      !Sleeps(t) && woke.Some? && sent.Some? && (sent.value.kind.ACTIVATE? || sent.value.kind.REFRESH?) ==>
        |t.trace| >= woke.value + cfg.tXP
  {
    hide Steady, Cycle, MemorySystem.Shaped, ActivateFrom, ActivateBy, RefreshSchedule.Due, QueueBusy;
    CycleSteady(cfg, t.system);
    if !Sleeps(t) && woke.Some? {
      var from := woke.value + cfg.tXP;
      CycleActivates(cfg, t.system, from);
      BanksThere(cfg, t.system);
      RefreshIsLate(t.system.controller.banks, from, |t.trace|);
    }
  }

  lemma DueIff(cfg: Config, s: RefreshSchedule.RefreshState, n: nat)
    requires cfg.Valid() && OnSchedule(cfg.refreshCycles, s, n)
    ensures RefreshSchedule.Due(s) <==> Multiple(cfg.refreshCycles, n)
  {
  }
}
