/** Command spacing over whole runs. */
module RunSpacing {
  import opened DramTypes
  import opened Wrappers
  import opened MemoryController
  import opened MemorySystem
  import opened CommandSpacing
  import opened TableRefinement
  import opened SystemSafety
  import opened TransactionFlow
  import opened Runs
  import opened RunTiming
  import opened Settled
  import opened Liveness
  import opened Progress
  import opened RunProgress
  import CommandQueue
  import PopDiscipline
  import QueueDiscipline

  /** Any two commands of the trace keep the distance between their kinds. */
  predicate AllSpaced(cfg: Config, trace: seq<Option<Packet>>) {
    forall i, j :: 0 <= i < j < |trace| && trace[i].Some? && trace[j].Some? ==>
      j - i >= MinGap(cfg, trace[i].value, trace[j].value.kind, trace[j].value.bank)
  }

  /** The same for two commands of which at most one is a column command. */
  predicate RowsSpaced(cfg: Config, trace: seq<Option<Packet>>) {
    forall i, j :: 0 <= i < j < |trace| && trace[i].Some? && trace[j].Some? ==>
      || (trace[i].value.kind.IsColumn() && trace[j].value.kind.IsColumn())
      || j - i >= MinGap(cfg, trace[i].value, trace[j].value.kind, trace[j].value.bank)
  }

  predicate KeptSpaced(cfg: Config, trace: seq<Option<Packet>>) {
    forall i, j :: 0 <= i < j < |trace| && trace[i].Some? && trace[j].Some? ==>
      j - i >= KeptGap(cfg, trace[i].value, trace[j].value.kind, trace[j].value.bank)
  }

  /** The controller's table, last aged in cycle base, still owes its distances to every command of the trace. */
  predicate TableRemembers(cfg: Config, banks: seq<BankState>, trace: seq<Option<Packet>>, base: int) {
    && (forall t :: 0 <= t < |trace| && trace[t].Some? ==> trace[t].value.bank < |banks|)
    && (forall t, b :: 0 <= t < |trace| && trace[t].Some? && 0 <= b < |banks| ==>
          Remembers(cfg, banks[b], trace[t].value, t, b, base, |trace|))
  }

  // ---- The only bank ----

  predicate SoleBank(cfg: Config, banks: seq<BankState>, next: int) {
    cfg.banks == 1 && cfg.rowPolicy.ClosePage? ==> |banks| == 1 && Single(cfg, banks[0], next)
  }

  lemma OpenStaysOpen(cfg: Config, c: BankState, r: BankState, now: int)
    requires Rel(cfg, c, r, now)
    ensures Live(AgeBank(cfg, c)) <==> Live(c)
  {
  }

  lemma SoleAges(cfg: Config, m: ControllerState, r: RankState, now: int, q: CommandQueue.QueueState)
    requires cfg.Valid() && Linked(cfg, m, r, now, now + 1) && SoleBank(cfg, m.banks, now + 1)
    requires CommandQueue.Shaped(cfg, m.banks, m.queue) && Attended(cfg, m.banks, m.queue)
    requires q == m.queue.(refreshWaiting := q.refreshWaiting)
    ensures SoleBank(cfg, AgeBanks(cfg, m.banks), now + 1)
    ensures CommandQueue.Shaped(cfg, AgeBanks(cfg, m.banks), q) && Attended(cfg, AgeBanks(cfg, m.banks), q)
  {
    hide Waiter, AgeBank, Live;
    var aged := AgeBanks(cfg, m.banks);
    forall b | 0 <= b < |m.banks|
      ensures Live(aged[b]) <==> Live(m.banks[b])
      ensures aged[b] == m.banks[b].(state := aged[b].state, countdown := aged[b].countdown, lastCommand := aged[b].lastCommand)
    {
      OpenStaysOpen(cfg, m.banks[b], Expected(cfg, m, r, b, now + 1), now);
      TimesStay(cfg, m.banks[b]);
    }
    AgedAttended(cfg, m.banks, aged, m.queue);
    CommandQueue.SameShape(cfg, aged, m.queue, aged, q);
    SameAttended(cfg, aged, m.queue, q);
  }

  lemma TimesStay(cfg: Config, c: BankState)
    ensures
      var aged := AgeBank(cfg, c);
      aged == c.(state := aged.state, countdown := aged.countdown, lastCommand := aged.lastCommand)
  {
  }

  /** An open only bank is sent its column command in time. */
  lemma SoleServed(cfg: Config, banks: seq<BankState>, q: CommandQueue.QueueState)
    requires cfg.Valid() && QueueDiscipline.Disciplined(cfg, banks, q) && Attended(cfg, banks, q)
    requires cfg.rowPolicy.ClosePage? && cfg.banks == 1
    requires Live(banks[0]) && banks[0].nextRead <= q.clock && banks[0].nextWrite <= q.clock
    ensures CommandQueue.Pop(cfg, banks, q).1.Some?
  {
    hide CommandQueue.Choose;
    var aged := q.(window := CommandQueue.AgeWindow(q.window));
    PopDiscipline.SameQueues(cfg, banks, q, aged);
    SameAttended(cfg, banks, q, aged);
    OpenBankServed(cfg, banks, aged);
  }

  lemma IssueSole(cfg: Config, m: ControllerState, m': ControllerState, r: RankState, now: int)
    requires Sound(cfg, m, r, now, now + 1) && m.cmdBus.None? && m.clock == now && m.queue.clock == now && Issue(cfg, m) == Ok(m')
    requires SoleBank(cfg, m.banks, now) && CommandQueue.Shaped(cfg, m.banks, m.queue) && Attended(cfg, m.banks, m.queue)
    ensures SoleBank(cfg, m'.banks, now + 1)
  {
    hide Issue, CommandQueue.Pop, Single, Attended, BankAfter, QueueDiscipline.Disciplined;
    if cfg.banks == 1 && cfg.rowPolicy.ClosePage? {
      IssueEffect(cfg, m, m');
      var sent := m'.cmdBus;
      if sent.Some? {
        SentIsReady(cfg, m.banks, m.queue);
        ReadyBank(cfg, m, r, sent.value, now);
      } else if Live(m.banks[0]) && m.banks[0].nextRead <= now && m.banks[0].nextWrite <= now {
        SoleServed(cfg, m.banks, m.queue);
        assert false;
      }
      SingleStep(cfg, m.banks[0], sent, now);
    }
  }

  // ---- The table ----

  lemma TableAges(cfg: Config, m: ControllerState, r: RankState, trace: seq<Option<Packet>>)
    requires cfg.Valid() && Linked(cfg, m, r, |trace| - 1, |trace|) && TableRemembers(cfg, m.banks, trace, |trace| - 1)
    ensures TableRemembers(cfg, AgeBanks(cfg, m.banks), trace, |trace|)
  {
    hide Remembers;
    var now := |trace| - 1;
    forall t, b | 0 <= t < |trace| && trace[t].Some? && 0 <= b < |m.banks|
      ensures Remembers(cfg, AgeBanks(cfg, m.banks)[b], trace[t].value, t, b, now + 1, now + 1)
    {
      AgeRemembers(cfg, m.banks[b], Expected(cfg, m, r, b, now + 1), now, trace[t].value, t, b);
    }
  }

  lemma CommandJoins(cfg: Config, banks: seq<BankState>, p: Packet, trace: seq<Option<Packet>>)
    requires cfg.Valid() && TableRemembers(cfg, banks, trace, |trace|) && KeptSpaced(cfg, trace)
    requires Ready(cfg, banks, p, |trace|)
    requires p.kind.IsColumn() || p.kind.PRECHARGE? ==> Live(banks[p.bank])
    requires p.kind.ACTIVATE? ==> banks[p.bank].state.Idle? && banks[p.bank].countdown == 0
    requires SoleBank(cfg, banks, |trace|)
    ensures TableRemembers(cfg, TableAfter(cfg, p, banks, |trace|), trace + [Some(p)], |trace|)
    ensures KeptSpaced(cfg, trace + [Some(p)])
  {
    hide Remembers, KeptGap, BankAfter, Single;
    var now, trace' := |trace|, trace + [Some(p)];
    var banks' := TableAfter(cfg, p, banks, now);
    forall t, b | 0 <= t < |trace'| && trace'[t].Some? && 0 <= b < |banks'|
      ensures Remembers(cfg, banks'[b], trace'[t].value, t, b, now, now + 1)
    {
      if t == now {
        NewCommandRemembered(cfg, banks[b], p, b, now);
      } else {
        assert trace'[t] == trace[t];
        CommandRemembers(cfg, banks[b], p, b == p.bank, now, trace[t].value, t, b);
      }
    }
    forall i, j | 0 <= i < j < |trace'| && trace'[i].Some? && trace'[j].Some?
      ensures j - i >= KeptGap(cfg, trace'[i].value, trace'[j].value.kind, trace'[j].value.bank)
    {
      if j == now {
        ReadyIsSpaced(cfg, banks, p, now, trace[i].value, i);
      }
    }
  }

  lemma PauseJoins(cfg: Config, banks: seq<BankState>, trace: seq<Option<Packet>>)
    requires TableRemembers(cfg, banks, trace, |trace|) && KeptSpaced(cfg, trace)
    ensures TableRemembers(cfg, banks, trace + [None], |trace|) && KeptSpaced(cfg, trace + [None])
  {
    hide Remembers, KeptGap;
    var now, trace' := |trace|, trace + [None];
    assert forall t :: 0 <= t < |trace'| && trace'[t].Some? ==> t < |trace| && trace'[t] == trace[t];
    forall t, b | 0 <= t < |trace'| && trace'[t].Some? && 0 <= b < |banks|
      ensures Remembers(cfg, banks[b], trace'[t].value, t, b, now, now + 1)
    {
      PauseRemembers(cfg, banks[b], now, trace[t].value, t, b);
    }
  }

  /** The table and the trace after a cycle, given what was issued in it. */
  lemma IssueSpaced(cfg: Config, m: ControllerState, m': ControllerState, r: RankState, trace: seq<Option<Packet>>)
    requires Sound(cfg, m, r, |trace|, |trace| + 1) && m.cmdBus.None?
    requires m.clock == |trace| && m.queue.clock == |trace| && Issue(cfg, m) == Ok(m')
    requires TableRemembers(cfg, m.banks, trace, |trace|) && KeptSpaced(cfg, trace) && SoleBank(cfg, m.banks, |trace|)
    ensures TableRemembers(cfg, m'.banks, trace + [m'.cmdBus], |trace|) && KeptSpaced(cfg, trace + [m'.cmdBus])
  {
    hide Issue, TableRemembers, KeptSpaced, CommandQueue.Pop, SoleBank;
    IssueEffect(cfg, m, m');
    if m'.cmdBus.Some? {
      SentIsReady(cfg, m.banks, m.queue);
      ReadyBank(cfg, m, r, m'.cmdBus.value, |trace|);
      CommandJoins(cfg, m.banks, m'.cmdBus.value, trace);
    } else {
      PauseJoins(cfg, m.banks, trace);
    }
  }

  lemma UpdateSpaced(cfg: Config, m: ControllerState, r: RankState, trace: seq<Option<Packet>>)
    requires RankAhead(cfg, m, r, |trace| - 1) && m.clock == |trace| && r.clock == |trace| && m.queue.clock == |trace|
    requires !cfg.useLowPower && TableRemembers(cfg, m.banks, trace, |trace| - 1) && KeptSpaced(cfg, trace)
    requires SoleBank(cfg, m.banks, |trace|) && CommandQueue.Shaped(cfg, m.banks, m.queue) && Attended(cfg, m.banks, m.queue)
    ensures MemoryController.Update(cfg, m, r).Ok?
    ensures
      var (m', _, out) := MemoryController.Update(cfg, m, r).value;
      && TableRemembers(cfg, m'.banks, trace + [out.issued], |trace|) && KeptSpaced(cfg, trace + [out.issued])
      && SoleBank(cfg, m'.banks, |trace| + 1)
  {
    hide MemoryController.Update, ServeBuses, Issue, Split, ManagePower, ReturnRead, AgeBanks, TableRemembers, KeptSpaced, SoleBank,
      Attended;
    var m4, m5, r5, m6, m7, m8, r8 := UpdatePhases(cfg, m, r, |trace| - 1);
    TableAges(cfg, m, r, trace);
    SoleAges(cfg, m, r, |trace| - 1, m5.queue);
    IssueSole(cfg, m5, m6, r5, |trace|);
    IssueSpaced(cfg, m5, m6, r5, trace);
    QuietTail(cfg, m6, m7, r5, m8, r8);
  }

  lemma CycleSpaced(cfg: Config, s: System, trace: seq<Option<Packet>>)
    requires Steady(cfg, s) && !cfg.useLowPower && |trace| == s.controller.clock
    requires TableRemembers(cfg, s.controller.banks, trace, |trace| - 1) && KeptSpaced(cfg, trace)
    requires SoleBank(cfg, s.controller.banks, |trace|)
    requires CommandQueue.Shaped(cfg, s.controller.banks, s.controller.queue) && Attended(cfg, s.controller.banks, s.controller.queue)
    ensures Shaped(cfg, s) && Cycle(cfg, s).Ok?
    ensures
      var (s', out) := Cycle(cfg, s).value;
      && TableRemembers(cfg, s'.controller.banks, trace + [out.issued], |trace|) && KeptSpaced(cfg, trace + [out.issued])
      && SoleBank(cfg, s'.controller.banks, |trace| + 1)
  {
    hide Cycle, MemoryController.Update, TableRemembers, KeptSpaced, SoleBank, Attended;
    SteadyShaped(cfg, s);
    BeginAhead(cfg, s);
    var (m, r) := Begin(cfg, s).value;
    UpdateSpaced(cfg, m, r, trace);
    CycleParts(cfg, s);
  }

  lemma {:induction false} RunKept(cfg: Config, events: seq<Event>)
    requires cfg.Valid() && !cfg.useLowPower
    ensures Run(cfg, events).Ok?
    ensures KeptSpaced(cfg, Run(cfg, events).value.trace)
    ensures
      var t := Run(cfg, events).value;
      TableRemembers(cfg, t.system.controller.banks, t.trace, |t.trace| - 1) && SoleBank(cfg, t.system.controller.banks, |t.trace|)
  {
    hide Run, Cycle, Steady, Advance, Remembers, KeptGap, Single, ControllerLively;
    if events == [] {
      RunOfNothing(cfg);
      ResetIsSole(cfg);
    } else {
      var before := events[..|events| - 1];
      RunKept(cfg, before);
      NoFault(cfg, before);
      var t := Run(cfg, before).value;
      match events[|events| - 1]
      case Arrive(tr) => RunArrives(cfg, events, t, tr);
      case Tick =>
        RunLively(cfg, before);
        LivelyIsAttended(cfg, t.system.controller, |t.trace| - 1 + Horizon(cfg));
        CycleSpaced(cfg, t.system, t.trace);
        var (s', out) := Cycle(cfg, t.system).value;
        RunTicks(cfg, events, t, s', out);
    }
  }

  lemma ResetIsSole(cfg: Config)
    requires cfg.Valid()
    ensures SoleBank(cfg, Reset(cfg).controller.banks, 0)
  {
  }

  lemma LivelyIsAttended(cfg: Config, m: ControllerState, due: int)
    requires ControllerLively(cfg, m, due)
    ensures CommandQueue.Shaped(cfg, m.banks, m.queue) && Attended(cfg, m.banks, m.queue)
  {
  }

  /**
   * With power management off, any two commands of a run keep the distance that their kinds demand: always unless both
   * are column commands, and those too where the turnaround is covered.
   */
  lemma RunSpaced(cfg: Config, events: seq<Event>)
    requires cfg.Valid() && !cfg.useLowPower
    ensures Run(cfg, events).Ok? && RowsSpaced(cfg, Run(cfg, events).value.trace)
    ensures TurnaroundCovered(cfg) ==> AllSpaced(cfg, Run(cfg, events).value.trace)
  {
    hide Run, MinGap, TurnaroundCovered;
    RunKept(cfg, events);
  }
}
