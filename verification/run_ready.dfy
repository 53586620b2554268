/** What the controller's table allows in a run is exactly what the commands sent so far allow. */
module RunReady {
  import opened DramTypes
  import opened Wrappers
  import opened MemoryController
  import opened MemorySystem
  import opened CommandSpacing
  import opened TableRefinement
  import opened SystemSafety
  import opened TransactionFlow
  import opened Runs
  import opened RunTiming
  import opened RunSpacing
  import opened RunProgress
  import opened Liveness
  import CommandQueue
  import ActivationWindow
  import Progress
  import QueueDiscipline
  import ReadConservation
  import BusTiming

  // ---- What the trace says ----

  /** The row of bank b that the commands of the trace leave open, if any. */
  function OpenRow(trace: seq<Option<Packet>>, b: nat): Option<nat> {
    if trace == [] then None
    else
      var front, last := trace[..|trace| - 1], trace[|trace| - 1];
      if last.None? || last.value.bank != b then OpenRow(front, b)
      else match last.value.kind
        case ACTIVATE => Some(last.value.row)
        case PRECHARGE => None
        case READ_P => None
        case WRITE_P => None
        case _ => OpenRow(front, b)
  }

  /** In cycle n every command of the trace is as long ago as a command of this kind for bank b demands. */
  ghost predicate Far(cfg: Config, trace: seq<Option<Packet>>, kind: PacketKind, b: nat, n: int) {
    forall t :: 0 <= t < |trace| && trace[t].Some? ==> n - t >= MinGap(cfg, trace[t].value, kind, b)
  }

  /** The cycle in which the last command that makes bank b busy is over: an access that closes it, a precharge, a refresh. */
  function RestTime(cfg: Config, trace: seq<Option<Packet>>, b: nat): int {
    if trace == [] then 0
    else
      var t := |trace| - 1;
      var front, last, burst := trace[..t], trace[t], cfg.BL / 2;
      if last.Some? && last.value.kind.REFRESH? then t + cfg.tRFC
      else if last.None? || last.value.bank != b then RestTime(cfg, front, b)
      else match last.value.kind
        case READ_P => t + cfg.AL + burst + Max(cfg.tRTP - cfg.tCCD, 0) + cfg.tRP
        case WRITE_P => t + cfg.AL + cfg.CL - 1 + burst + cfg.tWR + cfg.tRP
        case PRECHARGE => t + cfg.tRP
        case _ => RestTime(cfg, front, b)
  }

  /** The commands of the trace allow this one in the cycle after it. */
  ghost predicate TraceAllows(cfg: Config, trace: seq<Option<Packet>>, kind: PacketKind, b: nat, row: nat) {
    var n := |trace|;
    match kind
    case ACTIVATE => OpenRow(trace, b).None? && Far(cfg, trace, ACTIVATE, b, n) && RestTime(cfg, trace, b) <= n
    case PRECHARGE => OpenRow(trace, b).Some? && Far(cfg, trace, PRECHARGE, b, n)
    case REFRESH => OpenRow(trace, b).None? && Far(cfg, trace, ACTIVATE, b, n)
    case DATA => false
    case _ => OpenRow(trace, b) == Some(row) && Far(cfg, trace, kind, b, n)
  }

  // ---- The table keeps to it ----

  /** The bank is open or busy as the trace says; it was last aged in cycle base. */
  ghost predicate RowPrompt(cfg: Config, c: BankState, trace: seq<Option<Packet>>, b: nat, base: int) {
    && (Live(c) <==> OpenRow(trace, b).Some?) && (Live(c) ==> OpenRow(trace, b) == Some(c.openRow))
    && (if c.countdown > 0 then base + Rest(cfg, c) == RestTime(cfg, trace, b) else RestTime(cfg, trace, b) <= |trace|)
    && (c.state.RowActive? && c.countdown > 0 ==> c.nextActivate >= base + c.countdown)
  }

  /** Its times withhold nothing that the trace allows. */
  ghost predicate TimesPrompt(cfg: Config, c: BankState, trace: seq<Option<Packet>>, b: nat) {
    && (forall n: int :: n >= |trace| && Far(cfg, trace, ACTIVATE, b, n) ==> c.nextActivate <= n)
    && (forall n: int :: n >= |trace| && Far(cfg, trace, PRECHARGE, b, n) ==> c.nextPrecharge <= n)
  }

  ghost predicate ColumnsPrompt(cfg: Config, c: BankState, trace: seq<Option<Packet>>, b: nat) {
    && (forall n: int :: n >= |trace| && Far(cfg, trace, READ, b, n) && (Live(c) || Far(cfg, trace, ACTIVATE, b, n)) ==> c.nextRead <= n)
    && (forall n: int :: n >= |trace| && Far(cfg, trace, WRITE, b, n) && (Live(c) || Far(cfg, trace, ACTIVATE, b, n)) ==> c.nextWrite <= n)
  }

  ghost predicate Prompt(cfg: Config, c: BankState, trace: seq<Option<Packet>>, b: nat, base: int) {
    RowPrompt(cfg, c, trace, b, base) && TimesPrompt(cfg, c, trace, b) && ColumnsPrompt(cfg, c, trace, b)
  }

  lemma AgePrompt(cfg: Config, c: BankState, r: BankState, trace: seq<Option<Packet>>, b: nat, base: int)
    requires cfg.Valid() && Rel(cfg, c, r, base) && Prompt(cfg, c, trace, b, base) && |trace| == base + 1
    ensures Prompt(cfg, AgeBank(cfg, c), trace, b, base + 1)
  {
    hide Far, RestTime, OpenRow;
    OpenStaysOpen(cfg, c, r, base);
  }

  lemma FarBefore(cfg: Config, trace: seq<Option<Packet>>, last: Option<Packet>, kind: PacketKind, b: nat, n: int)
    ensures Far(cfg, trace + [last], kind, b, n) <==>
              Far(cfg, trace, kind, b, n) && (last.Some? ==> n - |trace| >= MinGap(cfg, last.value, kind, b))
  {
    hide MinGap;
    var trace' := trace + [last];
    assert trace'[|trace|] == last;
    assert forall t :: 0 <= t < |trace| ==> trace'[t] == trace[t];
  }

  lemma OpenAfter(cfg: Config, trace: seq<Option<Packet>>, last: Option<Packet>, b: nat)
    ensures OpenRow(trace + [last], b) ==
      if last.None? || last.value.bank != b then OpenRow(trace, b)
      else match last.value.kind
        case ACTIVATE => Some(last.value.row)
        case PRECHARGE => None
        case READ_P => None
        case WRITE_P => None
        case _ => OpenRow(trace, b)
    ensures RestTime(cfg, trace + [last], b) ==
      if last.Some? && last.value.kind.REFRESH? then |trace| + cfg.tRFC
      else if last.None? || last.value.bank != b then RestTime(cfg, trace, b)
      else match last.value.kind
        case READ_P => |trace| + cfg.ReadToPre() + cfg.tRP
        case WRITE_P => |trace| + cfg.WriteToPre() + cfg.tRP
        case PRECHARGE => |trace| + cfg.tRP
        case _ => RestTime(cfg, trace, b)
  {
    assert (trace + [last])[..|trace|] == trace;
  }

  lemma PausePrompt(cfg: Config, c: BankState, trace: seq<Option<Packet>>, b: nat, base: int)
    requires Prompt(cfg, c, trace, b, base)
    ensures Prompt(cfg, c, trace + [None], b, base)
  {
    hide Far, RestTime, OpenRow;
    OpenAfter(cfg, trace, None, b);
    forall n: int, kind: PacketKind
      ensures Far(cfg, trace + [None], kind, b, n) ==> Far(cfg, trace, kind, b, n)
    {
      FarBefore(cfg, trace, None, kind, b, n);
    }
  }

  /** The command is allowed by the table. */
  predicate Allowed(cfg: Config, c: BankState, q: Packet, b: nat, now: int) {
    && (b == q.bank || q.kind.REFRESH? ==> BankReady(cfg, q.kind, c, q.row, now))
    && (b == q.bank && (q.kind.IsColumn() || q.kind.PRECHARGE?) ==> Live(c))
    && (b == q.bank && q.kind.ACTIVATE? ==> c.state.Idle? && c.countdown == 0)
  }

  lemma CommandRow(cfg: Config, c: BankState, q: Packet, trace: seq<Option<Packet>>, b: nat)
    requires cfg.Valid() && Allowed(cfg, c, q, b, |trace|) && RowPrompt(cfg, c, trace, b, |trace|)
    ensures RowPrompt(cfg, BankAfter(cfg, q.kind, c, b == q.bank, q.row, |trace|), trace + [Some(q)], b, |trace|)
  {
    hide RestTime, OpenRow;
    OpenAfter(cfg, trace, Some(q), b);
  }

  lemma CommandTimes(cfg: Config, c: BankState, q: Packet, trace: seq<Option<Packet>>, b: nat)
    requires cfg.Valid() && Allowed(cfg, c, q, b, |trace|) && TimesPrompt(cfg, c, trace, b)
    ensures TimesPrompt(cfg, BankAfter(cfg, q.kind, c, b == q.bank, q.row, |trace|), trace + [Some(q)], b)
  {
    hide Far;
    forall n: int, kind: PacketKind
      ensures Far(cfg, trace + [Some(q)], kind, b, n) <==> Far(cfg, trace, kind, b, n) && n - |trace| >= MinGap(cfg, q, kind, b)
    {
      FarBefore(cfg, trace, Some(q), kind, b, n);
    }
  }

  lemma CommandColumns(cfg: Config, c: BankState, q: Packet, trace: seq<Option<Packet>>, b: nat)
    requires cfg.Valid() && Allowed(cfg, c, q, b, |trace|) && TimesPrompt(cfg, c, trace, b) && ColumnsPrompt(cfg, c, trace, b)
    requires b == q.bank && q.kind.ACTIVATE? ==> Far(cfg, trace, ACTIVATE, b, |trace|)
    ensures ColumnsPrompt(cfg, BankAfter(cfg, q.kind, c, b == q.bank, q.row, |trace|), trace + [Some(q)], b)
  {
    hide Far;
    var now := |trace|;
    forall n: int, kind: PacketKind
      ensures Far(cfg, trace + [Some(q)], kind, b, n) <==> Far(cfg, trace, kind, b, n) && n - now >= MinGap(cfg, q, kind, b)
    {
      FarBefore(cfg, trace, Some(q), kind, b, n);
    }
    forall n: int
      ensures n >= now && Far(cfg, trace, ACTIVATE, b, now) ==> Far(cfg, trace, ACTIVATE, b, n)
    {
      FarLater(cfg, trace, ACTIVATE, b, now, n);
    }
  }

  lemma FarLater(cfg: Config, trace: seq<Option<Packet>>, kind: PacketKind, b: nat, n: int, m: int)
    ensures n <= m && Far(cfg, trace, kind, b, n) ==> Far(cfg, trace, kind, b, m)
  {
    hide MinGap;
  }

  // ---- Runs ----

  ghost predicate TablePrompt(cfg: Config, banks: seq<BankState>, trace: seq<Option<Packet>>, base: int) {
    forall b :: 0 <= b < |banks| ==> Prompt(cfg, banks[b], trace, b, base)
  }

  lemma TableAgesPrompt(cfg: Config, m: ControllerState, r: RankState, trace: seq<Option<Packet>>)
    requires cfg.Valid() && Linked(cfg, m, r, |trace| - 1, |trace|) && TablePrompt(cfg, m.banks, trace, |trace| - 1)
    ensures TablePrompt(cfg, AgeBanks(cfg, m.banks), trace, |trace|)
  {
    hide Prompt, AgeBank;
    forall b | 0 <= b < |m.banks|
      ensures Prompt(cfg, AgeBanks(cfg, m.banks)[b], trace, b, |trace|)
    {
      AgePrompt(cfg, m.banks[b], Expected(cfg, m, r, b, |trace|), trace, b, |trace| - 1);
    }
  }

  /** A bank that the table lets be activated has waited as long as the trace demands. */
  lemma ActivateIsFar(cfg: Config, banks: seq<BankState>, trace: seq<Option<Packet>>, b: nat)
    requires TableRemembers(cfg, banks, trace, |trace|) && b < |banks| && banks[b].nextActivate <= |trace|
    ensures Far(cfg, trace, ACTIVATE, b, |trace|)
  {
    hide MinGap;
    forall t | 0 <= t < |trace| && trace[t].Some?
      ensures |trace| - t >= MinGap(cfg, trace[t].value, ACTIVATE, b)
    {
      assert Remembers(cfg, banks[b], trace[t].value, t, b, |trace|, |trace|);
    }
  }

  lemma IssuePrompt(cfg: Config, m: ControllerState, m': ControllerState, r: RankState, trace: seq<Option<Packet>>)
    requires Sound(cfg, m, r, |trace|, |trace| + 1) && m.cmdBus.None?
    requires m.clock == |trace| && m.queue.clock == |trace| && Issue(cfg, m) == Ok(m')
    requires TableRemembers(cfg, m.banks, trace, |trace|) && TablePrompt(cfg, m.banks, trace, |trace|)
    ensures TablePrompt(cfg, m'.banks, trace + [m'.cmdBus], |trace|)
  {
    hide Issue, TableRemembers, RowPrompt, TimesPrompt, ColumnsPrompt, CommandQueue.Pop, BankAfter, Far;
    IssueEffect(cfg, m, m');
    if m'.cmdBus.Some? {
      var q := m'.cmdBus.value;
      SentIsReady(cfg, m.banks, m.queue);
      ReadyBank(cfg, m, r, q, |trace|);
      forall b | 0 <= b < |m.banks|
        ensures Prompt(cfg, m'.banks[b], trace + [m'.cmdBus], b, |trace|)
      {
        if b == q.bank && q.kind.ACTIVATE? {
          ActivateIsFar(cfg, m.banks, trace, b);
        }
        CommandRow(cfg, m.banks[b], q, trace, b);
        CommandTimes(cfg, m.banks[b], q, trace, b);
        CommandColumns(cfg, m.banks[b], q, trace, b);
      }
    } else {
      forall b | 0 <= b < |m.banks|
        ensures Prompt(cfg, m'.banks[b], trace + [m'.cmdBus], b, |trace|)
      {
        PausePrompt(cfg, m.banks[b], trace, b, |trace|);
      }
    }
  }

  lemma UpdatePrompt(cfg: Config, m: ControllerState, r: RankState, trace: seq<Option<Packet>>)
    requires RankAhead(cfg, m, r, |trace| - 1) && m.clock == |trace| && r.clock == |trace| && m.queue.clock == |trace|
    requires !cfg.useLowPower && TableRemembers(cfg, m.banks, trace, |trace| - 1) && TablePrompt(cfg, m.banks, trace, |trace| - 1)
    ensures MemoryController.Update(cfg, m, r).Ok?
    ensures
      var (m', _, out) := MemoryController.Update(cfg, m, r).value;
      TablePrompt(cfg, m'.banks, trace + [out.issued], |trace|)
  {
    hide MemoryController.Update, ServeBuses, Issue, Split, ManagePower, ReturnRead, AgeBanks, TableRemembers, TablePrompt;
    var m4, m5, r5, m6, m7, m8, r8 := UpdatePhases(cfg, m, r, |trace| - 1);
    RunSpacing.TableAges(cfg, m, r, trace);
    TableAgesPrompt(cfg, m, r, trace);
    IssuePrompt(cfg, m5, m6, r5, trace);
    SplitEffect(cfg, m6, m7);
    QuietTail(cfg, m6, m7, r5, m8, r8);
  }

  lemma CyclePrompt(cfg: Config, s: System, trace: seq<Option<Packet>>)
    requires Steady(cfg, s) && !cfg.useLowPower && |trace| == s.controller.clock
    requires TableRemembers(cfg, s.controller.banks, trace, |trace| - 1) && TablePrompt(cfg, s.controller.banks, trace, |trace| - 1)
    ensures Shaped(cfg, s) && Cycle(cfg, s).Ok?
    ensures
      var (s', out) := Cycle(cfg, s).value;
      TablePrompt(cfg, s'.controller.banks, trace + [out.issued], |trace|)
  {
    hide Cycle, MemoryController.Update, TableRemembers, TablePrompt;
    SteadyShaped(cfg, s);
    BeginAhead(cfg, s);
    var (m, r) := Begin(cfg, s).value;
    UpdatePrompt(cfg, m, r, trace);
    CycleParts(cfg, s);
  }

  lemma ResetPrompt(cfg: Config)
    requires cfg.Valid()
    ensures TablePrompt(cfg, Reset(cfg).controller.banks, [], -1)
  {
  }

  lemma {:induction false} RunTable(cfg: Config, events: seq<Event>)
    requires cfg.Valid() && !cfg.useLowPower
    ensures Run(cfg, events).Ok?
    ensures
      var t := Run(cfg, events).value;
      TablePrompt(cfg, t.system.controller.banks, t.trace, |t.trace| - 1)
  {
    hide Run, Cycle, Steady, Advance, TableRemembers, TablePrompt, KeptSpaced, SoleBank;
    NoFault(cfg, events);
    if events == [] {
      RunOfNothing(cfg);
      ResetPrompt(cfg);
    } else {
      var before := events[..|events| - 1];
      RunTable(cfg, before);
      NoFault(cfg, before);
      RunKept(cfg, before);
      var t := Run(cfg, before).value;
      match events[|events| - 1]
      case Arrive(tr) => RunArrives(cfg, events, t, tr);
      case Tick =>
        CyclePrompt(cfg, t.system, t.trace);
        var (s', out) := Cycle(cfg, t.system).value;
        RunTicks(cfg, events, t, s', out);
    }
  }

  // ---- The theorem ----

  /** The commands that the row policy uses. */
  predicate Used(cfg: Config, kind: PacketKind) {
    match kind
    case READ => cfg.rowPolicy.OpenPage?
    case WRITE => cfg.rowPolicy.OpenPage?
    case PRECHARGE => cfg.rowPolicy.OpenPage?
    case READ_P => cfg.rowPolicy.ClosePage?
    case WRITE_P => cfg.rowPolicy.ClosePage?
    case DATA => false
    case _ => true
  }

  /** What the trace allows, the table allows. */
  lemma AllowedIsReady(cfg: Config, c: BankState, r: BankState, trace: seq<Option<Packet>>, kind: PacketKind, b: nat, row: nat)
    requires cfg.Valid() && Rel(cfg, c, r, |trace|) && Prompt(cfg, c, trace, b, |trace|) && !c.state.PowerDown? && Used(cfg, kind)
    requires TraceAllows(cfg, trace, kind, b, row)
    ensures BankReady(cfg, kind, c, row, |trace|)
  {
    hide OpenRow, RestTime, MinGap;
    SameFar(cfg, trace, kind, b, |trace|);
  }

  /** The distances do not depend on whether a column command closes its row. */
  lemma SameFar(cfg: Config, trace: seq<Option<Packet>>, kind: PacketKind, b: nat, n: int)
    ensures kind.READ_P? ==> (Far(cfg, trace, READ_P, b, n) <==> Far(cfg, trace, READ, b, n))
    ensures kind.WRITE_P? ==> (Far(cfg, trace, WRITE_P, b, n) <==> Far(cfg, trace, WRITE, b, n))
  {
    hide MinGap;
    forall p: Packet
      ensures MinGap(cfg, p, READ_P, b) == MinGap(cfg, p, READ, b)
      ensures MinGap(cfg, p, WRITE_P, b) == MinGap(cfg, p, WRITE, b)
    {
      SameGap(cfg, p, b);
    }
  }

  lemma SameGap(cfg: Config, p: Packet, b: nat)
    ensures MinGap(cfg, p, READ_P, b) == MinGap(cfg, p, READ, b)
    ensures MinGap(cfg, p, WRITE_P, b) == MinGap(cfg, p, WRITE, b)
  {
  }

  lemma ReadyIsLive(cfg: Config, c: BankState, r: BankState, kind: PacketKind, row: nat, now: int)
    requires cfg.Valid() && Rel(cfg, c, r, now) && BankReady(cfg, kind, c, row, now)
    ensures kind.IsColumn() || kind.PRECHARGE? ==> Live(c)
    ensures kind.ACTIVATE? ==> c.state.Idle? && c.countdown == 0
    ensures kind.REFRESH? ==> !Live(c)
  {
  }

  /** What the table allows, the trace allows, for two column commands where the turnaround is covered. */
  lemma ReadyIsAllowed(cfg: Config, banks: seq<BankState>, r: BankState, trace: seq<Option<Packet>>, kind: PacketKind, b: nat, row: nat)
    requires cfg.Valid() && b < |banks| && Rel(cfg, banks[b], r, |trace|) && RowPrompt(cfg, banks[b], trace, b, |trace|)
    requires TableRemembers(cfg, banks, trace, |trace|) && BankReady(cfg, kind, banks[b], row, |trace|)
    requires kind.IsColumn() ==> TurnaroundCovered(cfg)
    ensures TraceAllows(cfg, trace, kind, b, row)
  {
    hide OpenRow, RestTime, MinGap, TurnaroundCovered;
    var c := banks[b];
    ReadyIsLive(cfg, c, r, kind, row, |trace|);
    SameFar(cfg, trace, kind, b, |trace|);
    forall t | 0 <= t < |trace| && trace[t].Some?
      ensures kind.ACTIVATE? || kind.REFRESH? ==> |trace| - t >= MinGap(cfg, trace[t].value, ACTIVATE, b)
      ensures kind.PRECHARGE? ==> |trace| - t >= MinGap(cfg, trace[t].value, PRECHARGE, b)
      ensures kind.IsRead() ==> |trace| - t >= MinGap(cfg, trace[t].value, READ, b)
      ensures kind.IsWrite() ==> |trace| - t >= MinGap(cfg, trace[t].value, WRITE, b)
    {
      assert Remembers(cfg, c, trace[t].value, t, b, |trace|, |trace|);
    }
  }

  /**
   * In every run with low power off, the table that pop looks at lets a bank take a command if and only if the trace does: its
   * row is open or closed as the command needs it, and every earlier command is as long ago as the device's parameters demand.
   * For a column command what the table allows is what the trace allows where the turnaround is covered.
   */
  lemma RunReadyIff(cfg: Config, events: seq<Event>, kind: PacketKind, b: nat, row: nat)
    requires cfg.Valid() && !cfg.useLowPower && b < cfg.banks && Used(cfg, kind)
    ensures Run(cfg, events).Ok?
    ensures
      var t := Run(cfg, events).value;
      && |t.system.controller.banks| == cfg.banks
      && var c := AgeBank(cfg, t.system.controller.banks[b]);
      && (TraceAllows(cfg, t.trace, kind, b, row) ==> BankReady(cfg, kind, c, row, |t.trace|))
      && (!kind.IsColumn() || TurnaroundCovered(cfg) ==> BankReady(cfg, kind, c, row, |t.trace|) ==> TraceAllows(cfg, t.trace, kind, b, row))
  {
    hide Run, Steady, AgeBank, BankReady, TraceAllows, Prompt, RowPrompt, KeptSpaced, SoleBank, TableRemembers, TurnaroundCovered,
      Progress.ControllerLively;
    NoFault(cfg, events);
    RunTable(cfg, events);
    RunKept(cfg, events);
    RunLively(cfg, events);
    var t := Run(cfg, events).value;
    var m, n := t.system.controller, |t.trace|;
    var r := AgedBank(cfg, t.system, t.trace, b);
    RunSpacing.TableAges(cfg, m, t.system.rank, t.trace);
    var aged := AgeBanks(cfg, m.banks);
    if TraceAllows(cfg, t.trace, kind, b, row) {
      AllowedIsReady(cfg, aged[b], r, t.trace, kind, b, row);
    }
    if BankReady(cfg, kind, aged[b], row, n) && (!kind.IsColumn() || TurnaroundCovered(cfg)) {
      PromptRow(cfg, aged[b], t.trace, b, n);
      ReadyIsAllowed(cfg, aged, r, t.trace, kind, b, row);
    }
  }

  lemma PromptRow(cfg: Config, c: BankState, trace: seq<Option<Packet>>, b: nat, base: int)
    requires Prompt(cfg, c, trace, b, base)
    ensures RowPrompt(cfg, c, trace, b, base)
  {
  }

  /** The bank after ageing, and the rank's bank that it runs ahead of. */
  lemma AgedBank(cfg: Config, s: System, trace: seq<Option<Packet>>, b: nat) returns (r: BankState)
    requires cfg.Valid() && !cfg.useLowPower && Steady(cfg, s) && s.controller.clock == |trace| && b < cfg.banks
    requires TablePrompt(cfg, s.controller.banks, trace, |trace| - 1)
    requires exists due :: Progress.ControllerLively(cfg, s.controller, due)
    ensures |s.controller.banks| == cfg.banks && Linked(cfg, s.controller, s.rank, |trace| - 1, |trace|)
    ensures
      var c := AgeBank(cfg, s.controller.banks[b]);
      Rel(cfg, c, r, |trace|) && Prompt(cfg, c, trace, b, |trace|) && !c.state.PowerDown?
  {
    hide AgeBank, Prompt, Rel, Lively, QueueDiscipline.Disciplined, ReadConservation.Conserved, BusTiming.Flow;
    var m := s.controller;
    r := Expected(cfg, m, s.rank, b, |trace|);
    AgeKeepsRel(cfg, m.banks[b], r, |trace| - 1);
    AgePrompt(cfg, m.banks[b], r, trace, b, |trace| - 1);
    AgedAwake(cfg, m.banks[b]);
  }

  lemma AgedAwake(cfg: Config, c: BankState)
    requires !c.state.PowerDown?
    ensures !AgeBank(cfg, c).state.PowerDown?
  {
  }

  // ---- The scheduler's test ----

  /** Four ACTIVATEs went out in the last tFAW - 1 cycles. */
  predicate FourRecent(cfg: Config, acts: seq<int>, n: int) {
    |acts| >= 4 && n - acts[|acts| - 4] < cfg.tFAW
  }

  lemma WindowIsFull(cfg: Config, w: seq<nat>, acts: seq<int>, n: int)
    requires ActivationWindow.WindowOk(cfg, w) && ActivationWindow.WindowTells(cfg, w, acts, n - 1)
    ensures |CommandQueue.AgeWindow(w)| >= 4 <==> FourRecent(cfg, acts, n)
  {
    ActivationWindow.AgeKeeps(cfg, w, acts, n - 1);
    var aged := CommandQueue.AgeWindow(w);
    if |aged| == 4 {
      assert acts[|acts| - |aged| + 0] == n - cfg.tFAW + aged[0];
    } else if |acts| >= 4 {
      assert n - acts[|acts| - 4] >= cfg.tFAW;
    }
  }

  /**
   * In every run with low power off, the test that pop applies to a queued packet holds if and only if the commands sent so far
   * allow the packet, fewer than four ACTIVATEs are recent, and an open row has not served its share of accesses.
   */
  lemma RunIssuableIff(cfg: Config, events: seq<Event>, p: Packet)
    requires cfg.Valid() && !cfg.useLowPower && p.bank < cfg.banks && Used(cfg, p.kind) && TurnaroundCovered(cfg)
    requires p.kind.ACTIVATE? || p.kind.IsColumn()
    ensures Run(cfg, events).Ok?
    ensures
      var t := Run(cfg, events).value;
      var m := t.system.controller;
      && |m.banks| == |m.queue.accesses| == cfg.banks
      && (CommandQueue.Issuable(cfg, AgeBanks(cfg, m.banks), m.queue.(window := CommandQueue.AgeWindow(m.queue.window)), p) <==>
            && TraceAllows(cfg, t.trace, p.kind, p.bank, p.row)
            && (p.kind.ACTIVATE? ==> !FourRecent(cfg, ActivationTimes(t.trace), |t.trace|))
            && (p.kind.IsColumn() ==> m.queue.accesses[p.bank] < cfg.totalRowAccesses))
  {
    hide Run, Steady, AgeBank, TraceAllows, FourRecent, TurnaroundCovered, ActivationTimes, ActivationWindow.FourPerWindow;
    NoFault(cfg, events);
    RunReadyIff(cfg, events, p.kind, p.bank, p.row);
    RunWindow(cfg, events);
    var t := Run(cfg, events).value;
    TablesThere(cfg, t.system);
    WindowIsFull(cfg, t.system.controller.queue.window, ActivationTimes(t.trace), |t.trace|);
  }

  lemma TablesThere(cfg: Config, s: System)
    requires Steady(cfg, s)
    ensures |s.controller.queue.accesses| == cfg.banks && s.controller.queue.clock == s.controller.clock
  {
  }
}
