/** Runs between two refreshes in which few banks are busy and the scheduler's choice can be followed cycle by cycle. */
module QuietRun {
  import opened DramTypes
  import opened Wrappers
  import opened AddressMapping
  import opened MemoryController
  import opened MemorySystem
  import opened TransactionFlow
  import opened Runs
  import opened CommandQueue
  import opened Progress
  import RoundRobin
  import SystemSafety
  import RefreshSchedule

  // ---- A cycle as far as the scheduler is concerned ----

  /**
   * What the scheduler makes of a controller in one update: the command sent, and the controller after it. It does not fall
   * asleep while packets are queued.
   */
  ghost predicate Scheduled(cfg: Config, m: ControllerState, sent: Option<Packet>, m': ControllerState) {
    var aged := AgeBanks(cfg, m.banks);
    && CommandQueue.Shaped(cfg, aged, m.queue)
    && var (q, p) := Pop(cfg, aged, m.queue);
    && sent == p
    && Split(cfg, m.(queue := q)).Ok?
    && var split := Split(cfg, m.(queue := q)).value;
    && m'.transactions == split.transactions && m'.queue == split.queue.(clock := q.clock + 1)
    && m'.refresh == RefreshSchedule.Age(m.refresh)
    && (m'.powerDown == m.powerDown ==> m'.banks == (if p.Some? then TableAfter(cfg, p.value, aged, m.clock) else aged))
    && (!m.powerDown && (!cfg.useLowPower || QueueBusy(m'.queue)) ==> !m'.powerDown)
  }

  lemma SplitIsLocal(cfg: Config, m: ControllerState, n: ControllerState)
    requires m.queue == n.queue && m.transactions == n.transactions
    requires Split(cfg, m).Ok?
    ensures Split(cfg, n).Ok? && Split(cfg, m).value.queue == Split(cfg, n).value.queue
    ensures Split(cfg, m).value.transactions == Split(cfg, n).value.transactions
  {
    hide Decode;
  }

  /** Without a refresh an update is scheduling alone. */
  lemma UpdateSchedules(cfg: Config, m: ControllerState, r: RankState, now: int)
    requires SystemSafety.RankAhead(cfg, m, r, now) && m.clock == now + 1 && r.clock == now + 1 && m.queue.clock == now + 1
    requires m.refresh.countdown[0] > 0
    ensures MemoryController.Update(cfg, m, r).Ok?
    ensures Scheduled(cfg, m, MemoryController.Update(cfg, m, r).value.2.issued, MemoryController.Update(cfg, m, r).value.0)
  {
    hide ServeBuses, Issue, ReturnRead, MemoryController.Update, Decode, Split, SystemSafety.Sound, Pop, TableAfter, ManagePower,
      QueueBusy;
    var m4, m5, r5, m6, m7, m8, r8 := UpdatePhases(cfg, m, r, now);
    SameShape(cfg, m.banks, m.queue, m5.banks, m5.queue);
    IssueEffect(cfg, m5, m6);
    assert m5.queue == m.queue && m5.banks == AgeBanks(cfg, m.banks);
    SplitEffect(cfg, m6, m7);
    SplitIsLocal(cfg, m6, m.(queue := m6.queue));
    PowerChoice(cfg, m7, r5);
    PowerActivates(cfg, m7, r5);
    ReturnEffect(m8);
    BusyIsNotEmpty(m7.queue, MemoryController.Update(cfg, m, r).value.0.queue);
  }

  lemma CycleSchedules(cfg: Config, s: System)
    requires Steady(cfg, s) && s.pending == []
    requires RefreshShaped(s.controller.refresh) && s.controller.refresh.countdown[0] > 0
    ensures MemorySystem.Shaped(cfg, s) && Cycle(cfg, s).Ok?
    ensures
      var (s', out) := Cycle(cfg, s).value;
      Scheduled(cfg, s.controller, out.issued, s'.controller) && s'.pending == []
  {
    hide MemoryController.Update, Cycle, Pop, Split, TableAfter, QueueBusy;
    SteadyShaped(cfg, s);
    BeginAhead(cfg, s);
    var (m, r) := Begin(cfg, s).value;
    UpdateSchedules(cfg, m, r, s.controller.clock - 1);
    CycleParts(cfg, s);
    var q := Pop(cfg, AgeBanks(cfg, m.banks), m.queue).0;
    SplitIsLocal(cfg, m.(queue := q), s.controller.(queue := q));
  }

  // ---- One busy queue ----

  /** Only the queue of bank b holds packets, all for that bank; at most acts activations are in the window. */
  predicate Alone(cfg: Config, b: nat, q: QueueState, s: seq<Packet>, used: nat, acts: nat, clock: int) {
    && b < cfg.banks && |q.accesses| == cfg.banks && |q.queues| == QueueCount(cfg)
    && q.nextBank < cfg.banks && q.nextBankPre < cfg.banks
    && q.queues[QueueIndex(cfg, b)] == s
    && (forall n :: 0 <= n < |q.queues| && n != QueueIndex(cfg, b) ==> q.queues[n] == [])
    && (forall k :: 0 <= k < |s| ==> s[k].bank == b)
    && q.accesses[b] == used && |q.window| <= acts && !q.refreshWaiting && q.clock == clock
  }

  lemma AloneShaped(cfg: Config, b: nat, q: QueueState, s: seq<Packet>, used: nat, acts: nat, clock: int, banks: seq<BankState>)
    requires Alone(cfg, b, q, s, used, acts, clock) && |banks| == cfg.banks
    ensures CommandQueue.Shaped(cfg, banks, q)
  {
    forall i, k | 0 <= i < |q.queues| && 0 <= k < |q.queues[i]|
      ensures q.queues[i][k].bank < cfg.banks
    {
      assert i == QueueIndex(cfg, b);
    }
  }

  /** The first eligible packet of the queue is at position i; there is none if i is the queue's length. */
  predicate FirstAt(cfg: Config, banks: seq<BankState>, q: QueueState, s: seq<Packet>, i: nat)
    requires |banks| == |q.accesses| == cfg.banks && forall k :: 0 <= k < |s| ==> s[k].bank < cfg.banks
  {
    && i <= |s| && (i < |s| ==> Eligible(cfg, banks, q, s, i))
    && forall k :: 0 <= k < i ==> !Eligible(cfg, banks, q, s, k)
  }

  lemma QueueChooses(cfg: Config, b: nat, banks: seq<BankState>, q: QueueState, s: seq<Packet>, used: nat, acts: nat,
                     clock: int, i: nat)
    requires Alone(cfg, b, q, s, used, acts, clock) && |banks| == cfg.banks && FirstAt(cfg, banks, q, s, i)
    ensures CommandQueue.Shaped(cfg, banks, q)
    ensures QueueChoice(cfg, banks, q) == if i == |s| then Nothing else Send(QueueIndex(cfg, b), i, true)
  {
    hide Eligible;
    AloneShaped(cfg, b, q, s, used, acts, clock, banks);
    assert FirstEligible(cfg, banks, q, s, 0) == i;
    if cfg.queuing.PerRankPerBank? {
      assert forall n :: 0 <= n < |q.queues| && n != b ==> !QueueReady(cfg, banks, q, n);
      RoundRobin.TurnDistance(cfg, q.nextBank, b);
      var k := FirstReady(cfg, banks, q, 0);
      assert k < cfg.banks ==> Turn(cfg, q.nextBank, k) == b;
    }
  }

  /** The only eligible packet is chosen, whichever queue's turn it is. */
  lemma OnlyChoice(cfg: Config, banks: seq<BankState>, q: QueueState, n: nat, i: nat)
    requires CommandQueue.Shaped(cfg, banks, q) && !q.refreshWaiting && n < |q.queues| && i < |q.queues[n]| && Eligible(cfg, banks, q, q.queues[n], i)
    requires forall n', i' :: 0 <= n' < |q.queues| && 0 <= i' < |q.queues[n']| && Eligible(cfg, banks, q, q.queues[n'], i') ==> n' == n && i' == i
    ensures QueueChoice(cfg, banks, q) == Send(n, i, true)
  {
    hide Eligible;
    assert forall n' :: 0 <= n' < |q.queues| ==> (QueueReady(cfg, banks, q, n') <==> n' == n);
    assert FirstEligible(cfg, banks, q, q.queues[n], 0) == i;
    if cfg.queuing.PerRankPerBank? {
      RoundRobin.TurnDistance(cfg, q.nextBank, n);
      var k := FirstReady(cfg, banks, q, 0);
      assert k < cfg.banks ==> Turn(cfg, q.nextBank, k) == n;
    }
  }

  predicate NothingToClose(cfg: Config, banks: seq<BankState>, q: QueueState) {
    cfg.rowPolicy.OpenPage? ==>
      CommandQueue.Shaped(cfg, banks, q) && forall x :: 0 <= x < cfg.banks ==> !Closable(cfg, banks, q, x)
  }

  /** Pop sends the first eligible packet; with none, it sends nothing unless an open bank may be closed. */
  lemma PopAlone(cfg: Config, b: nat, banks: seq<BankState>, q: QueueState, s: seq<Packet>, used: nat, acts: nat,
                 clock: int, i: nat)
    requires Alone(cfg, b, q, s, used, acts, clock) && |banks| == cfg.banks
    requires FirstAt(cfg, banks, q.(window := AgeWindow(q.window)), s, i)
    requires i == |s| ==> NothingToClose(cfg, banks, q.(window := AgeWindow(q.window)))
    ensures CommandQueue.Shaped(cfg, banks, q)
    ensures
      var (q', sent) := Pop(cfg, banks, q);
      if i == |s| then sent == None && Alone(cfg, b, q', s, used, acts, clock)
      else
        var c := Send(QueueIndex(cfg, b), i, true);
        && sent == Some(s[i])
        && Alone(cfg, b, q', Removed(cfg, s, c), if DropsActivate(cfg, s, c) then used + 1 else used,
                 if s[i].kind.ACTIVATE? then acts + 1 else acts, clock)
  {
    hide Eligible, QueueChoice, PrechargeChoice;
    var aged := q.(window := AgeWindow(q.window));
    assert |aged.window| <= |q.window|;
    AloneShaped(cfg, b, q, s, used, acts, clock, banks);
    QueueChooses(cfg, b, banks, aged, s, used, acts, clock, i);
    if i < |s| {
      TakenAlone(cfg, b, aged, s, used, acts, clock, i);
    } else {
      RoundRobin.CloseIdleIff(cfg, banks, aged);
    }
  }

  lemma TakenAlone(cfg: Config, b: nat, q: QueueState, s: seq<Packet>, used: nat, acts: nat, clock: int, i: nat)
    requires Alone(cfg, b, q, s, used, acts, clock) && i < |s|
    ensures
      var c := Send(QueueIndex(cfg, b), i, true);
      Alone(cfg, b, Finished(cfg, Taken(cfg, q, c), s[i].kind), Removed(cfg, s, c),
            if DropsActivate(cfg, s, c) then used + 1 else used, if s[i].kind.ACTIVATE? then acts + 1 else acts, clock)
  {
  }

  /** A transaction for the busy bank is split into its two packets as soon as they fit. */
  lemma SplitAlone(cfg: Config, b: nat, m: ControllerState, s: seq<Packet>, used: nat, acts: nat, clock: int)
    requires Alone(cfg, b, m.queue, s, used, acts, clock)
    requires m.transactions != [] ==> |m.transactions| == 1 && Locate(cfg, m.transactions[0].address).bank == b
    requires m.transactions != [] ==> |s| + 2 <= cfg.cmdQueueDepth
    ensures Split(cfg, m).Ok?
    ensures
      var m' := Split(cfg, m).value;
      && m'.transactions == []
      && Alone(cfg, b, m'.queue, if m.transactions == [] then s else s + PairFor(cfg, m.transactions[0]), used, acts, clock)
  {
    hide Locate;
    if m.transactions != [] {
      var t := m.transactions[0];
      assert Splittable(cfg, m.queue, t);
      assert s + [ActivateFor(cfg, t)] + [ColumnFor(cfg, t)] == s + PairFor(cfg, t);
    }
  }

  function PairFor(cfg: Config, t: Transaction): seq<Packet> {
    [ActivateFor(cfg, t), ColumnFor(cfg, t)]
  }

  /** The bank lets the packet go in this cycle. */
  predicate Lets(bank: BankState, p: Packet, clock: int) {
    match p.kind
    case ACTIVATE => bank.state.Idle? && clock >= bank.nextActivate
    case READ => bank.state.RowActive? && clock >= bank.nextRead && p.row == bank.openRow
    case READ_P => bank.state.RowActive? && clock >= bank.nextRead && p.row == bank.openRow
    case WRITE => bank.state.RowActive? && clock >= bank.nextWrite && p.row == bank.openRow
    case WRITE_P => bank.state.RowActive? && clock >= bank.nextWrite && p.row == bank.openRow
    case _ => false
  }

  /** The kind of a column command that the row policy asks for. */
  predicate ColumnOf(cfg: Config, kind: PacketKind) {
    kind == ColumnKind(cfg, false) || kind == ColumnKind(cfg, true)
  }

  /** The queue is empty, holds a column command, or an ACTIVATE and its column command. */
  predicate OneRequest(cfg: Config, s: seq<Packet>) {
    || s == []
    || (|s| == 1 && ColumnOf(cfg, s[0].kind))
    || (|s| == 2 && s[0].kind.ACTIVATE? && ColumnOf(cfg, s[1].kind) && s[0].address == s[1].address && s[0].row == s[1].row)
  }

  lemma RestIsOneRequest(cfg: Config, s: seq<Packet>, t: Transaction)
    requires OneRequest(cfg, s)
    ensures s != [] ==> OneRequest(cfg, s[1..])
    ensures OneRequest(cfg, PairFor(cfg, t))
  {
    hide Locate;
  }

  /** A bank after the update of a cycle in which a command of its own, one of another bank, or nothing is sent. */
  function BankNext(cfg: Config, bank: BankState, sent: Option<Packet>, mine: bool, clock: nat): BankState {
    var aged := AgeBank(cfg, bank);
    if sent.Some? then BankAfter(cfg, sent.value.kind, aged, mine, sent.value.row, clock) else aged
  }

  function Acts(s: seq<Packet>, acts: nat): nat {
    if s != [] && s[0].kind.ACTIVATE? then acts + 1 else acts
  }

  /** An awake controller before the update of the given cycle, in which no refresh is due, with these transactions to split. */
  predicate Calm(cfg: Config, m: ControllerState, clock: nat, ts: seq<Transaction>) {
    && |m.banks| == cfg.banks && m.transactions == ts && m.clock == clock && !m.powerDown
    && CommandQueue.Shaped(cfg, m.banks, m.queue)
    && clock <= cfg.refreshCycles && m.refresh == RefreshSchedule.RefreshState([cfg.refreshCycles - clock], 0)
  }

  /** Such a controller, as far as bank b and its queue are concerned, when no other bank is busy. */
  predicate Held(cfg: Config, b: nat, m: ControllerState, clock: nat, bank: BankState, s: seq<Packet>, acts: nat,
                 ts: seq<Transaction>)
  {
    && Calm(cfg, m, clock, ts) && b < cfg.banks && m.banks[b] == bank
    && Alone(cfg, b, m.queue, s, 0, acts, clock) && OneRequest(cfg, s)
  }

  lemma ResetHeld(cfg: Config, b: nat, t: Transaction)
    requires cfg.Valid() && cfg.transQueueDepth >= 1 && b < cfg.banks
    ensures Held(cfg, b, Accept(cfg, Reset(cfg).controller, t), 0, RESET_BANK, [], 0, [t])
  {
    var m := Reset(cfg).controller;
    assert m.refresh.countdown == [cfg.refreshCycles];
    assert [] + [t] == [t];
  }

  /** One update of the held bank, when it is known what pop takes from its queue. */
  lemma HeldNext(cfg: Config, b: nat, m: ControllerState, sent: Option<Packet>, m': ControllerState, clock: nat,
                 bank: BankState, s: seq<Packet>, acts: nat, ts: seq<Transaction>, rest: seq<Packet>, acts': nat)
    requires Held(cfg, b, m, clock, bank, s, acts, ts) && Scheduled(cfg, m, sent, m') && m'.clock == clock + 1 <= cfg.refreshCycles
    requires (sent.Some? ==> sent.value.bank == b) && OneRequest(cfg, rest)
    requires CommandQueue.Shaped(cfg, AgeBanks(cfg, m.banks), m.queue)
    requires Alone(cfg, b, Pop(cfg, AgeBanks(cfg, m.banks), m.queue).0, rest, 0, acts', clock)
    requires ts == [] || (|ts| == 1 && rest == [] && Locate(cfg, ts[0].address).bank == b && cfg.cmdQueueDepth >= 2)
    requires cfg.useLowPower ==> rest != [] || ts != []
    ensures Held(cfg, b, m', clock + 1, BankNext(cfg, bank, sent, true, clock), if ts == [] then rest else PairFor(cfg, ts[0]), acts', [])
    ensures m'.banks == (if sent.Some? then TableAfter(cfg, sent.value, AgeBanks(cfg, m.banks), clock) else AgeBanks(cfg, m.banks))
  {
    hide Pop, Split, AgeBank, BankAfter, Locate, CommandQueue.Shaped;
    var q := Pop(cfg, AgeBanks(cfg, m.banks), m.queue).0;
    SplitAlone(cfg, b, m.(queue := q), rest, 0, acts', clock);
    RestIsOneRequest(cfg, rest, if ts == [] then Transaction(false, 0, 0) else ts[0]);
    var queue := if ts == [] then rest else PairFor(cfg, ts[0]);
    assert ts != [] ==> rest + PairFor(cfg, ts[0]) == queue;
    assert Alone(cfg, b, m'.queue, queue, 0, acts', clock + 1);
    assert queue != [] ==> QueueBusy(m'.queue) by {
      assert m'.queue.queues[QueueIndex(cfg, b)] == queue;
    }
    AloneShaped(cfg, b, m'.queue, queue, 0, acts', clock + 1, m'.banks);
  }

  // ---- Reachable states ----

  ghost predicate InRun(cfg: Config, t: Trail) {
    exists events :: Run(cfg, events) == Ok(t)
  }

  lemma RunIsSteady(cfg: Config, t: Trail)
    requires cfg.Valid() && InRun(cfg, t)
    ensures Steady(cfg, t.system) && t.system.controller.clock == |t.trace|
  {
    hide Run, Steady;
    var events :| Run(cfg, events) == Ok(t);
    NoFault(cfg, events);
  }

  lemma StartRun(cfg: Config) returns (t: Trail)
    ensures InRun(cfg, t) && t == Trail(Reset(cfg), [], [], [], [])
  {
    t := Trail(Reset(cfg), [], [], [], []);
    assert Run(cfg, []) == Ok(t);
  }

  lemma ArriveInRun(cfg: Config, t: Trail, tr: Transaction) returns (t': Trail)
    requires InRun(cfg, t) && WillAccept(cfg, t.system.controller)
    ensures InRun(cfg, t') && t'.trace == t.trace && t'.system == t.system.(controller := Accept(cfg, t.system.controller, tr))
  {
    hide Run;
    var events :| Run(cfg, events) == Ok(t);
    assert (events + [Arrive(tr)])[..|events|] == events;
    RunArrives(cfg, events + [Arrive(tr)], t, tr);
    t' := Run(cfg, events + [Arrive(tr)]).value;
  }

  lemma TickInRun(cfg: Config, t: Trail) returns (t': Trail, out: Output)
    requires cfg.Valid() && InRun(cfg, t)
    ensures InRun(cfg, t') && MemorySystem.Shaped(cfg, t.system) && Cycle(cfg, t.system) == Ok((t'.system, out))
    ensures t'.trace == t.trace + [out.issued] && Advance(cfg, t, Tick) == Ok(t')
  {
    hide Run, Steady, Cycle, MemorySystem.Shaped;
    RunIsSteady(cfg, t);
    CycleSteady(cfg, t.system);
    var s' := Cycle(cfg, t.system).value.0;
    out := Cycle(cfg, t.system).value.1;
    var events :| Run(cfg, events) == Ok(t);
    assert (events + [Tick])[..|events|] == events;
    RunTicks(cfg, events + [Tick], t, s', out);
    t' := Run(cfg, events + [Tick]).value;
  }
}
