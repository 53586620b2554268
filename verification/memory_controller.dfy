/** The memory controller: its optimistic bank table, its buses and the phases of one update. */
module MemoryController {
  import opened DramTypes
  import opened Wrappers
  import opened CommandQueue
  import opened RefreshSchedule
  import Rank

  type RankState = Rank.RankState

  datatype ControllerState = ControllerState(
    banks: seq<BankState>,
    queue: QueueState,
    cmdBus: Option<Packet>,
    cmdCyclesLeft: nat,
    dataBus: Option<Packet>,
    dataCyclesLeft: nat,
    writePackets: seq<Packet>,
    writeCountdown: seq<nat>,
    refresh: RefreshState,
    powerDown: bool,
    transactions: seq<Transaction>,
    pendingReads: seq<Transaction>,
    finished: seq<Transaction>,
    clock: int)

  predicate WillAccept(cfg: Config, m: ControllerState) {
    |m.transactions| < cfg.transQueueDepth
  }

  function Accept(cfg: Config, m: ControllerState, t: Transaction): ControllerState
    requires WillAccept(cfg, m)
  {
    m.(transactions := m.transactions + [t])
  }

  /** Read data that has come back over the bus waits to be matched with its transaction. */
  function ReceiveData(m: ControllerState, p: Packet): Result<ControllerState> {
    if !p.kind.DATA? then Err(NotData)
    else Ok(m.(finished := m.finished + [Transaction(false, p.address, p.callback)]))
  }

  /** Implicit state changes: the end of an auto-precharge, of a precharge and of a refresh. */
  function AgeBank(cfg: Config, b: BankState): BankState {
    if b.countdown <= 0 then b
    else if b.countdown > 1 then b.(countdown := b.countdown - 1)
    else match b.lastCommand
         case WRITE_P => b.(state := Precharging, lastCommand := PRECHARGE, countdown := cfg.tRP)
         case READ_P => b.(state := Precharging, lastCommand := PRECHARGE, countdown := cfg.tRP)
         case REFRESH => b.(state := Idle, countdown := 0)
         case PRECHARGE => b.(state := Idle, countdown := 0)
         case _ => b.(countdown := 0)
  }

  function AgeBanks(cfg: Config, banks: seq<BankState>): (t: seq<BankState>)
    ensures |t| == |banks| && forall i :: 0 <= i < |banks| ==> t[i] == AgeBank(cfg, banks[i])
  {
    Rank.MapBanks(banks, b => AgeBank(cfg, b))
  }

  /** The controller's view of one bank after it has issued a command. */
  function BankAfter(cfg: Config, kind: PacketKind, b: BankState, mine: bool, row: nat, clock: int): BankState {
    match kind
    case READ_P =>
      if mine then
        var next := Max(clock + cfg.ReadAutoPre(), b.nextActivate);
        b.(nextActivate := next, nextRead := next, nextWrite := next, lastCommand := READ_P, countdown := cfg.ReadToPre())
      else
        Rank.AfterColumn(b, clock + cfg.ColumnGap(), clock + cfg.ReadToWrite())
    case READ =>
      Rank.AfterColumn(if mine then b.(nextPrecharge := Max(clock + cfg.ReadToPre(), b.nextPrecharge), lastCommand := READ) else b,
                       clock + cfg.ColumnGap(), clock + cfg.ReadToWrite())
    case WRITE_P =>
      if mine then
        var next := Max(clock + cfg.WriteAutoPre(), b.nextActivate);
        b.(nextActivate := next, nextRead := next, nextWrite := next, lastCommand := WRITE_P, countdown := cfg.WriteToPre())
      else
        Rank.AfterColumn(b, clock + cfg.WriteToRead(), clock + cfg.ColumnGap())
    case WRITE =>
      Rank.AfterColumn(if mine then b.(nextPrecharge := Max(clock + cfg.WriteToPre(), b.nextPrecharge), lastCommand := WRITE) else b,
                       clock + cfg.WriteToRead(), clock + cfg.ColumnGap())
    case ACTIVATE =>
      if mine then
        b.(state := RowActive, lastCommand := ACTIVATE, openRow := row,
           nextActivate := Max(clock + cfg.tRC, b.nextActivate),
           nextPrecharge := Max(clock + cfg.tRAS, b.nextPrecharge),
           nextRead := Max(clock + cfg.ColumnDelay(), b.nextRead),
           nextWrite := Max(clock + cfg.ColumnDelay(), b.nextWrite))
      else
        b.(nextActivate := Max(clock + cfg.tRRD, b.nextActivate))
    case PRECHARGE =>
      if mine then
        b.(state := Precharging, lastCommand := PRECHARGE, countdown := cfg.tRP,
           nextActivate := Max(clock + cfg.tRP, b.nextActivate))
      else b
    case REFRESH =>
      b.(nextActivate := clock + cfg.tRFC, state := Refreshing, lastCommand := REFRESH, countdown := cfg.tRFC)
    case DATA => b
  }

  function TableAfter(cfg: Config, p: Packet, banks: seq<BankState>, clock: int): (t: seq<BankState>)
    ensures |t| == |banks|
    ensures forall i :: 0 <= i < |banks| ==> t[i] == BankAfter(cfg, p.kind, banks[i], i == p.bank, p.row, clock)
  {
    seq(|banks|, i requires 0 <= i < |banks| => BankAfter(cfg, p.kind, banks[i], i == p.bank, p.row, clock))
  }

  /** The two controllers differ at most in what is on the buses and waits for the data bus. */
  predicate OnlyBuses(m: ControllerState, m': ControllerState) {
    && m'.banks == m.banks && m'.queue == m.queue && m'.refresh == m.refresh && m'.powerDown == m.powerDown
    && m'.transactions == m.transactions && m'.pendingReads == m.pendingReads && m'.finished == m.finished
    && m'.clock == m.clock
  }

  /** The command that is on the bus reaches the rank when its cycles are used up. */
  function DeliverCommand(cfg: Config, m: ControllerState, r: RankState): (res: Result<(ControllerState, RankState)>)
    ensures res.Ok? ==> OnlyBuses(m, res.value.0)
  {
    if m.cmdBus.None? then Ok((m, r))
    else
      var left := Dec32(m.cmdCyclesLeft);
      if left != 0 then Ok((m.(cmdCyclesLeft := left), r))
      else
        var r' :- Rank.Receive(cfg, r, m.cmdBus.value);
        Ok((m.(cmdCyclesLeft := left, cmdBus := None), r'))
  }

  /** The end of a write burst; the third component is the write that has been completed, if any. */
  function DeliverData(cfg: Config, m: ControllerState, r: RankState): (res: Result<(ControllerState, RankState, Option<Packet>)>)
    ensures res.Ok? ==> OnlyBuses(m, res.value.0)
  {
    if m.dataBus.None? then Ok((m, r, None))
    else
      var left := Dec32(m.dataCyclesLeft);
      if left != 0 then Ok((m.(dataCyclesLeft := left), r, None))
      else
        var r' :- Rank.Receive(cfg, r, m.dataBus.value);
        Ok((m.(dataCyclesLeft := left, dataBus := None), r', m.dataBus))
  }

  /** The write data whose latency has passed goes on the data bus. */
  function SendWriteData(cfg: Config, m: ControllerState): (res: Result<ControllerState>)
    ensures res.Ok? ==> OnlyBuses(m, res.value)
  {
    var aged := m.(writeCountdown := DecAll(m.writeCountdown));
    if |aged.writeCountdown| > 0 && aged.writeCountdown[0] == 0 && |m.writePackets| > 0 then
      if m.dataBus.Some? then Err(DataBusCollision)
      else Ok(aged.(dataBus := Some(m.writePackets[0]), dataCyclesLeft := cfg.BL / 2,
                    writePackets := m.writePackets[1..], writeCountdown := aged.writeCountdown[1..]))
    else
      Ok(aged)
  }

  predicate RefreshShaped(s: RefreshState) {
    |s.countdown| == 1 && s.next == 0
  }

  /** Ask for a refresh when its counter has run out; wake a sleeping rank in time for it. */
  function RequestRefresh(cfg: Config, m: ControllerState, r: RankState): (res: (ControllerState, RankState))
    requires RefreshShaped(m.refresh)
    ensures res.0 == m.(refresh := res.0.refresh, queue := m.queue.(refreshWaiting := res.0.queue.refreshWaiting))
    ensures res.1 == r.(refreshWaiting := res.1.refreshWaiting)
  {
    if Due(m.refresh) then
      (m.(refresh := Rewind(m.refresh, cfg.refreshCycles), queue := m.queue.(refreshWaiting := true)),
       r.(refreshWaiting := true))
    else if m.powerDown && m.refresh.countdown[0] <= cfg.tXP then
      (m, r.(refreshWaiting := true))
    else
      (m, r)
  }

  /** Take a command from the queue, update the table and put the command on the bus. */
  function Issue(cfg: Config, m: ControllerState): (res: Result<ControllerState>)
    requires Shaped(cfg, m.banks, m.queue)
    ensures res.Ok? ==> |res.value.banks| == |m.banks|
  {
    var (queue, popped) := Pop(cfg, m.banks, m.queue);
    if popped.None? then Ok(m.(queue := queue))
    else
      var p := popped.value;
      if p.kind.DATA? then Err(UnexpectedCommand)
      else if m.cmdBus.Some? then Err(CommandBusCollision)
      else
        var m' := m.(queue := queue, banks := TableAfter(cfg, p, m.banks, m.clock),
                     cmdBus := Some(p), cmdCyclesLeft := cfg.tCMD);
        Ok(if p.kind.IsWrite() then
             m'.(writePackets := m.writePackets + [p.(kind := DATA)], writeCountdown := m.writeCountdown + [WriteLatency(cfg)])
           else m')
  }

  /** What issuing leaves alone and what it does to the queue, the command bus and the table. */
  lemma IssueEffect(cfg: Config, m: ControllerState, m': ControllerState)
    requires Shaped(cfg, m.banks, m.queue) && m.cmdBus.None? && Issue(cfg, m) == Ok(m')
    ensures
      var (queue, sent) := Pop(cfg, m.banks, m.queue);
      && m'.queue == queue && m'.cmdBus == sent
      && m'.banks == (if sent.Some? then TableAfter(cfg, sent.value, m.banks, m.clock) else m.banks)
      && (sent.Some? ==> m'.cmdCyclesLeft == cfg.tCMD)
      && (if sent.Some? && sent.value.kind.IsWrite()
          then m'.writePackets == m.writePackets + [sent.value.(kind := DATA)]
               && m'.writeCountdown == m.writeCountdown + [WriteLatency(cfg)]
          else m'.writePackets == m.writePackets && m'.writeCountdown == m.writeCountdown)
    ensures
      && m'.dataBus == m.dataBus && m'.dataCyclesLeft == m.dataCyclesLeft
      && m'.refresh == m.refresh && m'.powerDown == m.powerDown && m'.transactions == m.transactions
      && m'.pendingReads == m.pendingReads && m'.finished == m.finished && m'.clock == m.clock
  {
  }

  /** WL as the unsigned number the countdown list holds. */
  function WriteLatency(cfg: Config): nat {
    if cfg.WL() >= 0 then cfg.WL() else 0xFFFF_FFFF
  }

  function ColumnKind(cfg: Config, isWrite: bool): PacketKind {
    match cfg.rowPolicy
    case OpenPage => if isWrite then WRITE else READ
    case ClosePage => if isWrite then WRITE_P else READ_P
  }

  function ActivateFor(cfg: Config, t: Transaction): Packet {
    var l := Locate(cfg, t.address);
    Packet(ACTIVATE, t.address, l.column, l.row, l.bank, NO_CALLBACK)
  }

  function ColumnFor(cfg: Config, t: Transaction): Packet {
    var l := Locate(cfg, t.address);
    Packet(ColumnKind(cfg, t.isWrite), t.address, l.column, l.row, l.bank, t.callback)
  }

  predicate Splittable(cfg: Config, q: QueueState, t: Transaction) {
    var bank := Locate(cfg, t.address).bank;
    QueueIndex(cfg, bank) < |q.queues| && HasRoom(cfg, q, 2, bank)
  }

  function FirstSplittable(cfg: Config, q: QueueState, ts: seq<Transaction>, from: nat): (i: nat)
    requires from <= |ts|
    ensures from <= i <= |ts|
    ensures i < |ts| ==> Splittable(cfg, q, ts[i])
    ensures forall k :: from <= k < i ==> !Splittable(cfg, q, ts[k])
    decreases |ts| - from
  {
    if from == |ts| || Splittable(cfg, q, ts[from]) then from else FirstSplittable(cfg, q, ts, from + 1)
  }

  /** The oldest transaction whose queue has room becomes an ACTIVATE and a column command. */
  function Split(cfg: Config, m: ControllerState): Result<ControllerState> {
    var i := FirstSplittable(cfg, m.queue, m.transactions, 0);
    if i == |m.transactions| then Ok(m)
    else
      var t := m.transactions[i];
      var q1 :- Enqueue(cfg, m.queue, ActivateFor(cfg, t));
      var q2 :- Enqueue(cfg, q1, ColumnFor(cfg, t));
      Ok(m.(queue := q2, transactions := RemoveAt(m.transactions, i),
            pendingReads := if t.isWrite then m.pendingReads else m.pendingReads + [t]))
  }

  /** What splitting a transaction and returning a read leave alone. */
  lemma SplitEffect(cfg: Config, m: ControllerState, m': ControllerState)
    requires Split(cfg, m) == Ok(m')
    ensures m' == m.(queue := m.queue.(queues := m'.queue.queues), transactions := m'.transactions, pendingReads := m'.pendingReads)
  {
  }

  lemma ReturnEffect(m: ControllerState)
    requires ReturnRead(m).Ok?
    ensures
      var m' := ReturnRead(m).value.0;
      m' == m.(pendingReads := m'.pendingReads, finished := m'.finished)
  {
  }

  /** Put an idle rank to sleep, or wake it when there is work and it has slept long enough. */
  function ManagePower(cfg: Config, m: ControllerState, r: RankState): Result<(ControllerState, RankState)>
    requires |m.banks| > 0
  {
    if !cfg.useLowPower then Ok((m, r))
    else if IsEmpty(m.queue) && !r.refreshWaiting then
      if forall i :: 0 <= i < |m.banks| ==> m.banks[i].state.Idle? then
        var r' :- Rank.PowerDownRank(cfg, r);
        Ok((m.(powerDown := true, banks := Rank.MapBanks(m.banks, b => Rank.PowerDownBank(cfg, b, m.clock))), r'))
      else Ok((m, r))
    else if m.clock >= m.banks[0].nextPowerUp && m.powerDown then
      var r' :- Rank.PowerUp(cfg, r);
      Ok((m.(powerDown := false, banks := Rank.MapBanks(m.banks, b => Rank.PowerUpBank(cfg, b, m.clock))), r'))
    else Ok((m, r))
  }

  function FirstPending(ts: seq<Transaction>, address: nat, from: nat): (i: nat)
    requires from <= |ts|
    ensures from <= i <= |ts|
    ensures i < |ts| ==> ts[i].address == address
    ensures forall k :: from <= k < i ==> ts[k].address != address
    decreases |ts| - from
  {
    if from == |ts| || ts[from].address == address then from else FirstPending(ts, address, from + 1)
  }

  /** Hand at most one finished read back to the processor. */
  function ReturnRead(m: ControllerState): Result<(ControllerState, Option<Transaction>)> {
    if |m.finished| == 0 then Ok((m, None))
    else
      var i := FirstPending(m.pendingReads, m.finished[0].address, 0);
      if i == |m.pendingReads| then Err(NoMatchingRead)
      else Ok((m.(pendingReads := RemoveAt(m.pendingReads, i), finished := m.finished[1..]), Some(m.pendingReads[i])))
  }

  datatype Output = Output(issued: Option<Packet>, written: Option<Packet>, returned: Option<Transaction>)

  /** First half of an update: ages the table and serves both buses. */
  function ServeBuses(cfg: Config, m0: ControllerState, r0: RankState): (res: Result<(ControllerState, RankState, Option<Packet>)>)
    ensures res.Ok? ==> OnlyBuses(m0.(banks := AgeBanks(cfg, m0.banks)), res.value.0)
  {
    var m1 := m0.(banks := AgeBanks(cfg, m0.banks));
    var (m2, r2) :- DeliverCommand(cfg, m1, r0);
    var (m3, r3, written) :- DeliverData(cfg, m2, r2);
    var m4 :- SendWriteData(cfg, m3);
    Ok((m4, r3, written))
  }

  /** Second half of an update, once the command of this cycle has been chosen. */
  function Settle(cfg: Config, m6: ControllerState, r5: RankState): Result<(ControllerState, RankState, Option<Transaction>)>
    requires |m6.banks| > 0
  {
    var m7 :- Split(cfg, m6);
    var (m8, r8) :- ManagePower(cfg, m7, r5);
    var (m9, returned) :- ReturnRead(m8);
    Ok((m9.(refresh := Age(m9.refresh), queue := m9.queue.(clock := m9.queue.clock + 1)), r8, returned))
  }

  /** One update of the controller at one clock cycle. */
  function Update(cfg: Config, m0: ControllerState, r0: RankState): Result<(ControllerState, RankState, Output)>
    requires Shaped(cfg, m0.banks, m0.queue) && RefreshShaped(m0.refresh)
  {
    var (m4, r4, written) :- ServeBuses(cfg, m0, r0);
    var (m5, r5) := RequestRefresh(cfg, m4, r4);
    SameShape(cfg, m0.banks, m0.queue, m5.banks, m5.queue);
    var m6 :- Issue(cfg, m5);
    var (m9, r9, returned) :- Settle(cfg, m6, r5);
    Ok((m9, r9, Output(if m5.cmdBus.None? then m6.cmdBus else None, written, returned)))
  }
}
