/** The command queue: which command goes out on the bus in a cycle. */
module CommandQueue {
  import opened DramTypes
  import opened Wrappers

  datatype QueueState = QueueState(
    queues: seq<seq<Packet>>,
    window: seq<nat>,
    accesses: seq<nat>,
    nextBank: nat,
    nextBankPre: nat,
    refreshWaiting: bool,
    sendAct: bool,
    clock: int)

  function QueueIndex(cfg: Config, bank: nat): nat {
    if cfg.queuing.PerRank? then 0 else bank
  }

  function QueueCount(cfg: Config): nat {
    if cfg.queuing.PerRank? then 1 else cfg.banks
  }

  /** Sizes of the tables; every index the scheduler uses stays inside them. */
  predicate Shaped(cfg: Config, banks: seq<BankState>, q: QueueState) {
    && cfg.banks >= 1
    && |banks| == cfg.banks && |q.accesses| == cfg.banks && |q.queues| == QueueCount(cfg)
    && q.nextBank < cfg.banks && q.nextBankPre < cfg.banks
    && forall i, k :: 0 <= i < |q.queues| && 0 <= k < |q.queues[i]| ==> q.queues[i][k].bank < cfg.banks
  }

  lemma SameShape(cfg: Config, banks: seq<BankState>, q: QueueState, banks': seq<BankState>, q': QueueState)
    requires Shaped(cfg, banks, q) && |banks'| == |banks|
    requires q'.queues == q.queues && q'.accesses == q.accesses && q'.nextBank == q.nextBank && q'.nextBankPre == q.nextBankPre
    ensures Shaped(cfg, banks', q')
  {
  }

  /** Does the controller's own table allow this packet now? */
  predicate Issuable(cfg: Config, banks: seq<BankState>, q: QueueState, p: Packet)
    requires p.bank < |banks| && p.bank < |q.accesses|
  {
    var b := banks[p.bank];
    match p.kind
    case ACTIVATE => (b.state.Idle? || b.state.Refreshing?) && q.clock >= b.nextActivate && |q.window| < 4
    case WRITE => WriteReady(cfg, b, q, p)
    case WRITE_P => WriteReady(cfg, b, q, p)
    case READ => ReadReady(cfg, b, q, p)
    case READ_P => ReadReady(cfg, b, q, p)
    case PRECHARGE => b.state.RowActive? && q.clock >= b.nextPrecharge
    case REFRESH => false
    case DATA => false
  }

  predicate ReadReady(cfg: Config, b: BankState, q: QueueState, p: Packet)
    requires p.bank < |q.accesses|
  {
    b.state.RowActive? && q.clock >= b.nextRead && p.row == b.openRow && q.accesses[p.bank] < cfg.totalRowAccesses
  }

  predicate WriteReady(cfg: Config, b: BankState, q: QueueState, p: Packet)
    requires p.bank < |q.accesses|
  {
    b.state.RowActive? && q.clock >= b.nextWrite && p.row == b.openRow && q.accesses[p.bank] < cfg.totalRowAccesses
  }

  /** What one call of pop decides to send. */
  datatype Choice =
    | Nothing
    | Send(queue: nat, index: nat, searched: bool)
    | CloseRow(bank: nat, searched: bool)
    | SendRefresh

  /** An open bank, or one whose row cycle is not over, holds up a refresh. */
  predicate Blocks(b: BankState, clock: int) {
    b.state.RowActive? || b.nextActivate > clock
  }

  function FirstBlocking(banks: seq<BankState>, clock: int, from: nat): (b: nat)
    requires from <= |banks|
    ensures from <= b <= |banks|
    ensures b < |banks| ==> Blocks(banks[b], clock)
    ensures forall i :: from <= i < b ==> !Blocks(banks[i], clock)
    decreases |banks| - from
  {
    if from == |banks| || Blocks(banks[from], clock) then from else FirstBlocking(banks, clock, from + 1)
  }

  predicate ForRow(p: Packet, bank: nat, row: nat) {
    p.bank == bank && p.row == row
  }

  function FirstForRow(s: seq<Packet>, bank: nat, row: nat, from: nat): (j: nat)
    requires from <= |s|
    ensures from <= j <= |s|
    ensures j < |s| ==> ForRow(s[j], bank, row)
    ensures forall i :: from <= i < j ==> !ForRow(s[i], bank, row)
    decreases |s| - from
  {
    if from == |s| || ForRow(s[from], bank, row) then from else FirstForRow(s, bank, row, from + 1)
  }

  /** While a refresh waits: finish the first open bank, close it, or send the refresh. */
  function RefreshChoice(cfg: Config, banks: seq<BankState>, q: QueueState): Choice
    requires Shaped(cfg, banks, q)
  {
    var b := FirstBlocking(banks, q.clock, 0);
    if b == |banks| then
      if banks[0].state.PowerDown? then Nothing else SendRefresh
    else if !banks[b].state.RowActive? then
      Nothing
    else
      var s := q.queues[QueueIndex(cfg, b)];
      var j := FirstForRow(s, b, banks[b].openRow, 0);
      if j < |s| && !s[j].kind.ACTIVATE? then
        if Issuable(cfg, banks, q, s[j]) then Send(QueueIndex(cfg, b), j, false) else Nothing
      else if cfg.rowPolicy.OpenPage? && q.clock >= banks[b].nextPrecharge then
        CloseRow(b, false)
      else
        Nothing
  }

  /** An earlier column access to the same row must go first. */
  predicate Depends(s: seq<Packet>, i: nat)
    requires i < |s|
  {
    exists j :: 0 <= j < i && !s[j].kind.ACTIVATE? && ForRow(s[j], s[i].bank, s[i].row)
  }

  predicate Paired(s: seq<Packet>, i: nat)
    requires i < |s|
  {
    i > 0 && s[i - 1].kind.ACTIVATE? && s[i - 1].address == s[i].address
  }

  /** The test that the search loop applies to position i of a queue. */
  predicate Eligible(cfg: Config, banks: seq<BankState>, q: QueueState, s: seq<Packet>, i: nat)
    requires i < |s| && |banks| == |q.accesses| == cfg.banks && forall k :: 0 <= k < |s| ==> s[k].bank < cfg.banks
  {
    && Issuable(cfg, banks, q, s[i])
    && match cfg.rowPolicy
       case OpenPage => !Depends(s, i)
       case ClosePage => if cfg.queuing.PerRank? then !Paired(s, i) else i == 0
  }

  function FirstEligible(cfg: Config, banks: seq<BankState>, q: QueueState, s: seq<Packet>, from: nat): (j: nat)
    requires |banks| == |q.accesses| == cfg.banks && forall k :: 0 <= k < |s| ==> s[k].bank < cfg.banks
    requires from <= |s|
    ensures from <= j <= |s|
    ensures j < |s| ==> Eligible(cfg, banks, q, s, j)
    ensures forall i :: from <= i < j ==> !Eligible(cfg, banks, q, s, i)
    decreases |s| - from
  {
    if from == |s| || Eligible(cfg, banks, q, s, from) then from else FirstEligible(cfg, banks, q, s, from + 1)
  }

  /** The k-th queue in round-robin order, counted from the one that is next. */
  function Turn(cfg: Config, start: nat, k: nat): (b: nat)
    requires cfg.banks >= 1
    ensures b < cfg.banks
  {
    (start + k) % cfg.banks
  }

  predicate QueueReady(cfg: Config, banks: seq<BankState>, q: QueueState, i: nat)
    requires Shaped(cfg, banks, q) && i < |q.queues|
  {
    FirstEligible(cfg, banks, q, q.queues[i], 0) < |q.queues[i]|
  }

  function FirstReady(cfg: Config, banks: seq<BankState>, q: QueueState, from: nat): (k: nat)
    requires Shaped(cfg, banks, q) && cfg.queuing.PerRankPerBank? && from <= cfg.banks
    ensures from <= k <= cfg.banks
    ensures k < cfg.banks ==> QueueReady(cfg, banks, q, Turn(cfg, q.nextBank, k))
    ensures forall i :: from <= i < k ==> !QueueReady(cfg, banks, q, Turn(cfg, q.nextBank, i))
    decreases cfg.banks - from
  {
    if from == cfg.banks || QueueReady(cfg, banks, q, Turn(cfg, q.nextBank, from)) then from
    else FirstReady(cfg, banks, q, from + 1)
  }

  /** Round robin over the queues; nothing is taken from a rank that waits for its refresh. */
  function QueueChoice(cfg: Config, banks: seq<BankState>, q: QueueState): Choice
    requires Shaped(cfg, banks, q)
  {
    if q.refreshWaiting then Nothing
    else if cfg.queuing.PerRank? then
      if QueueReady(cfg, banks, q, 0) then Send(0, FirstEligible(cfg, banks, q, q.queues[0], 0), true) else Nothing
    else
      var k := FirstReady(cfg, banks, q, 0);
      if k == cfg.banks then Nothing
      else
        var b := Turn(cfg, q.nextBank, k);
        Send(b, FirstEligible(cfg, banks, q, q.queues[b], 0), true)
  }

  /** An open bank may be closed when no queued command wants its row, or when it has served enough of them. */
  predicate Closable(cfg: Config, banks: seq<BankState>, q: QueueState, b: nat)
    requires Shaped(cfg, banks, q) && b < cfg.banks
  {
    && banks[b].state.RowActive?
    && (|| FirstForRow(q.queues[QueueIndex(cfg, b)], b, banks[b].openRow, 0) == |q.queues[QueueIndex(cfg, b)]|
        || q.accesses[b] == cfg.totalRowAccesses)
    && q.clock >= banks[b].nextPrecharge
  }

  function FirstClosable(cfg: Config, banks: seq<BankState>, q: QueueState, from: nat): (k: nat)
    requires Shaped(cfg, banks, q) && from <= cfg.banks
    ensures from <= k <= cfg.banks
    ensures k < cfg.banks ==> Closable(cfg, banks, q, Turn(cfg, q.nextBankPre, k))
    ensures forall i :: from <= i < k ==> !Closable(cfg, banks, q, Turn(cfg, q.nextBankPre, i))
    decreases cfg.banks - from
  {
    if from == cfg.banks || Closable(cfg, banks, q, Turn(cfg, q.nextBankPre, from)) then from
    else FirstClosable(cfg, banks, q, from + 1)
  }

  function PrechargeChoice(cfg: Config, banks: seq<BankState>, q: QueueState): Choice
    requires Shaped(cfg, banks, q)
  {
    var k := FirstClosable(cfg, banks, q, 0);
    if k == cfg.banks then Nothing else CloseRow(Turn(cfg, q.nextBankPre, k), true)
  }

  function Choose(cfg: Config, banks: seq<BankState>, q: QueueState): (c: Choice)
    requires Shaped(cfg, banks, q)
    ensures c.Send? ==>
              && c.queue < |q.queues| && c.index < |q.queues[c.queue]|
              && Issuable(cfg, banks, q, q.queues[c.queue][c.index])
    ensures c.CloseRow? ==> c.bank < cfg.banks && banks[c.bank].state.RowActive? && q.clock >= banks[c.bank].nextPrecharge
    ensures c.CloseRow? ==> cfg.rowPolicy.OpenPage?
    ensures c.SendRefresh? ==> q.refreshWaiting && forall i :: 0 <= i < cfg.banks ==> !Blocks(banks[i], q.clock)
    ensures c.SendRefresh? ==> !banks[0].state.PowerDown?
  {
    var c0 := if q.refreshWaiting then RefreshChoice(cfg, banks, q) else Nothing;
    if !c0.Nothing? then c0
    else
      var c1 := QueueChoice(cfg, banks, q);
      if !c1.Nothing? then c1
      else if cfg.rowPolicy.OpenPage? then PrechargeChoice(cfg, banks, q)
      else Nothing
  }

  function PrechargePacket(bank: nat): Packet { Packet(PRECHARGE, 0, 0, 0, bank, NO_CALLBACK) }

  const REFRESH_PACKET := Packet(REFRESH, 0, 0, 0, 0, NO_CALLBACK)

  /** The packet a choice stands for. */
  function Chosen(cfg: Config, q: QueueState, c: Choice): Packet
    requires !c.Nothing?
    requires c.Send? ==> c.queue < |q.queues| && c.index < |q.queues[c.queue]|
  {
    match c
    case Send(i, k, _) => q.queues[i][k]
    case CloseRow(b, _) => PrechargePacket(b)
    case SendRefresh => REFRESH_PACKET
  }

  /** In open page a column access that finds its row open takes its unused ACTIVATE out of the queue with it. */
  predicate DropsActivate(cfg: Config, s: seq<Packet>, c: Choice)
    requires c.Send? && c.index < |s|
  {
    c.searched && cfg.rowPolicy.OpenPage? && c.index > 0 && s[c.index - 1].kind.ACTIVATE?
  }

  function Removed(cfg: Config, s: seq<Packet>, c: Choice): seq<Packet>
    requires c.Send? && c.index < |s|
  {
    if DropsActivate(cfg, s, c) then RemovePairAt(s, c.index) else RemoveAt(s, c.index)
  }

  /** Queues, counters and pointers after a choice has been carried out. */
  function Taken(cfg: Config, q: QueueState, c: Choice): QueueState
    requires !c.Nothing?
    requires c.Send? ==> c.queue < |q.queues| && c.index < |q.queues[c.queue]| && q.queues[c.queue][c.index].bank < |q.accesses|
    requires c.CloseRow? ==> c.bank < |q.accesses|
  {
    match c
    case Send(i, k, searched) =>
      var s := q.queues[i];
      var bank := s[k].bank;
      q.(queues := q.queues[i := Removed(cfg, s, c)],
         accesses := if DropsActivate(cfg, s, c) then q.accesses[bank := q.accesses[bank] + 1] else q.accesses,
         nextBank := if searched && cfg.queuing.PerRankPerBank? then i else q.nextBank)
    case CloseRow(b, searched) =>
      q.(accesses := q.accesses[b := 0], nextBankPre := if searched then b else q.nextBankPre)
    case SendRefresh =>
      q.(refreshWaiting := false)
  }

  /** The posted-CAS flag, the round-robin step and the new entry of the activation window. */
  function Finished(cfg: Config, q: QueueState, kind: PacketKind): QueueState
    requires cfg.banks >= 1
  {
    var hold := cfg.AL > 0 && q.sendAct;
    q.(sendAct := !hold,
       nextBank := if hold then q.nextBank else Turn(cfg, q.nextBank, 1),
       window := if kind.ACTIVATE? then q.window + [cfg.tFAW] else q.window)
  }

  /** Every activation counter ages by one and the oldest leaves when it reaches zero. */
  function AgeWindow(w: seq<nat>): seq<nat> {
    var aged := DecAll(w);
    if |aged| > 0 && aged[0] == 0 then aged[1..] else aged
  }

  /** One call of pop: the packet to send, if any, and the queue afterwards. */
  function Pop(cfg: Config, banks: seq<BankState>, q: QueueState): (QueueState, Option<Packet>)
    requires Shaped(cfg, banks, q)
  {
    var aged := q.(window := AgeWindow(q.window));
    var c := Choose(cfg, banks, aged);
    if c.Nothing? then (aged, None)
    else
      var p := Chosen(cfg, aged, c);
      (Finished(cfg, Taken(cfg, aged, c), p.kind), Some(p))
  }

  /** The choice that pop makes, after the window has aged. */
  function Decision(cfg: Config, banks: seq<BankState>, q: QueueState): Choice
    requires Shaped(cfg, banks, q)
  {
    Choose(cfg, banks, q.(window := AgeWindow(q.window)))
  }

  /** What pop does to the queues, by choice. */
  lemma PopQueues(cfg: Config, banks: seq<BankState>, q: QueueState)
    requires Shaped(cfg, banks, q)
    ensures
      var (q', sent) := Pop(cfg, banks, q);
      var c := Decision(cfg, banks, q);
      match c
      case Nothing => sent.None? && q'.queues == q.queues
      case Send(n, i, _) =>
        && n < |q.queues| && i < |q.queues[n]| && sent == Some(q.queues[n][i])
        && q'.queues == q.queues[n := Removed(cfg, q.queues[n], c)]
      case CloseRow(b, _) => sent == Some(PrechargePacket(b)) && q'.queues == q.queues
      case SendRefresh => sent == Some(REFRESH_PACKET) && q'.queues == q.queues
  {
  }

  predicate HasRoom(cfg: Config, q: QueueState, count: nat, bank: nat)
    requires QueueIndex(cfg, bank) < |q.queues|
  {
    cfg.cmdQueueDepth - |q.queues[QueueIndex(cfg, bank)]| >= count
  }

  function Enqueue(cfg: Config, q: QueueState, p: Packet): Result<QueueState>
    requires QueueIndex(cfg, p.bank) < |q.queues|
  {
    var i := QueueIndex(cfg, p.bank);
    var s := q.queues[i] + [p];
    if |s| > cfg.cmdQueueDepth then Err(QueueOverflow) else Ok(q.(queues := q.queues[i := s]))
  }

  predicate IsEmpty(q: QueueState) {
    forall i :: 0 <= i < |q.queues| ==> |q.queues[i]| == 0
  }
}
