/** One rank of DRAM devices: its own bank table, its legality checks and its read-return pipeline. */
module Rank {
  import opened DramTypes
  import opened Wrappers

  datatype RankState = RankState(
    banks: seq<BankState>,
    poweredDown: bool,
    refreshWaiting: bool,
    readPackets: seq<Packet>,
    readCountdown: seq<nat>,
    outgoing: Option<Packet>,
    dataCyclesLeft: nat,
    clock: int)

  /** May the rank execute a command of this kind on a bank in state b at the given cycle? */
  predicate BankAllows(kind: PacketKind, b: BankState, row: nat, clock: int) {
    match kind
    case READ => b.state.RowActive? && clock >= b.nextRead && row == b.openRow
    case READ_P => b.state.RowActive? && clock >= b.nextRead && row == b.openRow
    case WRITE => b.state.RowActive? && clock >= b.nextWrite && row == b.openRow
    case WRITE_P => b.state.RowActive? && clock >= b.nextWrite && row == b.openRow
    case ACTIVATE => b.state.Idle? && clock >= b.nextActivate
    case PRECHARGE => b.state.RowActive? && clock >= b.nextPrecharge
    case REFRESH => b.state.Idle?
    case DATA => true
  }

  /** A refresh is checked against every bank, every other command against its own bank. */
  predicate Allows(r: RankState, p: Packet) {
    if p.kind.REFRESH? then
      forall i :: 0 <= i < |r.banks| ==> BankAllows(REFRESH, r.banks[i], p.row, r.clock)
    else
      p.bank < |r.banks| && BankAllows(p.kind, r.banks[p.bank], p.row, r.clock)
  }

  function Complaint(kind: PacketKind): Fault {
    match kind
    case READ => IllegalRead
    case READ_P => IllegalRead
    case WRITE => IllegalWrite
    case WRITE_P => IllegalWrite
    case ACTIVATE => IllegalActivate
    case PRECHARGE => IllegalPrecharge
    case REFRESH => IllegalRefresh
    case DATA => UnknownPacket
  }

  /** The rank's view of one bank after a command; `mine` says whether the command names this bank. */
  function BankAfter(cfg: Config, kind: PacketKind, b: BankState, mine: bool, row: nat, clock: int): BankState {
    match kind
    case READ =>
      AfterColumn(if mine then b.(nextPrecharge := Max(b.nextPrecharge, clock + cfg.ReadToPre())) else b,
                  clock + cfg.ColumnGap(), clock + cfg.ReadToWrite())
    case READ_P =>
      AfterColumn(if mine then b.(state := Idle, nextActivate := Max(b.nextActivate, clock + cfg.ReadAutoPre())) else b,
                  clock + cfg.ColumnGap(), clock + cfg.ReadToWrite())
    case WRITE =>
      AfterColumn(if mine then b.(nextPrecharge := Max(b.nextPrecharge, clock + cfg.WriteToPre())) else b,
                  clock + cfg.WriteToRead(), clock + cfg.ColumnGap())
    case WRITE_P =>
      AfterColumn(if mine then b.(state := Idle, nextActivate := Max(b.nextActivate, clock + cfg.WriteAutoPre())) else b,
                  clock + cfg.WriteToRead(), clock + cfg.ColumnGap())
    case ACTIVATE =>
      if mine then
        b.(state := RowActive, openRow := row, nextActivate := clock + cfg.tRC,
           nextRead := clock + cfg.ColumnDelay(), nextWrite := clock + cfg.ColumnDelay(),
           nextPrecharge := clock + cfg.tRAS)
      else
        b.(nextActivate := Max(b.nextActivate, clock + cfg.tRRD))
    case PRECHARGE =>
      if mine then b.(state := Idle, nextActivate := Max(b.nextActivate, clock + cfg.tRP)) else b
    case REFRESH =>
      b.(nextActivate := clock + cfg.tRFC)
    case DATA =>
      b
  }

  function AfterColumn(b: BankState, read: int, write: int): BankState {
    b.(nextRead := Max(b.nextRead, read), nextWrite := Max(b.nextWrite, write))
  }

  function TableAfter(cfg: Config, p: Packet, banks: seq<BankState>, clock: int): (t: seq<BankState>)
    ensures |t| == |banks|
    ensures forall i :: 0 <= i < |banks| ==> t[i] == BankAfter(cfg, p.kind, banks[i], i == p.bank, p.row, clock)
  {
    seq(|banks|, i requires 0 <= i < |banks| => BankAfter(cfg, p.kind, banks[i], i == p.bank, p.row, clock))
  }

  /** Delivery of a packet from the controller; an illegal one ends the simulation. */
  function Receive(cfg: Config, r: RankState, p: Packet): Result<RankState> {
    if !Allows(r, p) then Err(Complaint(p.kind))
    else
      var r' := r.(banks := TableAfter(cfg, p, r.banks, r.clock));
      if p.kind.IsRead() then
        Ok(r'.(readPackets := r.readPackets + [p.(kind := DATA)], readCountdown := r.readCountdown + [cfg.CL + cfg.AL]))
      else if p.kind.REFRESH? then
        Ok(r'.(refreshWaiting := false))
      else
        Ok(r')
  }

  /** Start of a cycle: the packet that leaves the data bus, if any, and the rank afterwards. */
  function Update(cfg: Config, r: RankState): (RankState, Option<Packet>) {
    var left := if r.outgoing.Some? then Dec32(r.dataCyclesLeft) else r.dataCyclesLeft;
    var delivered := if r.outgoing.Some? && left == 0 then r.outgoing else None;
    var kept := if r.outgoing.Some? && left == 0 then None else r.outgoing;
    var aged := r.(outgoing := kept, dataCyclesLeft := left, readCountdown := DecAll(r.readCountdown));
    if |aged.readCountdown| > 0 && aged.readCountdown[0] == 0 && |aged.readPackets| > 0 then
      (aged.(outgoing := Some(aged.readPackets[0]), dataCyclesLeft := cfg.BL / 2,
             readPackets := aged.readPackets[1..], readCountdown := aged.readCountdown[1..]), delivered)
    else
      (aged, delivered)
  }

  function PowerUpBank(cfg: Config, b: BankState, clock: int): BankState {
    b.(nextActivate := clock + cfg.tXP, state := Idle)
  }

  function PowerDownBank(cfg: Config, b: BankState, clock: int): BankState {
    b.(nextPowerUp := clock + cfg.tCKE, state := PowerDown)
  }

  function MapBanks(banks: seq<BankState>, f: BankState -> BankState): (t: seq<BankState>)
    ensures |t| == |banks|
    ensures forall i :: 0 <= i < |banks| ==> t[i] == f(banks[i])
  {
    seq(|banks|, i requires 0 <= i < |banks| => f(banks[i]))
  }

  function PowerUp(cfg: Config, r: RankState): Result<RankState> {
    if !r.poweredDown || exists i :: 0 <= i < |r.banks| && r.banks[i].nextPowerUp > r.clock then Err(IllegalPowerUp)
    else Ok(r.(poweredDown := false, banks := MapBanks(r.banks, b => PowerUpBank(cfg, b, r.clock))))
  }

  function PowerDownRank(cfg: Config, r: RankState): Result<RankState> {
    if exists i :: 0 <= i < |r.banks| && !r.banks[i].state.Idle? then Err(IllegalPowerDown)
    else Ok(r.(poweredDown := true, banks := MapBanks(r.banks, b => PowerDownBank(cfg, b, r.clock))))
  }
}
