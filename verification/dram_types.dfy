/** Vocabulary shared by the DDR scheduler: packets, bank states, timing parameters and faults. */
module DramTypes {
  import opened AddressMapping
  import opened BitOps

  /** Every place where the simulator kills the process instead of going on. */
  datatype Fault =
    | IllegalRead | IllegalWrite | IllegalActivate | IllegalPrecharge | IllegalRefresh | UnknownPacket
    | IllegalPowerUp | IllegalPowerDown
    | CommandBusCollision | DataBusCollision | UnexpectedCommand | NotData | QueueOverflow | NoMatchingRead | IndexOutOfRange

  datatype Result<+T> = Ok(value: T) | Err(fault: Fault) {
    predicate IsFailure() { Err? }
    function PropagateFailure<U>(): Result<U>
      requires Err?
    {
      Err(fault)
    }
    function Extract(): T
      requires Ok?
    {
      value
    }
  }

  datatype PacketKind = READ | READ_P | WRITE | WRITE_P | ACTIVATE | PRECHARGE | REFRESH | DATA {
    predicate IsRead() { READ? || READ_P? }
    predicate IsWrite() { WRITE? || WRITE_P? }
    predicate IsColumn() { IsRead() || IsWrite() }
  }

  /** A packet on one of the buses. The rank is left out: the constructor never stores it, so it is always 0. */
  datatype Packet = Packet(kind: PacketKind, address: nat, column: nat, row: nat, bank: nat, callback: int)

  const NO_CALLBACK := -1

  datatype Transaction = Transaction(isWrite: bool, address: nat, callback: int)

  datatype CurrentBankState = Idle | RowActive | Precharging | Refreshing | PowerDown

  datatype BankState = BankState(
    state: CurrentBankState,
    openRow: nat,
    nextRead: int,
    nextWrite: int,
    nextActivate: int,
    nextPrecharge: int,
    nextPowerUp: int,
    lastCommand: PacketKind,
    countdown: int)

  const RESET_BANK := BankState(Idle, 0, 0, 0, 0, 0, 0, READ, 0)

  datatype RowBufferPolicy = OpenPage | ClosePage
  datatype QueuingStructure = PerRank | PerRankPerBank

  /** Timing and sizing parameters; the derived delays follow the formulas of the configuration class. */
  datatype Config = Config(
    banks: nat,
    AL: nat, CL: nat, BL: nat,
    tRAS: nat, tRCD: nat, tRRD: nat, tRC: nat, tRP: nat, tCCD: nat, tRTP: nat, tWTR: nat, tWR: nat,
    tRTRS: nat, tRFC: nat, tFAW: nat, tCKE: nat, tXP: nat, tCMD: nat,
    refreshCycles: nat,
    transQueueDepth: nat,
    cmdQueueDepth: nat,
    totalRowAccesses: nat,
    useLowPower: bool,
    rowPolicy: RowBufferPolicy,
    queuing: QueuingStructure,
    geometry: Geometry)
  {
    function RL(): int { CL + AL }
    function WL(): int { RL() - 1 }
    function Burst(): int { BL / 2 }
    function ColumnGap(): int { Max(tCCD, BL / 2) }
    function ColumnDelay(): int { tRCD - AL }
    function ReadToPre(): int { AL + BL / 2 + Max(tRTP, tCCD) - tCCD }
    function WriteToPre(): int { WL() + BL / 2 + tWR }
    function ReadToWrite(): int { RL() + BL / 2 + tRTRS - WL() }
    function ReadAutoPre(): int { AL + tRTP + tRP }
    function WriteAutoPre(): int { WL() + BL / 2 + tWR + tRP }
    function WriteToRead(): int { WL() + BL / 2 + tWTR }

    /**
     * What a configuration must satisfy for the unsigned delay formulas not to wrap and the countdowns
     * to make sense: a one-cycle command bus, a burst of at least one cycle, a positive write latency,
     * and an auto-precharge that is not over before the controller has noticed it.
     */
    predicate Valid() {
      && banks >= 1
      && tCMD == 1 && BL >= 2 && WL() >= 1 && tRP >= 1 && tRFC >= 1 && tFAW >= 1
      && AL <= tRCD
      && ReadAutoPre() >= ReadToPre()
      && totalRowAccesses >= 1
      && refreshCycles >= 1
      && geometry.rankBits == 0
      && Pow2(geometry.bankBits) == banks
    }
  }

  function Max(a: int, b: int): (m: int)
    ensures m >= a && m >= b && (m == a || m == b)
  {
    if a >= b then a else b
  }

  function Min(a: int, b: int): (m: int)
    ensures m <= a && m <= b && (m == a || m == b)
  {
    if a <= b then a else b
  }

  /** Decrement of a 32-bit unsigned counter, wrap-around included. */
  function Dec32(x: nat): (r: nat)
    ensures x > 0 ==> r == x - 1
  {
    if x == 0 then 0xFFFF_FFFF else x - 1
  }

  function DecAll(s: seq<nat>): (r: seq<nat>)
    ensures |r| == |s| && forall i :: 0 <= i < |s| ==> r[i] == Dec32(s[i])
  {
    seq(|s|, i requires 0 <= i < |s| => Dec32(s[i]))
  }

  function RemoveAt<T>(s: seq<T>, i: nat): (r: seq<T>)
    requires i < |s|
    ensures |r| == |s| - 1
    ensures forall k :: 0 <= k < i ==> r[k] == s[k]
    ensures forall k :: i <= k < |r| ==> r[k] == s[k + 1]
  {
    s[..i] + s[i + 1..]
  }

  /** Removal of position i and of the one before it. */
  function RemovePairAt<T>(s: seq<T>, i: nat): (r: seq<T>)
    requires 0 < i < |s|
    ensures |r| == |s| - 2
    ensures forall k :: 0 <= k < i - 1 ==> r[k] == s[k]
    ensures forall k :: i - 1 <= k < |r| ==> r[k] == s[k + 2]
  {
    s[..i - 1] + s[i + 1..]
  }

  function Locate(cfg: Config, address: nat): (l: Location)
    ensures l.bank < Pow2(cfg.geometry.bankBits)
  {
    var l := Decode(cfg.geometry, address);
    assert Get(l, Bank) < Pow2(Width(cfg.geometry, Bank));
    l
  }
}
