/** Exactly when the spacing of column commands fails: two requests for one bank, followed cycle by cycle. */
module TurnaroundGap {
  import opened BitOps
  import opened DramTypes
  import opened AddressMapping
  import opened Wrappers
  import opened MemoryController
  import opened MemorySystem
  import opened CommandSpacing
  import opened RunSpacing
  import opened QuietRun
  import CommandQueue

  // ---- One bank in close page ----

  /** A pair waits for its ACTIVATE, a single column command for itself. */
  lemma HeadOnly(cfg: Config, b: nat, banks: seq<BankState>, q: CommandQueue.QueueState, s: seq<Packet>, acts: nat, clock: nat)
    requires cfg.Valid() && cfg.rowPolicy.ClosePage? && |banks| == cfg.banks && b < cfg.banks
    requires Alone(cfg, b, q, s, 0, acts, clock) && acts < 4 && OneRequest(cfg, s) && !banks[b].state.Refreshing?
    ensures FirstAt(cfg, banks, q, s, if s != [] && Lets(banks[b], s[0], clock) then 0 else |s|)
  {
    assert |s| == 2 ==> CommandQueue.Paired(s, 1);
  }

  lemma PopHeld(cfg: Config, b: nat, m: ControllerState, clock: nat, bank: BankState, s: seq<Packet>, acts: nat,
                ts: seq<Transaction>)
    requires cfg.Valid() && cfg.rowPolicy.ClosePage? && Held(cfg, b, m, clock, bank, s, acts, ts) && acts < 4
    requires !AgeBank(cfg, bank).state.Refreshing?
    ensures CommandQueue.Shaped(cfg, AgeBanks(cfg, m.banks), m.queue)
    ensures
      var (q, sent) := CommandQueue.Pop(cfg, AgeBanks(cfg, m.banks), m.queue);
      if s != [] && Lets(AgeBank(cfg, bank), s[0], clock) then
        sent == Some(s[0]) && Alone(cfg, b, q, s[1..], 0, Acts(s, acts), clock)
      else
        sent == None && Alone(cfg, b, q, s, 0, acts, clock)
  {
    hide CommandQueue.Pop, AgeBank, Lets, CommandQueue.Eligible;
    var aged := AgeBanks(cfg, m.banks);
    HeadOnly(cfg, b, aged, m.queue.(window := CommandQueue.AgeWindow(m.queue.window)), s, acts, clock);
    var i := if s != [] && Lets(aged[b], s[0], clock) then 0 else |s|;
    PopAlone(cfg, b, aged, m.queue, s, 0, acts, clock, i);
    assert i < |s| ==> CommandQueue.Removed(cfg, s, CommandQueue.Send(CommandQueue.QueueIndex(cfg, b), 0, true)) == s[1..];
  }

  /** One update of the held bank. */
  lemma HeldStep(cfg: Config, b: nat, m: ControllerState, sent: Option<Packet>, m': ControllerState, clock: nat,
                 bank: BankState, s: seq<Packet>, acts: nat, ts: seq<Transaction>)
    requires cfg.Valid() && cfg.rowPolicy.ClosePage? && Held(cfg, b, m, clock, bank, s, acts, ts) && acts < 4
    requires !cfg.useLowPower && Scheduled(cfg, m, sent, m') && m'.clock == clock + 1 <= cfg.refreshCycles
    requires !AgeBank(cfg, bank).state.Refreshing?
    requires ts == [] || (|ts| == 1 && s == [] && Locate(cfg, ts[0].address).bank == b && cfg.cmdQueueDepth >= 2)
    ensures sent == if s != [] && Lets(AgeBank(cfg, bank), s[0], clock) then Some(s[0]) else None
    ensures Held(cfg, b, m', clock + 1, BankNext(cfg, bank, sent, true, clock),
                 if sent.Some? then s[1..] else if ts == [] then s else PairFor(cfg, ts[0]),
                 if sent.Some? then Acts(s, acts) else acts, [])
  {
    hide CommandQueue.Pop, Lets, Locate, OneRequest, CommandQueue.Shaped, AgeBank, BankNext;
    PopHeld(cfg, b, m, clock, bank, s, acts, ts);
    RestIsOneRequest(cfg, s, Transaction(false, 0, 0));
    HeldNext(cfg, b, m, sent, m', clock, bank, s, acts, ts, if sent.Some? then s[1..] else s, if sent.Some? then Acts(s, acts) else acts);
  }

  // ---- The bank opens, serves its column command and closes itself ----

  predicate Opened(cfg: Config, bank: BankState, u: int, row: nat) {
    && bank.state.RowActive? && bank.openRow == row && bank.countdown == 0
    && bank.nextRead == bank.nextWrite == u + cfg.ColumnDelay() && bank.nextActivate == u + cfg.tRC
  }

  function AutoPre(cfg: Config, kind: PacketKind): int {
    if kind.READ_P? then cfg.ReadAutoPre() else cfg.WriteAutoPre()
  }

  function ToPre(cfg: Config, kind: PacketKind): int {
    if kind.READ_P? then cfg.ReadToPre() else cfg.WriteToPre()
  }

  /** The cycles until a bank that closed itself may be activated, if no refresh comes in between. */
  function Closed(cfg: Config, kind: PacketKind): int {
    Max(AutoPre(cfg, kind), ToPre(cfg, kind) + cfg.tRP)
  }

  /** The bank k updates after a column command of the given kind; next is the cycle its table then allows. */
  predicate ClosedFor(cfg: Config, bank: BankState, kind: PacketKind, next: int, k: nat) {
    && bank.nextActivate == bank.nextRead == bank.nextWrite == next
    && if k < ToPre(cfg, kind) then
         bank.state.RowActive? && bank.lastCommand == kind && bank.countdown == ToPre(cfg, kind) - k
       else if k < ToPre(cfg, kind) + cfg.tRP then
         bank.state.Precharging? && bank.lastCommand.PRECHARGE? && bank.countdown == ToPre(cfg, kind) + cfg.tRP - k
       else
         bank.state.Idle? && bank.countdown == 0
  }

  lemma ClosedAges(cfg: Config, bank: BankState, kind: PacketKind, next: int, k: nat)
    requires cfg.Valid() && (kind.READ_P? || kind.WRITE_P?) && ClosedFor(cfg, bank, kind, next, k)
    ensures ClosedFor(cfg, AgeBank(cfg, bank), kind, next, k + 1)
  {
  }

  lemma ColumnCloses(cfg: Config, bank: BankState, c: Packet, u: int, v: int)
    requires cfg.Valid() && (c.kind.READ_P? || c.kind.WRITE_P?) && Opened(cfg, bank, u, c.row)
    ensures ClosedFor(cfg, BankAfter(cfg, c.kind, bank, true, c.row, v), c.kind, Max(v + AutoPre(cfg, c.kind), u + cfg.tRC), 0)
  {
  }

  lemma ActivateOpens(cfg: Config, bank: BankState, row: nat, u: int)
    requires cfg.Valid() && bank.countdown == 0 && bank.nextActivate <= u && bank.nextRead <= u && bank.nextWrite <= u
    ensures Opened(cfg, BankAfter(cfg, ACTIVATE, bank, true, row, u), u, row)
  {
  }

  // ---- Runs ----

  /** A run stands before the given cycle with the bank held. */
  ghost predicate At(cfg: Config, b: nat, t: Trail, clock: nat, bank: BankState, s: seq<Packet>, acts: nat,
                     ts: seq<Transaction>)
  {
    InRun(cfg, t) && t.system.pending == [] && |t.trace| == clock && Held(cfg, b, t.system.controller, clock, bank, s, acts, ts)
  }

  /** Close page, no low power, and room for the two packets of a request. */
  predicate Plain(cfg: Config) {
    && cfg.Valid() && cfg.rowPolicy.ClosePage? && !cfg.useLowPower
    && cfg.cmdQueueDepth >= 2 && cfg.transQueueDepth >= 1
  }

  lemma TickAt(cfg: Config, b: nat, t: Trail, clock: nat, bank: BankState, s: seq<Packet>, acts: nat, ts: seq<Transaction>)
    returns (t': Trail, sent: Option<Packet>)
    requires Plain(cfg) && At(cfg, b, t, clock, bank, s, acts, ts) && acts < 4 && clock < cfg.refreshCycles
    requires !AgeBank(cfg, bank).state.Refreshing?
    requires ts == [] || (|ts| == 1 && s == [] && Locate(cfg, ts[0].address).bank == b)
    ensures t'.trace == t.trace + [sent]
    ensures sent == if s != [] && Lets(AgeBank(cfg, bank), s[0], clock) then Some(s[0]) else None
    ensures At(cfg, b, t', clock + 1, BankNext(cfg, bank, sent, true, clock),
               if sent.Some? then s[1..] else if ts == [] then s else PairFor(cfg, ts[0]),
               if sent.Some? then Acts(s, acts) else acts, [])
  {
    hide InRun, Cycle, Scheduled, Runs.Steady, Locate, Lets, AgeBank, BankNext, MemorySystem.Shaped, CommandQueue.Shaped, Alone,
      OneRequest;
    RunIsSteady(cfg, t);
    CycleSchedules(cfg, t.system);
    var out;
    t', out := TickInRun(cfg, t);
    sent := out.issued;
    RunIsSteady(cfg, t');
    HeldStep(cfg, b, t.system.controller, sent, t'.system.controller, clock, bank, s, acts, ts);
  }

  /** The column command goes out as soon as the row has been open long enough. */
  lemma {:induction false} WaitForColumn(cfg: Config, b: nat, t: Trail, clock: nat, bank: BankState, c: Packet, acts: nat, u: nat)
    returns (t': Trail, bank': BankState)
    requires Plain(cfg) && At(cfg, b, t, clock, bank, [c], acts, []) && acts < 4 && Opened(cfg, bank, u, c.row)
    requires c.kind.READ_P? || c.kind.WRITE_P?
    requires u < clock <= u + FirstColumn(cfg) < cfg.refreshCycles
    ensures
      var v := u + FirstColumn(cfg);
      && t.trace <= t'.trace && |t'.trace| == v + 1 && t'.trace[v] == Some(c)
      && At(cfg, b, t', v + 1, bank', [], acts, [])
      && ClosedFor(cfg, bank', c.kind, Max(v + AutoPre(cfg, c.kind), u + cfg.tRC), 0)
    decreases u + FirstColumn(cfg) - clock
  {
    hide At, ClosedFor, BankAfter, AutoPre;
    assert AgeBank(cfg, bank) == bank;
    var sent;
    t', sent := TickAt(cfg, b, t, clock, bank, [c], acts, []);
    AtLength(cfg, b, t, clock, bank, [c], acts, []);
    if clock == u + FirstColumn(cfg) {
      bank' := BankNext(cfg, bank, sent, true, clock);
      ColumnCloses(cfg, bank, c, u, clock);
      assert [c][1..] == [];
    } else {
      t', bank' := WaitForColumn(cfg, b, t', clock + 1, bank, c, acts, u);
    }
  }

  lemma AtLength(cfg: Config, b: nat, t: Trail, clock: nat, bank: BankState, s: seq<Packet>, acts: nat, ts: seq<Transaction>)
    requires At(cfg, b, t, clock, bank, s, acts, ts)
    ensures |t.trace| == clock
  {
  }

  /** The bank is activated again as soon as its table and its precharge allow it. */
  lemma {:induction false} WaitForActivate(cfg: Config, b: nat, t: Trail, clock: nat, bank: BankState, a: Packet, c: Packet,
                                           acts: nat, kind: PacketKind, v: nat, next: int)
    returns (t': Trail, bank': BankState)
    requires Plain(cfg) && At(cfg, b, t, clock, bank, [a, c], acts, []) && acts < 4 && a.kind.ACTIVATE?
    requires (kind.READ_P? || kind.WRITE_P?) && v < clock <= Max(v + Closed(cfg, kind), next) < cfg.refreshCycles
    requires ClosedFor(cfg, bank, kind, next, clock - 1 - v) && v + AutoPre(cfg, kind) <= next
    ensures
      var u := Max(v + Closed(cfg, kind), next);
      && t.trace <= t'.trace && At(cfg, b, t', u + 1, bank', [c], acts + 1, []) && Opened(cfg, bank', u, a.row)
    decreases Max(v + Closed(cfg, kind), next) - clock
  {
    hide At, BankAfter, Opened, AgeBank;
    var aged := AgeBank(cfg, bank);
    ClosedAges(cfg, bank, kind, next, clock - 1 - v);
    var sent;
    t', sent := TickAt(cfg, b, t, clock, bank, [a, c], acts, []);
    AtLength(cfg, b, t, clock, bank, [a, c], acts, []);
    if clock == Max(v + Closed(cfg, kind), next) {
      bank' := BankNext(cfg, bank, sent, true, clock);
      ActivateOpens(cfg, aged, a.row, clock);
      assert [a, c][1..] == [c];
    } else {
      t', bank' := WaitForActivate(cfg, b, t', clock + 1, aged, a, c, acts, kind, v, next);
    }
  }

  /** After the first request has been served. */
  lemma ServeFirst(cfg: Config, b: nat, t1: Transaction) returns (t: Trail, bank: BankState)
    requires Plain(cfg) && b == Locate(cfg, t1.address).bank && 1 + FirstColumn(cfg) < cfg.refreshCycles
    ensures
      var v, kind := 1 + FirstColumn(cfg), ColumnFor(cfg, t1).kind;
      && |t.trace| == v + 1 && t.trace[v] == Some(ColumnFor(cfg, t1)) && At(cfg, b, t, v + 1, bank, [], 1, [])
      && ClosedFor(cfg, bank, kind, Max(v + AutoPre(cfg, kind), 1 + cfg.tRC), 0)
  {
    hide At, ClosedFor, BankAfter, AutoPre, Locate, Opened;
    var a, c := ActivateFor(cfg, t1), ColumnFor(cfg, t1);
    var start := FirstArrives(cfg, b, t1);
    var opening, sent0 := TickAt(cfg, b, start, 0, RESET_BANK, [], 0, [t1]);
    assert PairFor(cfg, t1) == [a, c];
    var begun, sent1 := TickAt(cfg, b, opening, 1, RESET_BANK, [a, c], 0, []);
    assert [a, c][1..] == [c];
    ActivateOpens(cfg, RESET_BANK, a.row, 1);
    t, bank := WaitForColumn(cfg, b, begun, 2, BankNext(cfg, RESET_BANK, sent1, true, 1), c, 1, 1);
  }

  lemma FirstArrives(cfg: Config, b: nat, t1: Transaction) returns (t: Trail)
    requires Plain(cfg) && b < cfg.banks
    ensures At(cfg, b, t, 0, RESET_BANK, [], 0, [t1])
  {
    hide InRun, Held;
    var start := StartRun(cfg);
    t := ArriveInRun(cfg, start, t1);
    ResetHeld(cfg, b, t1);
  }

  lemma NextArrives(cfg: Config, b: nat, t: Trail, clock: nat, bank: BankState, acts: nat, t2: Transaction) returns (t': Trail)
    requires Plain(cfg) && At(cfg, b, t, clock, bank, [], acts, [])
    ensures t'.trace == t.trace && At(cfg, b, t', clock, bank, [], acts, [t2])
  {
    hide InRun, CommandQueue.Shaped, Alone;
    t' := ArriveInRun(cfg, t, t2);
  }

  /** The cycles between the column commands of two requests for one bank: until it is closed and its row cycle is over. */
  function Apart(cfg: Config, kind: PacketKind): int {
    Max(Closed(cfg, kind) + FirstColumn(cfg), cfg.tRC)
  }

  /** Two requests for one bank: their column commands are exactly as far apart as the bank needs to come back. */
  lemma TwoRequests(cfg: Config, t1: Transaction, t2: Transaction) returns (t: Trail)
    requires Plain(cfg) && t1.address == t2.address
    requires 1 + FirstColumn(cfg) + Apart(cfg, ColumnFor(cfg, t1).kind) < cfg.refreshCycles
    ensures
      var v := 1 + FirstColumn(cfg);
      var w := v + Apart(cfg, ColumnFor(cfg, t1).kind);
      && InRun(cfg, t) && v < w < |t.trace| && t.trace[v] == Some(ColumnFor(cfg, t1)) && t.trace[w] == Some(ColumnFor(cfg, t2))
  {
    hide At, ClosedFor, BankAfter, Locate, Opened, InRun;
    var b, d, kind := Locate(cfg, t1.address).bank, FirstColumn(cfg), ColumnFor(cfg, t1).kind;
    var a, c := ActivateFor(cfg, t2), ColumnFor(cfg, t2);
    var v := 1 + d;
    var served, bank0 := ServeFirst(cfg, b, t1);
    var next := Max(v + AutoPre(cfg, kind), 1 + cfg.tRC);
    var u := Max(v + Closed(cfg, kind), next);
    var asked := NextArrives(cfg, b, served, v + 1, bank0, 1, t2);
    ClosedAges(cfg, bank0, kind, next, 0);
    var waiting, sent := QuietTick(cfg, b, asked, v + 1, bank0, 1, t2, kind, next);
    var reopened, bank1 := WaitForActivate(cfg, b, waiting, v + 2, AgeBank(cfg, bank0), a, c, 1, kind, v, next);
    var t', bank2 := WaitForColumn(cfg, b, reopened, u + 1, bank1, c, 2, u);
    t := t';
    RunReached(cfg, b, t, u + d + 1, bank2, [], 2, []);
    assert t.trace[v] == served.trace[v];
  }

  lemma RunReached(cfg: Config, b: nat, t: Trail, clock: nat, bank: BankState, s: seq<Packet>, acts: nat, ts: seq<Transaction>)
    requires At(cfg, b, t, clock, bank, s, acts, ts)
    ensures InRun(cfg, t)
  {
    hide InRun, Held;
  }

  lemma QuietTick(cfg: Config, b: nat, t: Trail, clock: nat, bank: BankState, acts: nat, t2: Transaction, kind: PacketKind, next: int)
    returns (t': Trail, sent: Option<Packet>)
    requires Plain(cfg) && At(cfg, b, t, clock, bank, [], acts, [t2]) && acts < 4 && clock < cfg.refreshCycles
    requires b == Locate(cfg, t2.address).bank && ClosedFor(cfg, bank, kind, next, 0) && (kind.READ_P? || kind.WRITE_P?)
    ensures t'.trace == t.trace + [None]
    ensures At(cfg, b, t', clock + 1, AgeBank(cfg, bank), [ActivateFor(cfg, t2), ColumnFor(cfg, t2)], acts, [])
  {
    hide At, Locate;
    ClosedAges(cfg, bank, kind, next, 0);
    t', sent := TickAt(cfg, b, t, clock, bank, [], acts, [t2]);
  }

  // ---- The exact condition ----

  /**
   * The side conditions of the converse: requests can be queued, a refresh comes late enough to leave two requests alone
   * and does not cut a precharge short, and with several banks the row cycle time does not hold up a bank any longer than
   * it is closed.
   */
  predicate Undisturbed(cfg: Config) {
    && cfg.cmdQueueDepth >= 2 && cfg.transQueueDepth >= 1 && cfg.tRP <= cfg.tRFC
    && (cfg.banks == 1 || (cfg.tRC <= ReadReturns(cfg) && cfg.tRC <= WriteReturns(cfg)))
    && 1 + FirstColumn(cfg) + ReadReturns(cfg) < cfg.refreshCycles
    && 1 + FirstColumn(cfg) + WriteReturns(cfg) < cfg.refreshCycles
  }

  lemma ReturnsAfterClosed(cfg: Config, kind: PacketKind)
    requires cfg.Valid() && cfg.tRP <= cfg.tRFC && (kind.READ_P? || kind.WRITE_P?)
    requires cfg.banks == 1 || cfg.tRC <= Returns(cfg, kind)
    ensures Returns(cfg, kind) == Apart(cfg, kind)
  {
  }

  /** Some pair of column commands needs more than the bank takes to come back. */
  lemma UncoveredPair(cfg: Config, a: nat) returns (t1: Transaction, t2: Transaction)
    requires cfg.Valid() && !TurnaroundCovered(cfg)
    ensures t1.address == t2.address == a
    ensures MinGap(cfg, ColumnFor(cfg, t1), ColumnFor(cfg, t2).kind, ColumnFor(cfg, t2).bank)
      > Returns(cfg, ColumnFor(cfg, t1).kind)
  {
    hide Locate;
    var read, write := Transaction(false, a, 0), Transaction(true, a, 0);
    if cfg.ReadToWrite() > ReadReturns(cfg) {
      return read, write;
    } else if cfg.ColumnGap() > ReadReturns(cfg) {
      return read, read;
    } else if cfg.ColumnGap() > WriteReturns(cfg) {
      return write, write;
    } else {
      return write, read;
    }
  }

  /** With low power off, every run of an undisturbed close-page configuration is spaced iff its turnaround is covered. */
  lemma SpacedIff(cfg: Config)
    requires cfg.Valid() && cfg.rowPolicy.ClosePage? && !cfg.useLowPower && Undisturbed(cfg)
    ensures (forall events :: Run(cfg, events).Ok? && AllSpaced(cfg, Run(cfg, events).value.trace)) <==> TurnaroundCovered(cfg)
  {
    hide Run, AllSpaced, TurnaroundCovered;
    if TurnaroundCovered(cfg) {
      forall events
        ensures Run(cfg, events).Ok? && AllSpaced(cfg, Run(cfg, events).value.trace)
      {
        RunSpaced(cfg, events);
      }
    } else {
      var t := TooClose(cfg);
      var events :| Run(cfg, events) == Ok(t);
      assert !AllSpaced(cfg, Run(cfg, events).value.trace);
    }
  }

  lemma TooClose(cfg: Config) returns (t: Trail)
    requires cfg.Valid() && cfg.rowPolicy.ClosePage? && !cfg.useLowPower && Undisturbed(cfg) && !TurnaroundCovered(cfg)
    ensures InRun(cfg, t) && !AllSpaced(cfg, t.trace)
  {
    hide InRun, MinGap, TurnaroundCovered, ReadReturns, WriteReturns, Locate, Apart;
    var t1, t2 := UncoveredPair(cfg, 0);
    ReturnsAfterClosed(cfg, READ_P);
    ReturnsAfterClosed(cfg, WRITE_P);
    t := TwoRequests(cfg, t1, t2);
  }

  /** Such configurations exist: here READ_TO_WRITE_DELAY is 10 and the bank comes back after 3 cycles. */
  lemma SpacingNeedsTurnaround(cfg: Config)
    requires cfg == LongTurnaround(cfg.geometry) && cfg.geometry.rankBits == 0 && Pow2(cfg.geometry.bankBits) == cfg.banks
    ensures cfg.Valid() && Undisturbed(cfg) && !TurnaroundCovered(cfg)
    ensures exists events :: Run(cfg, events).Ok? && !AllSpaced(cfg, Run(cfg, events).value.trace)
  {
    hide Run, AllSpaced;
    var t := TooClose(cfg);
    var events :| Run(cfg, events) == Ok(t);
    assert !AllSpaced(cfg, Run(cfg, events).value.trace);
  }

  function LongTurnaround(g: Geometry): Config {
    Config(
      banks := 1, AL := 0, CL := 2, BL := 2,
      tRAS := 0, tRCD := 0, tRRD := 0, tRC := 0, tRP := 1, tCCD := 1, tRTP := 0, tWTR := 0, tWR := 0,
      tRTRS := 8, tRFC := 1, tFAW := 1, tCKE := 0, tXP := 0, tCMD := 1,
      refreshCycles := 1000, transQueueDepth := 1, cmdQueueDepth := 2, totalRowAccesses := 1, useLowPower := false,
      rowPolicy := ClosePage, queuing := PerRank, geometry := g)
  }
}
