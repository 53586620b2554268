/** Exactly when the data bus is shared without overlap; in close page a read and a write of two banks, cycle by cycle. */
module HandoverGap {
  import opened BitOps
  import opened DramTypes
  import opened Wrappers
  import opened AddressMapping
  import opened MemoryController
  import opened MemorySystem
  import opened Runs
  import opened CommandSpacing
  import opened DataBus
  import opened QuietRun
  import opened RunDataBus
  import opened RunProgress
  import opened BusGap
  import opened BankPair
  import CommandQueue

  // ---- The two banks ----

  predicate Resting(bank: BankState, activate: int, column: int, write: int) {
    && bank.state.Idle? && bank.countdown == 0
    && bank.nextActivate == activate && bank.nextRead == column && bank.nextWrite == write
  }

  lemma FirstActivate(cfg: Config, row: nat)
    requires cfg.Valid()
    ensures Opened(BankAfter(cfg, ACTIVATE, RESET_BANK, true, row, 1), 1 + cfg.ColumnDelay(), 1 + cfg.ColumnDelay(), row)
    ensures Resting(BankAfter(cfg, ACTIVATE, RESET_BANK, false, row, 1), 1 + cfg.tRRD, 0, 0)
  {
  }

  lemma SecondActivate(cfg: Config, bank: BankState, row: nat, u: int, activate: int, column: int, write: int)
    requires cfg.Valid() && Resting(bank, activate, column, write)
    ensures
      var bank' := BankAfter(cfg, ACTIVATE, bank, true, row, u);
      Opened(bank', bank'.nextRead, Max(u + cfg.ColumnDelay(), write), row)
  {
  }

  lemma OtherActivate(cfg: Config, bank: BankState, row: nat, u: int, column: int, write: int, mine: nat)
    requires Opened(bank, column, write, mine)
    ensures Opened(BankAfter(cfg, ACTIVATE, bank, false, row, u), column, write, mine)
  {
  }

  /** A read of the other bank puts off the write. */
  lemma OtherReads(cfg: Config, bank: BankState, row: nat, v: int)
    ensures
      var bank' := BankAfter(cfg, READ_P, bank, false, row, v);
      bank' == bank.(nextRead := bank'.nextRead, nextWrite := Max(bank.nextWrite, v + cfg.ReadToWrite()))
  {
  }

  lemma NotBefore(bank: BankState, c: Packet, column: int, write: int, from: int, until: int)
    requires Opened(bank, column, write, c.row) && (c.kind.READ_P? || c.kind.WRITE_P?)
    requires until <= Max(from, if c.kind.READ_P? then column else write)
    ensures forall k :: from <= k < until ==> !Goes(bank, [c], k)
    ensures forall k :: Max(column, write) <= k ==> Goes(bank, [c], k)
    ensures AtEase(bank, [c]) && bank.countdown == 0
  {
  }

  lemma NotActivated(bank: BankState, s: seq<Packet>, activate: int, column: int, write: int, from: int, until: int)
    requires Resting(bank, activate, column, write) && (s != [] ==> s[0].kind.ACTIVATE?) && until <= Max(from, activate)
    ensures forall k :: from <= k < until ==> !Goes(bank, s, k)
    ensures forall k :: activate <= k && s != [] ==> Goes(bank, s, k)
    ensures AtEase(bank, s) && bank.countdown == 0
  {
  }

  // ---- The run ----

  lemma TwoStart(cfg: Config, b0: nat, b1: nat, t1: Transaction, v: nat, w: nat) returns (t: Trail)
    requires ClosedRoomy(cfg) && b0 < cfg.banks && b1 < cfg.banks && b0 != b1 && Locate(cfg, t1.address).bank == b0
    requires 1 < v < w
    ensures Stands(cfg, b0, b1, t, 1, RESET_BANK, RESET_BANK, PairFor(cfg, t1), [], 0, [], v, w)
  {
    hide InRun, Held, Locate, PairFor;
    var start := StartRun(cfg);
    var asked := ArriveInRun(cfg, start, t1);
    ResetHeld(cfg, b0, t1);
    TwoHeldAtReset(cfg, b0, b1, t1);
    t := StandsTick(cfg, b0, b1, asked, 0, RESET_BANK, RESET_BANK, [], [], 0, [t1], v, w);
    NothingJoins(PairFor(cfg, t1));
  }

  lemma NothingJoins<T>(s: seq<T>)
    ensures [] + s == s && s + [] == s
  {
  }

  lemma TwoHeldAtReset(cfg: Config, b0: nat, b1: nat, t: Transaction)
    requires cfg.Valid() && cfg.transQueueDepth >= 1 && b0 < cfg.banks && b1 < cfg.banks && b0 != b1
    ensures TwoHeld(cfg, b0, b1, Accept(cfg, Reset(cfg).controller, t), 0, RESET_BANK, RESET_BANK, [], [], 0, [t])
  {
    ResetHeld(cfg, b0, t);
    var none: seq<Packet> := [];
    assert none + none == none;
    assert cfg.queuing.PerRank? ==> Reset(cfg).controller.queue.queues[0] == none;
  }

  lemma TwoArrives(cfg: Config, b0: nat, b1: nat, t: Trail, clock: nat, bank0: BankState, bank1: BankState,
                   s0: seq<Packet>, s1: seq<Packet>, acts: nat, v: nat, w: nat, t2: Transaction)
    returns (t': Trail)
    requires ClosedRoomy(cfg) && Stands(cfg, b0, b1, t, clock, bank0, bank1, s0, s1, acts, [], v, w)
    ensures t'.trace == t.trace && Stands(cfg, b0, b1, t', clock, bank0, bank1, s0, s1, acts, [t2], v, w)
  {
    hide InRun, CommandQueue.Shaped, TwoQueued;
    t' := ArriveInRun(cfg, t, t2);
    NothingJoins([t2]);
  }

  /** The cycles of the run: when the read goes out, and when the write can follow it. */
  predicate Times(cfg: Config, b0: nat, b1: nat, t1: Transaction, t2: Transaction, v: int, w: int) {
    && b0 < cfg.banks && b1 < cfg.banks && b0 != b1 && !t1.isWrite && t2.isWrite
    && Locate(cfg, t1.address).bank == b0 && Locate(cfg, t2.address).bank == b1
    && cfg.tRRD <= cfg.Burst() && v == 1 + FirstColumn(cfg) && w == v + cfg.ReadToWrite() < cfg.refreshCycles
  }

  /** The row of the write is open, the read has been sent, and the write waits for its turnaround. */
  ghost predicate WriteWaits(cfg: Config, b0: nat, b1: nat, t2: Transaction, t: Trail, clock: nat, bank0: BankState, bank1: BankState,
                             v: nat, w: nat)
  {
    && v < clock <= w && Stands(cfg, b0, b1, t, clock, bank0, bank1, [], [ColumnFor(cfg, t2)], 2, [], v, w)
    && Opened(bank1, bank1.nextRead, w, ColumnFor(cfg, t2).row)
  }

  /** The first ACTIVATE goes out; the second request is split in the same cycle or has not arrived yet. */
  lemma FirstOpens(cfg: Config, b0: nat, b1: nat, t1: Transaction, t2: Transaction, t: Trail, ts: seq<Transaction>, v: nat, w: nat)
    returns (t': Trail, bank0: BankState, bank1: BankState)
    requires ClosedRoomy(cfg) && Times(cfg, b0, b1, t1, t2, v, w) && (ts == [] || ts == [t2])
    requires Stands(cfg, b0, b1, t, 1, RESET_BANK, RESET_BANK, PairFor(cfg, t1), [], 0, ts, v, w)
    ensures Stands(cfg, b0, b1, t', 2, bank0, bank1, [ColumnFor(cfg, t1)], if ts == [] then [] else PairFor(cfg, t2), 1, [], v, w)
    ensures Opened(bank0, 1 + cfg.ColumnDelay(), 1 + cfg.ColumnDelay(), ColumnFor(cfg, t1).row)
    ensures Resting(bank1, 1 + cfg.tRRD, 0, 0)
  {
    hide Stands, Locate, BankAfter, Opened, Resting;
    var a, c := ActivateFor(cfg, t1), ColumnFor(cfg, t1);
    assert PairFor(cfg, t1) == [a, c] && [a, c][1..] == [c] && [c] + [] == [c];
    t' := StandsTick(cfg, b0, b1, t, 1, RESET_BANK, RESET_BANK, [a, c], [], 0, ts, v, w);
    bank0, bank1 := BankNext(cfg, RESET_BANK, Some(a), true, 1), BankNext(cfg, RESET_BANK, Some(a), false, 1);
    FirstActivate(cfg, a.row);
    NothingJoins([c]);
    NothingJoins(Joining(cfg, b1, ts));
    assert Going(RESET_BANK, RESET_BANK, [a, c], [], 1) == Some(a);
  }

  /** The second ACTIVATE goes out between the first and the read, for a row that takes its column command later. */
  lemma OpensBefore(cfg: Config, b0: nat, b1: nat, t1: Transaction, t2: Transaction, t: Trail, bank0: BankState, bank1: BankState,
                    v: nat, w: nat)
    returns (t': Trail, bank0': BankState, bank1': BankState)
    requires ClosedRoomy(cfg) && Times(cfg, b0, b1, t1, t2, v, w) && Max(1, cfg.tRRD) < FirstColumn(cfg)
    requires Stands(cfg, b0, b1, t, 2, bank0, bank1, [ColumnFor(cfg, t1)], PairFor(cfg, t2), 1, [], v, w)
    requires Opened(bank0, 1 + cfg.ColumnDelay(), 1 + cfg.ColumnDelay(), ColumnFor(cfg, t1).row) && Resting(bank1, 1 + cfg.tRRD, 0, 0)
    ensures Stands(cfg, b0, b1, t', v, bank0', bank1', [ColumnFor(cfg, t1)], [ColumnFor(cfg, t2)], 2, [], v, w)
    ensures Opened(bank0', 1 + cfg.ColumnDelay(), 1 + cfg.ColumnDelay(), ColumnFor(cfg, t1).row)
    ensures exists write: int :: v < write <= w && Opened(bank1', bank1'.nextRead, write, ColumnFor(cfg, t2).row)
  {
    hide Stands, Locate, BankAfter, Opened, Resting, Goes, AtEase;
    var c0, a1, c1 := ColumnFor(cfg, t1), ActivateFor(cfg, t2), ColumnFor(cfg, t2);
    var column := 1 + cfg.ColumnDelay();
    var u := Max(2, 1 + cfg.tRRD);
    assert PairFor(cfg, t2) == [a1, c1] && [a1, c1][1..] == [c1];
    NotBefore(bank0, c0, column, column, 2, u + 1);
    NotActivated(bank1, [a1, c1], 1 + cfg.tRRD, 0, 0, 2, u);
    var ready, same := TwoWait(cfg, b0, b1, t, 2, bank0, bank1, [c0], [a1, c1], 1, v, w, u);
    assert Going(bank0, bank1, [c0], [a1, c1], u) == Some(a1);
    var begun := StandsTick(cfg, b0, b1, ready, u, bank0, bank1, [c0], [a1, c1], 1, [], v, w);
    CountsDown(bank0, bank1, column, c0.row, 1 + cfg.tRRD);
    var next0, next1 := BankNext(cfg, bank0, Some(a1), false, u), BankNext(cfg, bank1, Some(a1), true, u);
    OtherActivate(cfg, bank0, a1.row, u, column, column, c0.row);
    SecondActivate(cfg, bank1, a1.row, u, 1 + cfg.tRRD, 0, 0);
    NothingJoins([c0]);
    NothingJoins([c1]);
    NotBefore(next0, c0, column, column, u + 1, v);
    NotBefore(next1, c1, next1.nextRead, u + cfg.ColumnDelay(), u + 1, v);
    t', bank0' := TwoWait(cfg, b0, b1, begun, u + 1, next0, next1, [c0], [c1], 2, v, w, v);
    bank1' := next1;
  }

  lemma CountsDown(bank0: BankState, bank1: BankState, column: int, row: nat, activate: int)
    requires Opened(bank0, column, column, row) && Resting(bank1, activate, 0, 0)
    ensures bank0.countdown == 0 && bank1.countdown == 0
  {
  }

  /** The read goes out while the row of the write is already open. */
  lemma ReadsAfter(cfg: Config, b0: nat, b1: nat, t1: Transaction, t2: Transaction, t: Trail, bank0: BankState, bank1: BankState,
                   write: int, v: nat, w: nat)
    returns (t': Trail, bank0': BankState, bank1': BankState)
    requires ClosedRoomy(cfg) && Times(cfg, b0, b1, t1, t2, v, w) && v < write <= w
    requires Stands(cfg, b0, b1, t, v, bank0, bank1, [ColumnFor(cfg, t1)], [ColumnFor(cfg, t2)], 2, [], v, w)
    requires Opened(bank0, 1 + cfg.ColumnDelay(), 1 + cfg.ColumnDelay(), ColumnFor(cfg, t1).row)
    requires Opened(bank1, bank1.nextRead, write, ColumnFor(cfg, t2).row)
    ensures WriteWaits(cfg, b0, b1, t2, t', v + 1, bank0', bank1', v, w)
  {
    hide Stands, Locate, BankAfter, Goes, AtEase;
    var c0, c1 := ColumnFor(cfg, t1), ColumnFor(cfg, t2);
    var column := 1 + cfg.ColumnDelay();
    NotBefore(bank0, c0, column, column, v, v);
    NotBefore(bank1, c1, bank1.nextRead, write, v, v + 1);
    assert Going(bank0, bank1, [c0], [c1], v) == Some(c0);
    assert [c0][1..] == [];
    t' := StandsTick(cfg, b0, b1, t, v, bank0, bank1, [c0], [c1], 2, [], v, w);
    bank0', bank1' := BankNext(cfg, bank0, Some(c0), true, v), BankNext(cfg, bank1, Some(c0), false, v);
    OtherReads(cfg, bank1, c0.row, v);
    NothingJoins([c1]);
    var none: seq<Packet> := [];
    NothingJoins(none);
  }

  /** The second request arrives when the read goes out, and its row is open in time. */
  lemma OpensAfter(cfg: Config, b0: nat, b1: nat, t1: Transaction, t2: Transaction, t: Trail, bank0: BankState, bank1: BankState,
                   v: nat, w: nat)
    returns (t': Trail, bank0': BankState, bank1': BankState)
    requires ClosedRoomy(cfg) && Times(cfg, b0, b1, t1, t2, v, w) && FirstColumn(cfg) <= Max(1, cfg.tRRD)
    requires Stands(cfg, b0, b1, t, 2, bank0, bank1, [ColumnFor(cfg, t1)], [], 1, [], v, w)
    requires Opened(bank0, 1 + cfg.ColumnDelay(), 1 + cfg.ColumnDelay(), ColumnFor(cfg, t1).row) && Resting(bank1, 1 + cfg.tRRD, 0, 0)
    ensures Stands(cfg, b0, b1, t', v + 1, bank0', bank1', [], PairFor(cfg, t2), 1, [], v, w)
    ensures Resting(bank1', 1 + cfg.tRRD, bank1'.nextRead, w)
  {
    hide Stands, Locate, BankAfter, Opened, Goes, AtEase;
    var c0 := ColumnFor(cfg, t1);
    var column := 1 + cfg.ColumnDelay();
    var none: seq<Packet> := [];
    NotBefore(bank0, c0, column, column, 2, v);
    NotActivated(bank1, none, 1 + cfg.tRRD, 0, 0, 2, v);
    NeverGoes(bank1);
    var ready, same := TwoWait(cfg, b0, b1, t, 2, bank0, bank1, [c0], none, 1, v, w, v);
    var asked := TwoArrives(cfg, b0, b1, ready, v, bank0, bank1, [c0], none, 1, v, w, t2);
    assert Going(bank0, bank1, [c0], none, v) == Some(c0);
    assert [c0][1..] == none;
    t' := StandsTick(cfg, b0, b1, asked, v, bank0, bank1, [c0], none, 1, [t2], v, w);
    bank0', bank1' := BankNext(cfg, bank0, Some(c0), true, v), BankNext(cfg, bank1, Some(c0), false, v);
    OtherReads(cfg, bank1, c0.row, v);
    NothingJoins(none);
    NothingJoins(PairFor(cfg, t2));
  }

  lemma NeverGoes(bank: BankState)
    ensures AtEase(bank, []) && forall k :: !Goes(bank, [], k)
  {
  }

  lemma ActivatesAfter(cfg: Config, b0: nat, b1: nat, t1: Transaction, t2: Transaction, t: Trail, bank0: BankState, bank1: BankState,
                       v: nat, w: nat)
    returns (t': Trail, clock: nat, bank0': BankState, bank1': BankState)
    requires ClosedRoomy(cfg) && Times(cfg, b0, b1, t1, t2, v, w) && FirstColumn(cfg) <= Max(1, cfg.tRRD)
    requires Stands(cfg, b0, b1, t, v + 1, bank0, bank1, [], PairFor(cfg, t2), 1, [], v, w)
    requires Resting(bank1, 1 + cfg.tRRD, bank1.nextRead, w)
    ensures WriteWaits(cfg, b0, b1, t2, t', clock, bank0', bank1', v, w)
  {
    hide Stands, Locate, BankAfter, Opened, Goes, AtEase;
    var a1, c1 := ActivateFor(cfg, t2), ColumnFor(cfg, t2);
    var none: seq<Packet> := [];
    var u := Max(v + 1, 1 + cfg.tRRD);
    assert PairFor(cfg, t2) == [a1, c1] && [a1, c1][1..] == [c1];
    NotActivated(bank1, [a1, c1], 1 + cfg.tRRD, bank1.nextRead, w, v + 1, u);
    NeverGoes(bank0);
    var ready, last := TwoWait(cfg, b0, b1, t, v + 1, bank0, bank1, none, [a1, c1], 1, v, w, u);
    NeverGoes(last);
    assert Going(last, bank1, none, [a1, c1], u) == Some(a1);
    t' := StandsTick(cfg, b0, b1, ready, u, last, bank1, none, [a1, c1], 1, [], v, w);
    bank0', bank1' := BankNext(cfg, last, Some(a1), false, u), BankNext(cfg, bank1, Some(a1), true, u);
    SecondActivate(cfg, bank1, a1.row, u, 1 + cfg.tRRD, bank1.nextRead, w);
    clock := u + 1;
    NothingJoins(none);
    NothingJoins([c1]);
  }

  /** The write is the last packet. */
  lemma WriteGoes(cfg: Config, b0: nat, b1: nat, t2: Transaction, t: Trail, clock: nat, bank0: BankState, bank1: BankState, v: nat, w: nat)
    returns (t': Trail)
    requires ClosedRoomy(cfg) && WriteWaits(cfg, b0, b1, t2, t, clock, bank0, bank1, v, w) && t2.isWrite
    requires w == v + cfg.ReadToWrite() < cfg.refreshCycles && cfg.tRTRS == 0
    ensures Drained(cfg, t', w + 1, v, w)
  {
    hide Stands, Locate, Opened, Goes, AtEase;
    var c1 := ColumnFor(cfg, t2);
    NotBefore(bank1, c1, bank1.nextRead, w, clock, w);
    NeverGoes(bank0);
    var ready, last := TwoWait(cfg, b0, b1, t, clock, bank0, bank1, [], [c1], 2, v, w, w);
    t' := LastGoes(cfg, b0, b1, ready, last, bank1, c1, v, w);
  }

  lemma LastGoes(cfg: Config, b0: nat, b1: nat, t: Trail, bank0: BankState, bank1: BankState, c1: Packet, v: nat, w: nat)
    returns (t': Trail)
    requires ClosedRoomy(cfg) && Stands(cfg, b0, b1, t, w, bank0, bank1, [], [c1], 2, [], v, w) && c1.kind.WRITE_P?
    requires Opened(bank1, bank1.nextRead, w, c1.row) && v < w < cfg.refreshCycles && w <= v + cfg.RL() + cfg.Burst()
    ensures Drained(cfg, t', w + 1, v, w)
  {
    hide InRun, Cycle, Steady, MemorySystem.Shaped, Reads, Writes, CommandQueue.Pop, Split, TwoQueued;
    RunIsSteady(cfg, t);
    CycleSchedules(cfg, t.system);
    var out;
    t', out := TickInRun(cfg, t);
    var m := t.system.controller;
    var aged := AgeBanks(cfg, m.banks);
    ClockGoesOn(cfg, b0, b1, m.queue, m.queue, [], [c1], 2, w);
    PopTwo(cfg, b0, b1, aged, m.queue, [], [c1], 2, w);
    assert [c1][1..] == [];
    var q := CommandQueue.Pop(cfg, aged, m.queue).0;
    AllEmpty(cfg, b0, b1, q, 2, w);
    SplitNothing(cfg, m.(queue := q));
    PathsStep(cfg, t, t', out, v, w);
    NothingQueued(t');
  }

  lemma SplitNothing(cfg: Config, m: ControllerState)
    requires m.transactions == []
    ensures Split(cfg, m) == Ok(m)
  {
  }

  lemma AllEmpty(cfg: Config, b0: nat, b1: nat, q: CommandQueue.QueueState, acts: nat, clock: int)
    requires TwoQueued(cfg, b0, b1, q, [], [], acts, clock)
    ensures forall n :: 0 <= n < |q.queues| ==> q.queues[n] == []
  {
  }

  // ---- The exact condition ----

  /** A read and a write of two banks share a cycle of the data bus. */
  lemma TwoBanksOverlap(cfg: Config, b0: nat, b1: nat, t1: Transaction, t2: Transaction) returns (t: Trail)
    requires ClosedRoomy(cfg) && cfg.tRTRS == 0
    requires var v := 1 + FirstColumn(cfg); Times(cfg, b0, b1, t1, t2, v, v + cfg.ReadToWrite())
    ensures InRun(cfg, t) && t.system.controller.dataBus.Some? && t.system.rank.outgoing.Some?
  {
    hide Stands, Locate, Opened, Resting, InRun, Drained, WriteWaits;
    var v := 1 + FirstColumn(cfg);
    var w := v + cfg.ReadToWrite();
    var asked := TwoStart(cfg, b0, b1, t1, v, w);
    var waits, clock, bank0, bank1;
    if Max(1, cfg.tRRD) < FirstColumn(cfg) {
      var both := TwoArrives(cfg, b0, b1, asked, 1, RESET_BANK, RESET_BANK, PairFor(cfg, t1), [], 0, v, w, t2);
      var begun, x0, x1 := FirstOpens(cfg, b0, b1, t1, t2, both, [t2], v, w);
      var open, y0, y1 := OpensBefore(cfg, b0, b1, t1, t2, begun, x0, x1, v, w);
      var write: int :| v < write <= w && Opened(y1, y1.nextRead, write, ColumnFor(cfg, t2).row);
      clock := v + 1;
      waits, bank0, bank1 := ReadsAfter(cfg, b0, b1, t1, t2, open, y0, y1, write, v, w);
    } else {
      var begun, x0, x1 := FirstOpens(cfg, b0, b1, t1, t2, asked, [], v, w);
      var read, y0, y1 := OpensAfter(cfg, b0, b1, t1, t2, begun, x0, x1, v, w);
      waits, clock, bank0, bank1 := ActivatesAfter(cfg, b0, b1, t1, t2, read, y0, y1, v, w);
    }
    var sent := WriteGoes(cfg, b0, b1, t2, waits, clock, bank0, bank1, v, w);
    t := Drain(cfg, sent, w + 1, v, w, w + cfg.WL() + 1);
    BothBusy(cfg, t, w + cfg.WL() + 1, v, w);
  }

  /** Every bank has an address. */
  lemma AddressOf(cfg: Config, bank: nat) returns (address: nat)
    requires cfg.Valid() && bank < cfg.banks
    ensures Locate(cfg, address).bank == bank
  {
    hide Encode, Decode;
    var l := Location(0, 0, bank, 0, 0);
    forall f: Field
      ensures Get(l, f) < Pow2(Width(cfg.geometry, f))
    {
    }
    DecodeInvertsEncode(cfg.geometry, l);
    address := Encode(cfg.geometry, l);
  }

  /**
   * The side conditions of the converse: requests can be queued, no refresh comes before the write, and in close page the
   * packets fit into a shared queue and a second bank can be activated within a burst.
   */
  predicate Unhurried(cfg: Config) {
    && Roomy(cfg) && cfg.refreshCycles > 1 + FirstColumn(cfg) + cfg.ReadToWrite()
    && (cfg.rowPolicy.ClosePage? ==> cfg.tRRD <= cfg.Burst() && (cfg.queuing.PerRank? ==> cfg.cmdQueueDepth >= 3))
  }

  lemma Collides(cfg: Config) returns (t: Trail)
    requires Unhurried(cfg) && !BusHandedOver(cfg)
    ensures InRun(cfg, t) && t.system.controller.dataBus.Some? && t.system.rank.outgoing.Some?
  {
    hide InRun, Locate;
    if cfg.rowPolicy.OpenPage? {
      t := Overlap(cfg, 0);
    } else {
      var a0 := AddressOf(cfg, 0);
      var a1 := AddressOf(cfg, 1);
      t := TwoBanksOverlap(cfg, 0, 1, Transaction(false, a0, 0), Transaction(true, a1, 0));
    }
  }

  /**
   * Under both policies, with low power on or off, controller and rank never drive the data bus together if and only if
   * tRTRS is positive or a single bank closes itself after every access.
   */
  lemma BusSharedIff(cfg: Config)
    requires Unhurried(cfg)
    ensures (forall events :: NeverBoth(cfg, events)) <==> BusHandedOver(cfg)
  {
    hide Run;
    if BusHandedOver(cfg) {
      forall events
        ensures NeverBoth(cfg, events)
      {
        OneDriver(cfg, events);
      }
    } else {
      var t := Collides(cfg);
      var events :| Run(cfg, events) == Ok(t);
      assert !NeverBoth(cfg, events);
    }
  }

  /** Such configurations exist in close page: here the write follows the read after two cycles. */
  lemma TwoBanksCollide(cfg: Config)
    requires cfg == TwoBanks(cfg.geometry) && cfg.geometry.rankBits == 0 && Pow2(cfg.geometry.bankBits) == 2
    ensures Unhurried(cfg) && !BusHandedOver(cfg)
    ensures exists events :: Run(cfg, events).Ok? && !NeverBoth(cfg, events)
  {
    hide Run;
    var t := Collides(cfg);
    var events :| Run(cfg, events) == Ok(t);
    assert !NeverBoth(cfg, events);
  }

  function TwoBanks(g: Geometry): Config {
    Config(
      banks := 2, AL := 0, CL := 2, BL := 2,
      tRAS := 1, tRCD := 1, tRRD := 0, tRC := 2, tRP := 1, tCCD := 1, tRTP := 1, tWTR := 1, tWR := 1,
      tRTRS := 0, tRFC := 1, tFAW := 1, tCKE := 0, tXP := 0, tCMD := 1,
      refreshCycles := 1000, transQueueDepth := 1, cmdQueueDepth := 2, totalRowAccesses := 1, useLowPower := true,
      rowPolicy := ClosePage, queuing := PerRankPerBank, geometry := g)
  }
}
