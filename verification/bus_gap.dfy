/** A read and a write that share a cycle of the data bus in open page: two requests for one row, cycle by cycle. */
module BusGap {
  import opened DramTypes
  import opened Wrappers
  import opened MemoryController
  import opened MemorySystem
  import opened Runs
  import opened CommandSpacing
  import opened QuietRun
  import opened DataPaths
  import opened Progress
  import opened RunProgress
  import CommandQueue
  import Liveness

  /** The path has been empty but for one entry, k cycles after it joined with the given latency. */
  predicate Travels(cfg: Config, p: Path, latency: nat, k: nat) {
    if k < latency then p.countdown == [latency - k] && !p.busy
    else p.countdown == [] && p.busy && p.left == cfg.Burst() - (k - latency)
  }

  lemma TravelsAges(cfg: Config, p: Path, latency: nat, k: nat)
    requires cfg.BL >= 2 && Travels(cfg, p, latency, k) && latency >= 1 && k + 1 < latency + cfg.Burst()
    ensures Travels(cfg, AgePath(cfg, p), latency, k + 1)
  {
    assert |p.countdown| == 1 ==> DecAll(p.countdown)[1..] == [];
  }

  lemma QuietAges(cfg: Config, p: Path, latency: nat)
    requires Quiet(p)
    ensures Quiet(AgePath(cfg, p)) && (latency >= 1 ==> Travels(cfg, Joined(AgePath(cfg, p), true, latency), latency, 0))
  {
  }

  /** A read was issued in cycle v and no other. */
  predicate Reads(cfg: Config, t: Trail, v: nat) {
    var n, p, onBus := |t.trace|, ReadPath(t.system.rank), IsReadPacket(t.system.controller.cmdBus);
    if n <= v then Quiet(p) && !onBus
    else if n == v + 1 then Quiet(p) && onBus
    else Travels(cfg, p, cfg.CL + cfg.AL, n - v - 2) && !onBus
  }

  /** A write was issued in cycle w and no other. */
  predicate Writes(cfg: Config, t: Trail, w: nat) {
    var n, p := |t.trace|, WritePath(t.system.controller);
    if n <= w then Quiet(p) else Travels(cfg, p, WriteLatency(cfg), n - w - 1)
  }

  lemma PathsStep(cfg: Config, t: Trail, t': Trail, out: Output, v: nat, w: nat)
    requires cfg.Valid() && Steady(cfg, t.system) && MemorySystem.Shaped(cfg, t.system)
    requires Cycle(cfg, t.system) == Ok((t'.system, out)) && t'.trace == t.trace + [out.issued]
    requires Reads(cfg, t, v) && Writes(cfg, t, w)
    requires (IsReadPacket(out.issued) <==> |t.trace| == v) && (IsWritePacket(out.issued) <==> |t.trace| == w)
    requires |t.trace| <= v + cfg.RL() + cfg.Burst() && |t.trace| < w + cfg.WL() + cfg.Burst()
    ensures Reads(cfg, t', v) && Writes(cfg, t', w)
  {
    hide Cycle, Steady, MemorySystem.Shaped, AgePath, Travels, Quiet;
    CyclePaths(cfg, t.system);
    var n := |t.trace|;
    var p, q := ReadPath(t.system.rank), WritePath(t.system.controller);
    if n <= v + 1 {
      QuietAges(cfg, p, cfg.CL + cfg.AL);
    } else {
      TravelsAges(cfg, p, cfg.CL + cfg.AL, n - v - 2);
    }
    if n <= w {
      QuietAges(cfg, q, WriteLatency(cfg));
    } else {
      TravelsAges(cfg, q, WriteLatency(cfg), n - w - 1);
    }
  }

  /** Nothing is left to be sent. */
  ghost predicate Drained(cfg: Config, t: Trail, clock: nat, v: nat, w: nat) {
    InRun(cfg, t) && |t.trace| == clock && Left(t) == 0 && Reads(cfg, t, v) && Writes(cfg, t, w)
  }

  lemma NothingQueued(t: Trail)
    requires t.system.pending == [] && t.system.controller.transactions == []
    requires forall n :: 0 <= n < |t.system.controller.queue.queues| ==> t.system.controller.queue.queues[n] == []
    ensures Left(t) == 0
  {
    NoPackets(t.system.controller.queue.queues);
  }

  lemma {:induction false} Drain(cfg: Config, t: Trail, clock: nat, v: nat, w: nat, until: nat) returns (t': Trail)
    requires Roomy(cfg) && Drained(cfg, t, clock, v, w) && v < clock && w < clock <= until
    requires until <= v + cfg.RL() + cfg.Burst() + 1 && until <= w + cfg.WL() + cfg.Burst()
    ensures Drained(cfg, t', until, v, w)
    decreases until - clock
  {
    hide InRun, Cycle, Steady, MemorySystem.Shaped, Reads, Writes, Left, WorkLeft, ControllerLively, Advance, Reaches, QueueBusy;
    if clock == until {
      return t;
    }
    InRunLively(cfg, t);
    var next, sent := TickForward(cfg, t, |t.trace| - 1 + Liveness.Horizon(cfg));
    PathsStep(cfg, t, next, Cycle(cfg, t.system).value.1, v, w);
    t' := Drain(cfg, next, clock + 1, v, w, until);
  }

  lemma BothBusy(cfg: Config, t: Trail, clock: nat, v: nat, w: nat)
    requires cfg.Valid() && Drained(cfg, t, clock, v, w)
    requires clock == v + cfg.RL() + cfg.Burst() + 1 == w + cfg.WL() + 1
    ensures InRun(cfg, t) && t.system.controller.dataBus.Some? && t.system.rank.outgoing.Some?
  {
    hide InRun;
  }

  // ---- One bank in open page ----

  predicate OthersRest(cfg: Config, b: nat, banks: seq<BankState>) {
    forall x :: 0 <= x < |banks| && x != b ==> banks[x].state.Idle? && banks[x].countdown == 0
  }

  /** The position the search stops at. */
  function Stop(bank: BankState, s: seq<Packet>, clock: int): nat {
    if s != [] && Lets(bank, s[0], clock) then 0
    else if |s| == 2 && Lets(bank, s[1], clock) then 1
    else |s|
  }

  lemma FirstStop(cfg: Config, b: nat, banks: seq<BankState>, q: CommandQueue.QueueState, s: seq<Packet>, acts: nat, clock: nat)
    requires cfg.Valid() && cfg.rowPolicy.OpenPage? && |banks| == cfg.banks && b < cfg.banks
    requires Alone(cfg, b, q, s, 0, acts, clock) && acts < 4 && OneRequest(cfg, s) && !banks[b].state.Refreshing?
    ensures FirstAt(cfg, banks, q, s, Stop(banks[b], s, clock))
  {
  }

  /** A row that a queued packet wants is not closed. */
  lemma RowWanted(cfg: Config, b: nat, banks: seq<BankState>, q: CommandQueue.QueueState, s: seq<Packet>, acts: nat, clock: nat)
    requires cfg.Valid() && |banks| == cfg.banks && Alone(cfg, b, q, s, 0, acts, clock)
    requires OthersRest(cfg, b, banks)
    requires banks[b].state.RowActive? ==> s != [] && s[0].row == banks[b].openRow
    ensures NothingToClose(cfg, banks, q)
  {
    AloneShaped(cfg, b, q, s, 0, acts, clock, banks);
    forall x | 0 <= x < cfg.banks
      ensures !CommandQueue.Closable(cfg, banks, q, x)
    {
      assert x == b && s != [] ==> CommandQueue.ForRow(s[0], b, s[0].row);
    }
  }

  lemma PopHeld(cfg: Config, b: nat, m: ControllerState, clock: nat, bank: BankState, s: seq<Packet>, acts: nat,
                ts: seq<Transaction>)
    requires cfg.Valid() && cfg.rowPolicy.OpenPage? && Held(cfg, b, m, clock, bank, s, acts, ts) && acts < 4
    requires OthersRest(cfg, b, m.banks)
    requires bank.countdown == 0 && !bank.state.Refreshing?
    requires bank.state.RowActive? ==> s != [] && s[0].row == bank.openRow
    ensures CommandQueue.Shaped(cfg, AgeBanks(cfg, m.banks), m.queue)
    ensures
      var (q, sent) := CommandQueue.Pop(cfg, AgeBanks(cfg, m.banks), m.queue);
      var i := Stop(bank, s, clock);
      if i == |s| then sent == None && Alone(cfg, b, q, s, 0, acts, clock)
      else
        && sent == Some(s[i])
        && Alone(cfg, b, q, s[i + 1..], i, if s[i].kind.ACTIVATE? then acts + 1 else acts, clock)
  {
    hide CommandQueue.Pop, Lets, CommandQueue.Eligible, NothingToClose;
    var aged := AgeBanks(cfg, m.banks);
    assert aged[b] == bank;
    var waiting := m.queue.(window := CommandQueue.AgeWindow(m.queue.window));
    var i := Stop(bank, s, clock);
    FirstStop(cfg, b, aged, waiting, s, acts, clock);
    RowWanted(cfg, b, aged, waiting, s, acts, clock);
    PopAlone(cfg, b, aged, m.queue, s, 0, acts, clock, i);
    if i < |s| {
      assert CommandQueue.Removed(cfg, s, CommandQueue.Send(CommandQueue.QueueIndex(cfg, b), i, true)) == s[i + 1..];
    }
  }

  /** One update of the held bank that sends the head of the queue or nothing. */
  lemma HeldStep(cfg: Config, b: nat, m: ControllerState, sent: Option<Packet>, m': ControllerState, clock: nat,
                 bank: BankState, s: seq<Packet>, acts: nat, ts: seq<Transaction>)
    requires cfg.Valid() && cfg.rowPolicy.OpenPage? && Held(cfg, b, m, clock, bank, s, acts, ts) && acts < 4
    requires OthersRest(cfg, b, m.banks)
    requires Scheduled(cfg, m, sent, m') && m'.clock == clock + 1 <= cfg.refreshCycles
    requires bank.countdown == 0 && !bank.state.Refreshing? && (bank.state.RowActive? ==> s != [] && s[0].row == bank.openRow)
    requires Stop(bank, s, clock) == 0 || Stop(bank, s, clock) == |s|
    requires ts == [] || (|ts| == 1 && Locate(cfg, ts[0].address).bank == b && cfg.cmdQueueDepth >= 2
                          && (s == [] || (|s| == 1 && Stop(bank, s, clock) == 0)))
    requires ts != [] || |s| == 2 || (|s| == 1 && Stop(bank, s, clock) == 1)
    ensures sent == if Stop(bank, s, clock) < |s| then Some(s[0]) else None
    ensures Held(cfg, b, m', clock + 1, BankNext(cfg, bank, sent, true, clock),
                 if ts == [] then (if sent.Some? then s[1..] else s) else PairFor(cfg, ts[0]),
                 if sent.Some? then Acts(s, acts) else acts, [])
    ensures OthersRest(cfg, b, m'.banks)
  {
    hide CommandQueue.Pop, BankAfter, Lets, Locate, OneRequest, CommandQueue.Shaped;
    PopHeld(cfg, b, m, clock, bank, s, acts, ts);
    RestIsOneRequest(cfg, s, Transaction(false, 0, 0));
    HeldNext(cfg, b, m, sent, m', clock, bank, s, acts, ts, if sent.Some? then s[1..] else s, if sent.Some? then Acts(s, acts) else acts);
    OthersStay(cfg, b, m.banks, sent, clock, s);
  }

  lemma OthersStay(cfg: Config, b: nat, banks: seq<BankState>, sent: Option<Packet>, clock: nat, s: seq<Packet>)
    requires OthersRest(cfg, b, banks) && OneRequest(cfg, s)
    requires sent.Some? ==> s != [] && sent == Some(s[0]) && s[0].bank == b
    ensures
      var aged := AgeBanks(cfg, banks);
      OthersRest(cfg, b, if sent.Some? then TableAfter(cfg, sent.value, aged, clock) else aged)
  {
  }

  // ---- Runs ----

  /** Open page, and room for the two packets of a request. */
  predicate Plain(cfg: Config) {
    Roomy(cfg) && cfg.rowPolicy.OpenPage?
  }

  ghost predicate At(cfg: Config, b: nat, t: Trail, clock: nat, bank: BankState, s: seq<Packet>, acts: nat,
                     ts: seq<Transaction>, v: nat, w: nat)
  {
    && InRun(cfg, t) && t.system.pending == [] && |t.trace| == clock
    && Held(cfg, b, t.system.controller, clock, bank, s, acts, ts) && OthersRest(cfg, b, t.system.controller.banks)
    && Reads(cfg, t, v) && Writes(cfg, t, w)
  }

  lemma TickAt(cfg: Config, b: nat, t: Trail, clock: nat, bank: BankState, s: seq<Packet>, acts: nat, ts: seq<Transaction>,
               v: nat, w: nat)
    returns (t': Trail, sent: Option<Packet>)
    requires Plain(cfg) && At(cfg, b, t, clock, bank, s, acts, ts, v, w) && acts < 4 && clock < cfg.refreshCycles
    requires bank.countdown == 0 && !bank.state.Refreshing? && (bank.state.RowActive? ==> s != [] && s[0].row == bank.openRow)
    requires Stop(bank, s, clock) == 0 || Stop(bank, s, clock) == |s|
    requires ts == [] || (|ts| == 1 && Locate(cfg, ts[0].address).bank == b
                          && (s == [] || (|s| == 1 && Stop(bank, s, clock) == 0)))
    requires ts != [] || |s| == 2 || (|s| == 1 && Stop(bank, s, clock) == 1)
    requires (Stop(bank, s, clock) < |s| && s[0].kind.READ?) <==> clock == v
    requires (Stop(bank, s, clock) < |s| && s[0].kind.WRITE?) <==> clock == w
    requires clock <= v + cfg.RL() + cfg.Burst() && clock < w + cfg.WL() + cfg.Burst()
    ensures sent == if Stop(bank, s, clock) < |s| then Some(s[0]) else None
    ensures At(cfg, b, t', clock + 1, BankNext(cfg, bank, sent, true, clock),
               if ts == [] then (if sent.Some? then s[1..] else s) else PairFor(cfg, ts[0]),
               if sent.Some? then Acts(s, acts) else acts, [], v, w)
  {
    hide InRun, Cycle, Scheduled, Steady, Locate, BankNext, MemorySystem.Shaped, CommandQueue.Shaped, Alone, Reads, Writes;
    RunIsSteady(cfg, t);
    CycleSchedules(cfg, t.system);
    var out;
    t', out := TickInRun(cfg, t);
    sent := out.issued;
    RunIsSteady(cfg, t');
    HeldStep(cfg, b, t.system.controller, sent, t'.system.controller, clock, bank, s, acts, ts);
    PathsStep(cfg, t, t', out, v, w);
  }

  /** Nothing is sent until a given cycle. */
  lemma {:induction false} Wait(cfg: Config, b: nat, t: Trail, clock: nat, bank: BankState, s: seq<Packet>, acts: nat,
                                v: nat, w: nat, until: nat)
    returns (t': Trail)
    requires Plain(cfg) && At(cfg, b, t, clock, bank, s, acts, [], v, w) && acts < 4 && clock <= until <= cfg.refreshCycles
    requires bank.countdown == 0 && !bank.state.Refreshing? && (bank.state.RowActive? ==> s != [] && s[0].row == bank.openRow)
    requires 1 <= |s| <= 2 && forall k :: clock <= k < until ==> Stop(bank, s, k) == |s|
    requires (v < clock || until <= v) && (w < clock || until <= w)
    requires until <= v + cfg.RL() + cfg.Burst() && until < w + cfg.WL() + cfg.Burst()
    ensures At(cfg, b, t', until, bank, s, acts, [], v, w)
    decreases until - clock
  {
    hide At, Stop;
    if clock == until {
      return t;
    }
    var next, _ := TickAt(cfg, b, t, clock, bank, s, acts, [], v, w);
    t' := Wait(cfg, b, next, clock + 1, bank, s, acts, v, w, until);
  }

  /** The column command whose row is open takes its ACTIVATE with it. */
  lemma SendLast(cfg: Config, b: nat, t: Trail, bank: BankState, s: seq<Packet>, acts: nat, v: nat, w: nat) returns (t': Trail)
    requires Plain(cfg) && At(cfg, b, t, w, bank, s, acts, [], v, w) && acts < 4
    requires v < w < cfg.refreshCycles
    requires bank.countdown == 0 && bank.state.RowActive? && |s| == 2 && s[0].row == bank.openRow
    requires Lets(bank, s[1], w) && s[1].kind.WRITE? && w <= v + cfg.RL() + cfg.Burst()
    ensures Drained(cfg, t', w + 1, v, w)
  {
    hide InRun, Cycle, Steady, MemorySystem.Shaped, Reads, Writes, CommandQueue.Pop, Split;
    RunIsSteady(cfg, t);
    CycleSchedules(cfg, t.system);
    var out;
    t', out := TickInRun(cfg, t);
    var m := t.system.controller;
    assert Stop(bank, s, w) == 1;
    PopHeld(cfg, b, m, w, bank, s, acts, []);
    var q := CommandQueue.Pop(cfg, AgeBanks(cfg, m.banks), m.queue).0;
    assert s[2..] == [];
    SplitAlone(cfg, b, m.(queue := q), [], 1, acts, w);
    PathsStep(cfg, t, t', out, v, w);
    NothingQueued(t');
  }

  // ---- The run ----

  lemma FirstArrives(cfg: Config, b: nat, t1: Transaction, v: nat, w: nat) returns (t: Trail)
    requires Plain(cfg) && b < cfg.banks
    ensures At(cfg, b, t, 0, RESET_BANK, [], 0, [t1], v, w)
  {
    hide InRun, Held;
    var start := StartRun(cfg);
    t := ArriveInRun(cfg, start, t1);
    ResetHeld(cfg, b, t1);
  }

  lemma NextArrives(cfg: Config, b: nat, t: Trail, clock: nat, bank: BankState, s: seq<Packet>, acts: nat, t2: Transaction,
                    v: nat, w: nat)
    returns (t': Trail)
    requires Plain(cfg) && At(cfg, b, t, clock, bank, s, acts, [], v, w)
    ensures At(cfg, b, t', clock, bank, s, acts, [t2], v, w)
  {
    hide InRun, CommandQueue.Shaped, Alone;
    t' := ArriveInRun(cfg, t, t2);
  }

  predicate Opened(bank: BankState, column: int, write: int, row: nat) {
    && bank.state.RowActive? && bank.openRow == row && bank.countdown == 0
    && bank.nextRead == column && bank.nextWrite == write
  }

  lemma ActivateOpens(cfg: Config, bank: BankState, row: nat, u: int)
    requires cfg.Valid() && bank.countdown == 0 && bank.nextRead <= u && bank.nextWrite <= u
    ensures Opened(BankAfter(cfg, ACTIVATE, bank, true, row, u), u + cfg.ColumnDelay(), u + cfg.ColumnDelay(), row)
  {
  }

  lemma ReadDelaysWrite(cfg: Config, bank: BankState, column: int, row: nat, v: int)
    requires cfg.Valid() && Opened(bank, column, column, row) && column <= v
    ensures
      var bank' := BankAfter(cfg, READ, bank, true, row, v);
      Opened(bank', bank'.nextRead, v + cfg.ReadToWrite(), row)
  {
  }

  /** The row is open and the read waits in the queue. */
  lemma OpenRow(cfg: Config, b: nat, t1: Transaction, v: nat, w: nat) returns (t: Trail, bank: BankState)
    requires Plain(cfg) && b == Locate(cfg, t1.address).bank && v == 1 + FirstColumn(cfg) < w && v <= cfg.refreshCycles
    requires cfg.refreshCycles > 1
    ensures At(cfg, b, t, v, bank, [ColumnFor(cfg, t1)], 1, [], v, w)
    ensures Opened(bank, 1 + cfg.ColumnDelay(), 1 + cfg.ColumnDelay(), ColumnFor(cfg, t1).row)
  {
    hide At, BankAfter, Locate, Opened;
    var a, c := ActivateFor(cfg, t1), ColumnFor(cfg, t1);
    var start := FirstArrives(cfg, b, t1, v, w);
    var asked, _ := TickAt(cfg, b, start, 0, RESET_BANK, [], 0, [t1], v, w);
    assert PairFor(cfg, t1) == [a, c];
    var begun, sent := TickAt(cfg, b, asked, 1, RESET_BANK, [a, c], 0, [], v, w);
    assert [a, c][1..] == [c];
    ActivateOpens(cfg, RESET_BANK, a.row, 1);
    bank := BankNext(cfg, RESET_BANK, sent, true, 1);
    NotYet(cfg, bank, c, 1 + cfg.ColumnDelay(), v);
    t := Wait(cfg, b, begun, 2, bank, [c], 1, v, w, v);
  }

  lemma NotYet(cfg: Config, bank: BankState, c: Packet, column: int, v: nat)
    requires Opened(bank, column, column, c.row) && (c.kind.READ? || c.kind.WRITE?) && v <= Max(column, 2)
    ensures forall k :: 2 <= k < v ==> Stop(bank, [c], k) == 1
    ensures bank.countdown == 0 && bank.state.RowActive? && bank.openRow == c.row
  {
  }

  /** A read and a write of one row share a cycle of the data bus. */
  lemma Overlap(cfg: Config, address: nat) returns (t: Trail)
    requires Plain(cfg) && cfg.tRTRS == 0 && cfg.refreshCycles > 1 + FirstColumn(cfg) + cfg.ReadToWrite()
    ensures InRun(cfg, t) && t.system.controller.dataBus.Some? && t.system.rank.outgoing.Some?
  {
    hide At, BankAfter, Locate, Opened, InRun, Drained;
    var t1, t2 := Transaction(false, address, 0), Transaction(true, address, 0);
    var b, v := Locate(cfg, address).bank, 1 + FirstColumn(cfg);
    var w := v + cfg.ReadToWrite();
    var opened', bank := OpenRow(cfg, b, t1, v, w);
    var c := ColumnFor(cfg, t1);
    var asked := NextArrives(cfg, b, opened', v, bank, [c], 1, t2, v, w);
    var bank', read := SendRead(cfg, b, asked, bank, t1, t2, v, w);
    var s := PairFor(cfg, t2);
    NotYetWrite(cfg, bank', s, v, w);
    var ready := Wait(cfg, b, read, v + 1, bank', s, 1, v, w, w);
    var sent := SendLast(cfg, b, ready, bank', s, 1, v, w);
    t := Drain(cfg, sent, w + 1, v, w, w + cfg.WL() + 1);
    BothBusy(cfg, t, w + cfg.WL() + 1, v, w);
  }

  lemma SendRead(cfg: Config, b: nat, t: Trail, bank: BankState, t1: Transaction, t2: Transaction, v: nat, w: nat)
    returns (bank': BankState, t': Trail)
    requires Plain(cfg) && At(cfg, b, t, v, bank, [ColumnFor(cfg, t1)], 1, [t2], v, w) && v < cfg.refreshCycles
    requires !t1.isWrite && b == Locate(cfg, t2.address).bank && v == 1 + FirstColumn(cfg) < w
    requires Opened(bank, 1 + cfg.ColumnDelay(), 1 + cfg.ColumnDelay(), ColumnFor(cfg, t1).row)
    ensures At(cfg, b, t', v + 1, bank', PairFor(cfg, t2), 1, [], v, w)
    ensures Opened(bank', bank'.nextRead, v + cfg.ReadToWrite(), ColumnFor(cfg, t1).row)
  {
    hide At, BankAfter, Locate;
    var c := ColumnFor(cfg, t1);
    ReadDelaysWrite(cfg, bank, 1 + cfg.ColumnDelay(), c.row, v);
    var sent;
    t', sent := TickAt(cfg, b, t, v, bank, [c], 1, [t2], v, w);
    bank' := BankNext(cfg, bank, sent, true, v);
  }

  lemma NotYetWrite(cfg: Config, bank: BankState, s: seq<Packet>, v: nat, w: nat)
    requires |s| == 2 && s[0].kind.ACTIVATE? && s[1].kind.WRITE? && s[0].row == s[1].row
    requires Opened(bank, bank.nextRead, w, s[0].row)
    ensures forall k :: v < k < w ==> Stop(bank, s, k) == 2
    ensures bank.countdown == 0 && bank.state.RowActive? && bank.openRow == s[0].row && Lets(bank, s[1], w)
  {
  }

  ghost predicate NeverBoth(cfg: Config, events: seq<Event>) {
    Run(cfg, events).Ok? &&
    var s := Run(cfg, events).value.system;
    !(s.controller.dataBus.Some? && s.rank.outgoing.Some?)
  }
}
