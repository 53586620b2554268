/** The row closing can pass a bank over for ever: a run in which one bank reopens and is closed again and again. */
module ClosingGap {
  import opened BitOps
  import opened DramTypes
  import opened Wrappers
  import opened AddressMapping
  import opened MemoryController
  import opened MemorySystem
  import opened Runs
  import opened QuietRun
  import opened Progress
  import opened RunProgress
  import opened RoundRobin
  import CommandQueue

  /** Open page with several banks, and a row that can be opened, read and closed in three cycles. */
  predicate Brisk(cfg: Config) {
    && Roomy(cfg) && cfg.rowPolicy.OpenPage? && cfg.banks >= 2
    && cfg.ColumnDelay() <= 1 && cfg.tRAS <= 2 && cfg.tRC <= 3 && cfg.tRP == 1 && cfg.ReadToPre() <= 1 && cfg.tRRD <= 2
    && cfg.ColumnGap() <= 2 && cfg.tFAW <= 3
  }

  // ---- Bank 0 busy, bank 1 open ----

  predicate OpenIdle(bank: BankState, clock: int) {
    bank.state.RowActive? && bank.countdown == 0 && bank.nextPrecharge <= clock
  }

  /** Before the given cycle: packets only for bank 0, bank 1 open and to be closed, the pointer at bank 0. */
  ghost predicate At(cfg: Config, t: Trail, clock: nat, bank: BankState, s: seq<Packet>, ts: seq<Transaction>) {
    && InRun(cfg, t) && t.system.pending == [] && |t.trace| == clock && cfg.banks >= 2
    && Held(cfg, 0, t.system.controller, clock, bank, s, 3, ts)
    && t.system.controller.queue.nextBankPre == 0 && OpenIdle(t.system.controller.banks[1], 3) && clock >= 3
  }

  /** What pop looks at in the next cycle. */
  function Looked(cfg: Config, t: Trail): Moment {
    Moment(AgeBanks(cfg, t.system.controller.banks), t.system.controller.queue)
  }

  lemma WindowIsShort(cfg: Config, t: Trail)
    requires Brisk(cfg) && InRun(cfg, t)
    ensures |t.system.controller.queue.window| <= 3
  {
    hide InRun;
    InRunLively(cfg, t);
    var w := t.system.controller.queue.window;
    if w != [] {
      Climbs(w, |w| - 1);
    }
  }

  lemma {:induction false} Climbs(w: seq<nat>, k: nat)
    requires k < |w| && (forall i :: 0 <= i < |w| ==> w[i] >= 1) && (forall i, j :: 0 <= i < j < |w| ==> w[i] < w[j])
    ensures w[k] >= k + 1
  {
    if k > 0 {
      Climbs(w, k - 1);
    }
  }

  /** The first packet goes out. */
  lemma PopFirst(cfg: Config, b: nat, m: ControllerState, clock: nat, bank: BankState, s: seq<Packet>, acts: nat, ts: seq<Transaction>)
    requires cfg.Valid() && cfg.rowPolicy.OpenPage? && Held(cfg, b, m, clock, bank, s, acts, ts) && acts < 4
    requires s != [] && Lets(AgeBank(cfg, bank), s[0], clock)
    ensures CommandQueue.Shaped(cfg, AgeBanks(cfg, m.banks), m.queue)
    ensures
      var (q, sent) := CommandQueue.Pop(cfg, AgeBanks(cfg, m.banks), m.queue);
      sent == Some(s[0]) && q.nextBankPre == m.queue.nextBankPre && Alone(cfg, b, q, s[1..], 0, acts + 1, clock)
  {
    hide CommandQueue.Pop, CommandQueue.QueueChoice, NothingToClose, AgeBank;
    var aged := AgeBanks(cfg, m.banks);
    FirstGoes(cfg, b, aged, m.queue.(window := CommandQueue.AgeWindow(m.queue.window)), s, acts, clock);
    PopAlone(cfg, b, aged, m.queue, s, 0, acts, clock, 0);
    assert CommandQueue.Removed(cfg, s, CommandQueue.Send(CommandQueue.QueueIndex(cfg, b), 0, true)) == s[1..];
    AloneShaped(cfg, b, m.queue, s, 0, acts, clock, aged);
    PointerStays(cfg, aged, m.queue);
    CommandQueue.PopQueues(cfg, aged, m.queue);
  }

  lemma FirstGoes(cfg: Config, b: nat, banks: seq<BankState>, q: CommandQueue.QueueState, s: seq<Packet>, acts: nat, clock: nat)
    requires cfg.Valid() && cfg.rowPolicy.OpenPage? && |banks| == cfg.banks && Alone(cfg, b, q, s, 0, acts, clock) && acts < 4
    requires OneRequest(cfg, s) && s != [] && Lets(banks[b], s[0], clock)
    ensures FirstAt(cfg, banks, q, s, 0)
  {
  }

  /** The queued packets want another row of bank 0: bank 0 is closed, and bank 1, which could be, is passed over. */
  lemma PopCloses(cfg: Config, m: ControllerState, clock: nat, bank: BankState, s: seq<Packet>, ts: seq<Transaction>)
    requires cfg.Valid() && cfg.rowPolicy.OpenPage? && cfg.banks >= 2 && Held(cfg, 0, m, clock, bank, s, 3, ts)
    requires |s| == 2 && bank.state.RowActive? && bank.countdown == 0 && bank.nextPrecharge <= clock && s[0].row != bank.openRow
    requires m.queue.nextBankPre == 0 && OpenIdle(m.banks[1], clock)
    ensures CommandQueue.Shaped(cfg, AgeBanks(cfg, m.banks), m.queue)
    ensures PassesOverClosing(cfg, Moment(AgeBanks(cfg, m.banks), m.queue), 1)
    ensures
      var (q, sent) := CommandQueue.Pop(cfg, AgeBanks(cfg, m.banks), m.queue);
      sent == Some(CommandQueue.PrechargePacket(0)) && q.nextBankPre == 0 && Alone(cfg, 0, q, s, 0, 3, clock)
  {
    hide CommandQueue.Pop, CommandQueue.QueueChoice, CommandQueue.FirstForRow;
    var aged := AgeBanks(cfg, m.banks);
    var q := m.queue.(window := CommandQueue.AgeWindow(m.queue.window));
    assert aged[0] == bank && aged[1] == m.banks[1];
    AloneShaped(cfg, 0, m.queue, s, 0, 3, clock, aged);
    NothingGoes(cfg, aged, q, s, clock);
    BothClosable(cfg, aged, q, s, clock);
    ClosesFirst(cfg, aged, q);
    var c := CommandQueue.CloseRow(0, true);
    assert CommandQueue.Decision(cfg, aged, m.queue) == c;
    PointerStays(cfg, aged, m.queue);
    ClosedAlone(cfg, aged, m.queue, s, clock);
  }

  lemma NothingGoes(cfg: Config, banks: seq<BankState>, q: CommandQueue.QueueState, s: seq<Packet>, clock: nat)
    requires cfg.Valid() && cfg.rowPolicy.OpenPage? && |banks| == cfg.banks && Alone(cfg, 0, q, s, 0, 3, clock)
    requires OneRequest(cfg, s) && |s| == 2 && banks[0].state.RowActive? && s[0].row != banks[0].openRow
    ensures CommandQueue.Shaped(cfg, banks, q) && CommandQueue.QueueChoice(cfg, banks, q).Nothing?
  {
    AloneShaped(cfg, 0, q, s, 0, 3, clock, banks);
    forall n, i | 0 <= n < |q.queues| && 0 <= i < |q.queues[n]|
      ensures !CommandQueue.Eligible(cfg, banks, q, q.queues[n], i)
    {
      assert n == CommandQueue.QueueIndex(cfg, 0);
    }
    SearchIdleIff(cfg, banks, q);
  }

  lemma BothClosable(cfg: Config, banks: seq<BankState>, q: CommandQueue.QueueState, s: seq<Packet>, clock: nat)
    requires cfg.Valid() && cfg.banks >= 2 && |banks| == cfg.banks && Alone(cfg, 0, q, s, 0, 3, clock) && OneRequest(cfg, s) && |s| == 2
    requires OpenIdle(banks[0], clock) && OpenIdle(banks[1], clock) && s[0].row != banks[0].openRow
    ensures CommandQueue.Shaped(cfg, banks, q) && CommandQueue.Closable(cfg, banks, q, 0) && CommandQueue.Closable(cfg, banks, q, 1)
  {
    AloneShaped(cfg, 0, q, s, 0, 3, clock, banks);
    var n1 := CommandQueue.QueueIndex(cfg, 1);
    assert forall k :: 0 <= k < |q.queues[n1]| ==> q.queues[n1][k].bank != 1;
    assert forall k :: 0 <= k < |s| ==> s[k].row != banks[0].openRow;
  }

  lemma ClosesFirst(cfg: Config, banks: seq<BankState>, q: CommandQueue.QueueState)
    requires CommandQueue.Shaped(cfg, banks, q) && cfg.rowPolicy.OpenPage? && !q.refreshWaiting && q.nextBankPre == 0
    requires CommandQueue.QueueChoice(cfg, banks, q).Nothing? && CommandQueue.Closable(cfg, banks, q, 0)
    ensures CommandQueue.Choose(cfg, banks, q) == CommandQueue.CloseRow(0, true)
  {
    hide CommandQueue.QueueChoice, CommandQueue.Closable;
    TurnValue(cfg, 0, 0);
    assert CommandQueue.FirstClosable(cfg, banks, q, 0) == 0;
  }

  lemma ClosedAlone(cfg: Config, banks: seq<BankState>, q: CommandQueue.QueueState, s: seq<Packet>, clock: nat)
    requires CommandQueue.Shaped(cfg, banks, q) && Alone(cfg, 0, q, s, 0, 3, clock)
    requires CommandQueue.Decision(cfg, banks, q) == CommandQueue.CloseRow(0, true)
    ensures
      var (q', sent) := CommandQueue.Pop(cfg, banks, q);
      sent == Some(CommandQueue.PrechargePacket(0)) && Alone(cfg, 0, q', s, 0, 3, clock)
  {
    hide CommandQueue.Choose;
    assert |CommandQueue.AgeWindow(q.window)| <= |q.window|;
  }

  // ---- The cycles ----

  /** The rest of a cycle, when it is known what pop takes. */
  lemma TickWith(cfg: Config, t: Trail, clock: nat, bank: BankState, s: seq<Packet>, ts: seq<Transaction>, p: Packet, rest: seq<Packet>)
    returns (t': Trail)
    requires Brisk(cfg) && At(cfg, t, clock, bank, s, ts) && clock < cfg.refreshCycles && p.bank == 0 && OneRequest(cfg, rest)
    requires ts == [] || (|ts| == 1 && rest == [] && Locate(cfg, ts[0].address).bank == 0)
    requires rest != [] || ts != []
    requires p.kind.ACTIVATE? || p.kind.READ? || p.kind.PRECHARGE?
    requires
      var m := t.system.controller;
      && CommandQueue.Shaped(cfg, AgeBanks(cfg, m.banks), m.queue)
      && var (q, sent) := CommandQueue.Pop(cfg, AgeBanks(cfg, m.banks), m.queue);
      sent == Some(p) && q.nextBankPre == 0 && Alone(cfg, 0, q, rest, 0, 4, clock)
    ensures t'.trace == t.trace + [Some(p)]
    ensures At(cfg, t', clock + 1, BankNext(cfg, bank, Some(p), true, clock), if ts == [] then rest else PairFor(cfg, ts[0]), [])
  {
    hide InRun, Cycle, Steady, Locate, BankNext, MemorySystem.Shaped, CommandQueue.Shaped, CommandQueue.Pop, Split, OneRequest;
    RunIsSteady(cfg, t);
    CycleSchedules(cfg, t.system);
    var out;
    t', out := TickInRun(cfg, t);
    RunIsSteady(cfg, t');
    var m, m' := t.system.controller, t'.system.controller;
    HeldNext(cfg, 0, m, Some(p), m', clock, bank, s, 3, ts, rest, 4);
    WindowIsShort(cfg, t');
    PointerAfter(cfg, m, m');
    NeighbourRests(cfg, m.banks, p, clock);
  }

  /** The pointer is not touched by the split. */
  lemma PointerAfter(cfg: Config, m: ControllerState, m': ControllerState)
    requires exists sent :: Scheduled(cfg, m, sent, m')
    ensures CommandQueue.Shaped(cfg, AgeBanks(cfg, m.banks), m.queue)
    ensures m'.queue.nextBankPre == CommandQueue.Pop(cfg, AgeBanks(cfg, m.banks), m.queue).0.nextBankPre
  {
    hide CommandQueue.Pop, Split;
    var q := CommandQueue.Pop(cfg, AgeBanks(cfg, m.banks), m.queue).0;
    SplitEffect(cfg, m.(queue := q), Split(cfg, m.(queue := q)).value);
  }

  lemma NeighbourRests(cfg: Config, banks: seq<BankState>, p: Packet, clock: nat)
    requires |banks| >= 2 && OpenIdle(banks[1], 3) && p.bank == 0 && (p.kind.ACTIVATE? || p.kind.READ? || p.kind.PRECHARGE?)
    ensures OpenIdle(TableAfter(cfg, p, AgeBanks(cfg, banks), clock)[1], 3)
  {
  }

  // ---- One bank reopened ----

  /** From this cycle on the bank can be opened, and read a cycle later. */
  predicate Fresh(cfg: Config, bank: BankState, clock: int) {
    var aged := AgeBank(cfg, bank);
    aged.state.Idle? && aged.countdown == 0 && aged.nextActivate <= clock && aged.nextRead <= clock + 1 && aged.nextPrecharge <= clock + 2
  }

  /** The row has just been opened. */
  predicate JustOpen(cfg: Config, bank: BankState, row: nat, clock: int) {
    && bank.state.RowActive? && bank.countdown == 0 && bank.openRow == row
    && bank.nextRead <= clock && bank.nextPrecharge <= clock + 1 && bank.nextActivate <= clock + 2
  }

  predicate JustRead(cfg: Config, bank: BankState, row: nat, clock: int) {
    && bank.state.RowActive? && bank.countdown == 0 && bank.openRow == row
    && bank.nextRead <= clock + 2 && bank.nextPrecharge <= clock && bank.nextActivate <= clock + 1
  }

  lemma BankSteps(cfg: Config, bank: BankState, row: nat, clock: int)
    requires Brisk(cfg)
    ensures Fresh(cfg, bank, clock) ==> JustOpen(cfg, BankAfter(cfg, ACTIVATE, AgeBank(cfg, bank), true, row, clock), row, clock + 1)
    ensures JustOpen(cfg, bank, row, clock) ==> JustRead(cfg, BankAfter(cfg, READ, AgeBank(cfg, bank), true, row, clock), row, clock + 1)
    ensures JustRead(cfg, bank, row, clock) ==> Fresh(cfg, BankAfter(cfg, PRECHARGE, AgeBank(cfg, bank), true, 0, clock), clock + 1)
  {
  }

  predicate ReadOf0(cfg: Config, t: Transaction, row: nat) {
    !t.isWrite && Locate(cfg, t.address).bank == 0 && Locate(cfg, t.address).row == row
  }

  lemma Opens(cfg: Config, t: Trail, clock: nat, bank: BankState, t1: Transaction, row: nat) returns (t': Trail, bank': BankState)
    requires Brisk(cfg) && At(cfg, t, clock, bank, PairFor(cfg, t1), []) && clock < cfg.refreshCycles && ReadOf0(cfg, t1, row)
    requires Fresh(cfg, bank, clock)
    ensures t'.trace == t.trace + [Some(ActivateFor(cfg, t1))]
    ensures At(cfg, t', clock + 1, bank', [ColumnFor(cfg, t1)], []) && JustOpen(cfg, bank', row, clock + 1)
  {
    hide InRun, Locate, BankAfter, CommandQueue.Pop, CommandQueue.Shaped, Alone;
    var a, c := ActivateFor(cfg, t1), ColumnFor(cfg, t1);
    assert PairFor(cfg, t1) == [a, c] && [a, c][1..] == [c];
    BankSteps(cfg, bank, row, clock);
    PopFirst(cfg, 0, t.system.controller, clock, bank, [a, c], 3, []);
    t' := TickWith(cfg, t, clock, bank, [a, c], [], a, [c]);
    bank' := BankNext(cfg, bank, Some(a), true, clock);
  }

  lemma Reads(cfg: Config, t: Trail, clock: nat, bank: BankState, t1: Transaction, t2: Transaction, row: nat)
    returns (t': Trail, bank': BankState)
    requires Brisk(cfg) && At(cfg, t, clock, bank, [ColumnFor(cfg, t1)], []) && clock < cfg.refreshCycles && ReadOf0(cfg, t1, row)
    requires JustOpen(cfg, bank, row, clock) && Locate(cfg, t2.address).bank == 0
    ensures t'.trace == t.trace + [Some(ColumnFor(cfg, t1))]
    ensures At(cfg, t', clock + 1, bank', PairFor(cfg, t2), []) && JustRead(cfg, bank', row, clock + 1)
  {
    hide InRun, Locate, BankAfter, CommandQueue.Pop, CommandQueue.Shaped, Alone;
    var c := ColumnFor(cfg, t1);
    BankSteps(cfg, bank, row, clock);
    var u := ArriveInRun(cfg, t, t2);
    assert [c][1..] == [] && [] + [t2] == [t2];
    PopFirst(cfg, 0, u.system.controller, clock, bank, [c], 3, [t2]);
    t' := TickWith(cfg, u, clock, bank, [c], [t2], c, []);
    bank' := BankNext(cfg, bank, Some(c), true, clock);
  }

  lemma Closes(cfg: Config, t: Trail, clock: nat, bank: BankState, t2: Transaction, row: nat) returns (t': Trail, bank': BankState)
    requires Brisk(cfg) && At(cfg, t, clock, bank, PairFor(cfg, t2), []) && clock < cfg.refreshCycles
    requires JustRead(cfg, bank, row, clock) && Locate(cfg, t2.address).bank == 0 && Locate(cfg, t2.address).row != row
    ensures t'.trace == t.trace + [Some(CommandQueue.PrechargePacket(0))] && PassesOverClosing(cfg, Looked(cfg, t), 1)
    ensures At(cfg, t', clock + 1, bank', PairFor(cfg, t2), []) && Fresh(cfg, bank', clock + 1)
  {
    hide InRun, Locate, BankAfter, CommandQueue.Pop, CommandQueue.Shaped, Alone;
    var s := PairFor(cfg, t2);
    BankSteps(cfg, bank, row, clock);
    PopCloses(cfg, t.system.controller, clock, bank, s, []);
    MoreActs(cfg, CommandQueue.Pop(cfg, AgeBanks(cfg, t.system.controller.banks), t.system.controller.queue).0, s, clock);
    t' := TickWith(cfg, t, clock, bank, s, [], CommandQueue.PrechargePacket(0), s);
    bank' := BankNext(cfg, bank, Some(CommandQueue.PrechargePacket(0)), true, clock);
  }

  lemma MoreActs(cfg: Config, q: CommandQueue.QueueState, s: seq<Packet>, clock: nat)
    requires Alone(cfg, 0, q, s, 0, 3, clock)
    ensures Alone(cfg, 0, q, s, 0, 4, clock)
  {
  }

  /** A request for another row arrives while the row is read; the row is opened, read and closed. */
  lemma Round(cfg: Config, t: Trail, clock: nat, bank: BankState, t1: Transaction, t2: Transaction, row: nat)
    returns (t': Trail, bank': BankState, seen: Trail)
    requires Brisk(cfg) && At(cfg, t, clock, bank, PairFor(cfg, t1), []) && clock + 3 <= cfg.refreshCycles && ReadOf0(cfg, t1, row)
    requires Fresh(cfg, bank, clock) && Locate(cfg, t2.address).bank == 0 && Locate(cfg, t2.address).row != row
    ensures At(cfg, t', clock + 3, bank', PairFor(cfg, t2), []) && Fresh(cfg, bank', clock + 3)
    ensures t'.trace == t.trace + [Some(ActivateFor(cfg, t1)), Some(ColumnFor(cfg, t1)), Some(CommandQueue.PrechargePacket(0))]
    ensures Closing(cfg, seen, clock + 2) && seen.trace <= t'.trace
  {
    hide At, Locate, Fresh, JustOpen, JustRead;
    var t1', b1 := Opens(cfg, t, clock, bank, t1, row);
    var b2;
    seen, b2 := Reads(cfg, t1', clock + 1, b1, t1, t2, row);
    AtTrail(cfg, seen, clock + 2, b2, PairFor(cfg, t2));
    t', bank' := Closes(cfg, seen, clock + 2, b2, t2, row);
  }

  /** A state of a run before the given cycle, in which the search passes bank 1 over. */
  ghost predicate Closing(cfg: Config, t: Trail, clock: nat) {
    InRun(cfg, t) && |t.trace| == clock && PassesOverClosing(cfg, Looked(cfg, t), 1)
  }

  lemma AtTrail(cfg: Config, t: Trail, clock: nat, bank: BankState, s: seq<Packet>)
    requires At(cfg, t, clock, bank, s, [])
    ensures InRun(cfg, t) && |t.trace| == clock && |t.system.controller.banks| >= 2 && OpenIdle(t.system.controller.banks[1], 3)
  {
    hide InRun, Held;
    assert Held(cfg, 0, t.system.controller, clock, bank, s, 3, []);
    HeldBanks(cfg, t.system.controller, clock, bank, s);
  }

  lemma HeldBanks(cfg: Config, m: ControllerState, clock: nat, bank: BankState, s: seq<Packet>)
    requires Held(cfg, 0, m, clock, bank, s, 3, [])
    ensures |m.banks| == cfg.banks
  {
  }

  /** All commands from the given cycle on are for bank 0. */
  ghost predicate OnlyFirst(trace: seq<Option<Packet>>, from: nat) {
    forall i :: from <= i < |trace| ==> trace[i].Some? && trace[i].value.bank == 0
  }

  /** The command of cycle c closes bank 0, and the search that chose it passed bank 1 over. */
  ghost predicate ClosesAt(cfg: Config, trace: seq<Option<Packet>>, c: nat, seen: Trail) {
    c < |trace| && trace[c] == Some(CommandQueue.PrechargePacket(0)) && Closing(cfg, seen, c) && seen.trace <= trace
  }

  /** What n rounds look like from the given cycle on: every third command closes bank 0 and passes bank 1 over. */
  ghost predicate Unfair(cfg: Config, t: Trail, from: nat, n: nat, seen: seq<Trail>) {
    && InRun(cfg, t) && |t.trace| == from + 3 * n && |seen| == n && OnlyFirst(t.trace, from)
    && forall k :: 0 <= k < n ==> ClosesAt(cfg, t.trace, from + 3 * k + 2, seen[k])
  }

  lemma {:induction false} Rounds(cfg: Config, t: Trail, clock: nat, bank: BankState, t1: Transaction, t2: Transaction,
                                  row1: nat, row2: nat, n: nat)
    returns (t': Trail, seen: seq<Trail>)
    requires Brisk(cfg) && At(cfg, t, clock, bank, PairFor(cfg, t1), []) && clock + 3 * n <= cfg.refreshCycles && Fresh(cfg, bank, clock)
    requires ReadOf0(cfg, t1, row1) && ReadOf0(cfg, t2, row2) && row1 != row2
    ensures t.trace <= t'.trace && Unfair(cfg, t', clock, n, seen)
    ensures |t'.system.controller.banks| >= 2 && OpenIdle(t'.system.controller.banks[1], 3)
    decreases n
  {
    hide At, Locate, Fresh, Closing, ClosesAt, PairFor;
    AtTrail(cfg, t, clock, bank, PairFor(cfg, t1));
    if n == 0 {
      return t, [];
    }
    var u, bank', first := Round(cfg, t, clock, bank, t1, t2, row1);
    AtTrail(cfg, u, clock + 3, bank', PairFor(cfg, t2));
    var rest;
    t', rest := Rounds(cfg, u, clock + 3, bank', t2, t1, row2, row1, n - 1);
    seen := [first] + rest;
    PairBanks(cfg, t1);
    OneMoreRound(cfg, t, u, t', clock, n, first, rest, t1);
  }

  lemma PairBanks(cfg: Config, t: Transaction)
    ensures ActivateFor(cfg, t).bank == ColumnFor(cfg, t).bank == Locate(cfg, t.address).bank
  {
    hide Locate;
  }

  lemma OneMoreRound(cfg: Config, t: Trail, u: Trail, t': Trail, clock: nat, n: nat, first: Trail, rest: seq<Trail>, t1: Transaction)
    requires n > 0 && |t.trace| == clock && u.trace <= t'.trace && Unfair(cfg, t', clock + 3, n - 1, rest)
    requires u.trace == t.trace + [Some(ActivateFor(cfg, t1)), Some(ColumnFor(cfg, t1)), Some(CommandQueue.PrechargePacket(0))]
    requires ActivateFor(cfg, t1).bank == ColumnFor(cfg, t1).bank == 0 && Closing(cfg, first, clock + 2) && first.trace <= u.trace
    ensures t.trace <= t'.trace && Unfair(cfg, t', clock, n, [first] + rest)
  {
    hide InRun, ActivateFor, ColumnFor, ClosesAt, Closing;
    var seen := [first] + rest;
    assert t.trace <= t'.trace;
    forall i | clock <= i < |t'.trace|
      ensures t'.trace[i].Some? && t'.trace[i].value.bank == 0
    {
      assert i < clock + 3 ==> t'.trace[i] == u.trace[i];
    }
    FirstClosing(cfg, u.trace, t'.trace, clock + 2, first);
    forall k | 0 <= k < n
      ensures ClosesAt(cfg, t'.trace, clock + 3 * k + 2, seen[k])
    {
      if k > 0 {
        assert ClosesAt(cfg, t'.trace, clock + 3 + 3 * (k - 1) + 2, rest[k - 1]);
      }
    }
  }

  lemma FirstClosing(cfg: Config, trace: seq<Option<Packet>>, trace': seq<Option<Packet>>, c: nat, seen: Trail)
    requires trace <= trace' && c < |trace| && trace[c] == Some(CommandQueue.PrechargePacket(0))
    requires Closing(cfg, seen, c) && seen.trace <= trace
    ensures ClosesAt(cfg, trace', c, seen)
  {
    hide Closing;
  }

  // ---- The beginning ----

  /** Bank 0 has not been used. */
  predicate Unused(bank: BankState, activate: int, read: int) {
    && bank.state.Idle? && bank.countdown == 0 && bank.nextActivate <= activate && bank.nextRead <= read && bank.nextPrecharge <= 0
  }

  /** Before the given cycle: packets only for bank 1. */
  ghost predicate Before(cfg: Config, t: Trail, clock: nat, bank: BankState, s: seq<Packet>, acts: nat, activate: int) {
    && InRun(cfg, t) && t.system.pending == [] && |t.trace| == clock && cfg.banks >= 2
    && Held(cfg, 1, t.system.controller, clock, bank, s, acts, [])
    && t.system.controller.queue.nextBankPre == 0 && Unused(t.system.controller.banks[0], activate, 0)
  }

  lemma FirstTick(cfg: Config, t0: Transaction) returns (t: Trail)
    requires Brisk(cfg) && Locate(cfg, t0.address).bank == 1
    ensures Before(cfg, t, 1, RESET_BANK, PairFor(cfg, t0), 0, 0)
  {
    hide InRun, Cycle, Steady, Locate, MemorySystem.Shaped, CommandQueue.Pop, Split, PairFor;
    var start := StartRun(cfg);
    var asked := ArriveInRun(cfg, start, t0);
    ResetHeld(cfg, 1, t0);
    RunIsSteady(cfg, asked);
    CycleSchedules(cfg, asked.system);
    var out;
    t, out := TickInRun(cfg, asked);
    RunIsSteady(cfg, t);
    var m, m' := asked.system.controller, t.system.controller;
    NothingYet(cfg, m);
    HeldNext(cfg, 1, m, out.issued, m', 0, RESET_BANK, [], 0, [t0], [], 0);
    PointerAfter(cfg, m, m');
  }

  /** Without packets and open rows nothing is sent. */
  lemma NothingYet(cfg: Config, m: ControllerState)
    requires cfg.Valid() && cfg.banks >= 2 && m.banks == seq(cfg.banks, _ => RESET_BANK) && Alone(cfg, 1, m.queue, [], 0, 0, 0)
    requires m.queue.nextBankPre == 0
    ensures CommandQueue.Shaped(cfg, AgeBanks(cfg, m.banks), m.queue)
    ensures
      var (q, sent) := CommandQueue.Pop(cfg, AgeBanks(cfg, m.banks), m.queue);
      sent == None && q.nextBankPre == 0 && Alone(cfg, 1, q, [], 0, 0, 0)
  {
    hide CommandQueue.Pop;
    var aged := AgeBanks(cfg, m.banks);
    var q := m.queue.(window := CommandQueue.AgeWindow(m.queue.window));
    assert forall b :: 0 <= b < cfg.banks ==> aged[b] == RESET_BANK;
    AloneShaped(cfg, 1, m.queue, [], 0, 0, 0, aged);
    assert NothingToClose(cfg, aged, q);
    PopAlone(cfg, 1, aged, m.queue, [], 0, 0, 0, 0);
    PointerStays(cfg, aged, m.queue);
    CommandQueue.PopQueues(cfg, aged, m.queue);
  }

  lemma SecondTick(cfg: Config, t: Trail, t0: Transaction) returns (t': Trail, bank: BankState)
    requires Brisk(cfg) && Before(cfg, t, 1, RESET_BANK, PairFor(cfg, t0), 0, 0) && cfg.refreshCycles > 1
    requires Locate(cfg, t0.address).bank == 1 && !t0.isWrite
    ensures Before(cfg, t', 2, bank, [ColumnFor(cfg, t0)], 1, 3) && JustOpen(cfg, bank, Locate(cfg, t0.address).row, 2)
  {
    hide InRun, Cycle, Steady, Locate, BankAfter, MemorySystem.Shaped, CommandQueue.Pop, CommandQueue.Shaped, Split;
    var a, c := ActivateFor(cfg, t0), ColumnFor(cfg, t0);
    assert PairFor(cfg, t0) == [a, c] && [a, c][1..] == [c];
    RunIsSteady(cfg, t);
    CycleSchedules(cfg, t.system);
    var out;
    t', out := TickInRun(cfg, t);
    RunIsSteady(cfg, t');
    var m, m' := t.system.controller, t'.system.controller;
    BankSteps(cfg, RESET_BANK, a.row, 1);
    PopFirst(cfg, 1, m, 1, RESET_BANK, [a, c], 0, []);
    HeldNext(cfg, 1, m, out.issued, m', 1, RESET_BANK, [a, c], 0, [], [c], 1);
    PointerAfter(cfg, m, m');
    bank := BankNext(cfg, RESET_BANK, Some(a), true, 1);
    NeighbourUnused(cfg, m.banks, a);
  }

  lemma NeighbourUnused(cfg: Config, banks: seq<BankState>, p: Packet)
    requires Brisk(cfg) && |banks| >= 2 && p.bank == 1
    ensures p.kind.ACTIVATE? && Unused(banks[0], 0, 0) ==> Unused(TableAfter(cfg, p, AgeBanks(cfg, banks), 1)[0], 3, 0)
    ensures p.kind.READ? && Unused(banks[0], 3, 0) ==> Unused(TableAfter(cfg, p, AgeBanks(cfg, banks), 2)[0], 3, 4)
  {
  }

  /** A closed bank has no accesses. */
  lemma NoAccesses(cfg: Config, s: System)
    requires Steady(cfg, s) && |s.controller.banks| > 0 && s.controller.banks[0].state.Idle?
    ensures |s.controller.queue.accesses| > 0 && s.controller.queue.accesses[0] == 0
  {
  }

  /** The row of bank 1 is read and stays open, and the first request for bank 0 is queued. */
  lemma ThirdTick(cfg: Config, t: Trail, bank: BankState, t0: Transaction, t1: Transaction) returns (t': Trail, bank': BankState)
    requires Brisk(cfg) && Before(cfg, t, 2, bank, [ColumnFor(cfg, t0)], 1, 3) && cfg.refreshCycles > 2
    requires JustOpen(cfg, bank, Locate(cfg, t0.address).row, 2) && !t0.isWrite
    requires Locate(cfg, t0.address).bank == 1 && Locate(cfg, t1.address).bank == 0
    ensures At(cfg, t', 3, bank', PairFor(cfg, t1), []) && Fresh(cfg, bank', 3)
  {
    hide InRun, Cycle, Steady, Locate, BankAfter, MemorySystem.Shaped, CommandQueue.Pop, CommandQueue.Shaped, Split, PairFor, Fresh,
      JustOpen, JustRead, Scheduled, Alone, OneRequest;
    var c := ColumnFor(cfg, t0);
    var asked := ArriveInRun(cfg, t, t1);
    RunIsSteady(cfg, asked);
    CycleSchedules(cfg, asked.system);
    var out;
    t', out := TickInRun(cfg, asked);
    RunIsSteady(cfg, t');
    var m, m' := asked.system.controller, t'.system.controller;
    assert [] + [t1] == [t1];
    NoAccesses(cfg, asked.system);
    SwitchBanks(cfg, m.banks, bank, c);
    SwitchHeld(cfg, m, out.issued, m', bank, c, t1);
    bank' := m'.banks[0];
  }

  /** The update in which the last packet for bank 1 goes out and the first ones for bank 0 are queued. */
  lemma SwitchHeld(cfg: Config, m: ControllerState, sent: Option<Packet>, m': ControllerState, bank: BankState, c: Packet, t1: Transaction)
    requires m.queue.nextBankPre == 0 && |m.queue.accesses| > 0 && m.queue.accesses[0] == 0
    requires Brisk(cfg) && Held(cfg, 1, m, 2, bank, [c], 1, [t1]) && Scheduled(cfg, m, sent, m') && m'.clock == 3 <= cfg.refreshCycles
    requires Locate(cfg, t1.address).bank == 0 && c.bank == 1
    requires Lets(AgeBank(cfg, bank), c, 2)
    ensures m'.banks == TableAfter(cfg, c, AgeBanks(cfg, m.banks), 2) && |m'.banks| > 0
    ensures Held(cfg, 0, m', 3, m'.banks[0], PairFor(cfg, t1), 3, []) && m'.queue.nextBankPre == 0
  {
    hide Locate, BankAfter, AgeBank, CommandQueue.Pop, Split, PairFor, Lets, OneRequest;
    assert [c][1..] == [];
    var aged := AgeBanks(cfg, m.banks);
    PopFirst(cfg, 1, m, 2, bank, [c], 1, [t1]);
    var q := CommandQueue.Pop(cfg, aged, m.queue).0;
    var split := Split(cfg, m.(queue := q)).value;
    SplitEffect(cfg, m.(queue := q), split);
    PointerAfter(cfg, m, m');
    OtherAccesses(cfg, aged, m.queue);
    EmptyAlone(cfg, q, 2);
    SplitAlone(cfg, 0, m.(queue := q), [], 0, 2, 2);
    var s := PairFor(cfg, t1);
    assert [] + s == s;
    assert Alone(cfg, 0, split.queue, s, 0, 2, 2) && split.transactions == [];
    ClockStep(cfg, split.queue, m'.queue, s);
    QueuedFor0(cfg, m', m'.banks, s, t1);
    assert !m'.powerDown;
    assert m'.banks == TableAfter(cfg, c, aged, 2);
    assert Calm(cfg, m', 3, []);
  }

  lemma ClockStep(cfg: Config, q: CommandQueue.QueueState, q': CommandQueue.QueueState, s: seq<Packet>)
    requires Alone(cfg, 0, q, s, 0, 2, 2) && q' == q.(clock := 3)
    ensures Alone(cfg, 0, q', s, 0, 2, 3)
  {
  }

  lemma SwitchBanks(cfg: Config, banks: seq<BankState>, bank: BankState, c: Packet)
    requires Brisk(cfg) && |banks| >= 2 && banks[1] == bank && JustOpen(cfg, bank, c.row, 2) && Unused(banks[0], 3, 0)
    requires c.kind.READ? && c.bank == 1
    ensures Lets(AgeBank(cfg, bank), c, 2)
    ensures
      var banks' := TableAfter(cfg, c, AgeBanks(cfg, banks), 2);
      Fresh(cfg, banks'[0], 3) && OpenIdle(banks'[1], 3)
  {
    hide BankAfter;
    BankSteps(cfg, bank, c.row, 2);
    NeighbourUnused(cfg, banks, c);
  }

  lemma OtherAccesses(cfg: Config, banks: seq<BankState>, q: CommandQueue.QueueState)
    requires CommandQueue.Shaped(cfg, banks, q)
    ensures
      var (q', sent) := CommandQueue.Pop(cfg, banks, q);
      |q'.accesses| == |q.accesses| && (sent.Some? && sent.value.bank != 0 ==> q'.accesses[0] == q.accesses[0])
  {
    hide CommandQueue.Choose;
  }

  lemma EmptyAlone(cfg: Config, q: CommandQueue.QueueState, clock: nat)
    requires cfg.banks >= 2 && Alone(cfg, 1, q, [], 0, 2, clock)
    ensures q.accesses[0] == 0 ==> Alone(cfg, 0, q, [], 0, 2, clock)
  {
  }

  lemma QueuedFor0(cfg: Config, m: ControllerState, banks: seq<BankState>, s: seq<Packet>, t1: Transaction)
    requires s == PairFor(cfg, t1)
    ensures OneRequest(cfg, s)
    ensures Alone(cfg, 0, m.queue, s, 0, 2, 3) ==> Alone(cfg, 0, m.queue, s, 0, 3, 3) && QueueBusy(m.queue)
    ensures Alone(cfg, 0, m.queue, s, 0, 2, 3) && |banks| == cfg.banks ==> CommandQueue.Shaped(cfg, banks, m.queue)
  {
    hide Locate;
    if Alone(cfg, 0, m.queue, s, 0, 2, 3) {
      assert m.queue.queues[CommandQueue.QueueIndex(cfg, 0)] == s;
      if |banks| == cfg.banks {
        AloneShaped(cfg, 0, m.queue, s, 0, 2, 3, banks);
      }
    }
  }

  // ---- The theorem ----

  lemma AddressIn(cfg: Config, bank: nat, row: nat) returns (address: nat)
    requires cfg.Valid() && bank < cfg.banks && row < Pow2(cfg.geometry.rowBits)
    ensures Locate(cfg, address).bank == bank && Locate(cfg, address).row == row
  {
    hide Encode, Decode;
    var l := Location(0, 0, bank, row, 0);
    DecodeInvertsEncode(cfg.geometry, l);
    address := Encode(cfg.geometry, l);
  }

  /**
   * For any number of rounds there is a run in which bank 1, with its row open since cycle 1 and no packet queued for it, could be
   * closed from cycle 3 on, and the search closes bank 0 instead every third cycle.
   */
  lemma ClosingIsUnfair(cfg: Config, n: nat) returns (t: Trail, seen: seq<Trail>)
    requires Brisk(cfg) && 3 + 3 * n <= cfg.refreshCycles && Pow2(cfg.geometry.rowBits) >= 2
    ensures Unfair(cfg, t, 3, n, seen)
    ensures |t.system.controller.banks| >= 2 && OpenIdle(t.system.controller.banks[1], 3)
  {
    hide At, Before, Locate, Fresh, JustOpen;
    var a0 := AddressIn(cfg, 1, 0);
    var a1 := AddressIn(cfg, 0, 0);
    var a2 := AddressIn(cfg, 0, 1);
    var t0, t1, t2 := Transaction(false, a0, 0), Transaction(false, a1, 0), Transaction(false, a2, 0);
    var x := FirstTick(cfg, t0);
    var y, bank1 := SecondTick(cfg, x, t0);
    var z, bank0 := ThirdTick(cfg, y, bank1, t0, t1);
    t, seen := Rounds(cfg, z, 3, bank0, t1, t2, 0, 1, n);
  }

  /** There are such configurations, of any refresh period. */
  lemma BriskExists(cfg: Config)
    requires cfg == BriskConfig(cfg.geometry, cfg.refreshCycles) && cfg.geometry.rankBits == 0 && Pow2(cfg.geometry.bankBits) == 2
    requires cfg.refreshCycles >= 1
    ensures Brisk(cfg)
  {
  }

  function BriskConfig(g: Geometry, refreshCycles: nat): Config {
    Config(
      banks := 2, AL := 0, CL := 2, BL := 2,
      tRAS := 2, tRCD := 1, tRRD := 1, tRC := 3, tRP := 1, tCCD := 1, tRTP := 1, tWTR := 1, tWR := 1,
      tRTRS := 1, tRFC := 1, tFAW := 3, tCKE := 1, tXP := 1, tCMD := 1,
      refreshCycles := refreshCycles, transQueueDepth := 1, cmdQueueDepth := 2, totalRowAccesses := 4, useLowPower := true,
      rowPolicy := OpenPage, queuing := PerRank, geometry := g)
  }
}
