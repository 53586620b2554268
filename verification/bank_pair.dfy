/** Two busy banks in close page, cycle by cycle. */
module BankPair {
  import opened DramTypes
  import opened Wrappers
  import opened MemoryController
  import opened MemorySystem
  import opened Runs
  import opened QuietRun
  import opened DataPaths
  import opened Progress
  import opened RunProgress
  import opened BusGap
  import CommandQueue
  import RoundRobin

  // ---- Two busy banks ----

  /** Only banks b0 and b1 have packets queued, s0 and s1, those of b0 first where they share a queue. */
  predicate TwoQueued(cfg: Config, b0: nat, b1: nat, q: CommandQueue.QueueState, s0: seq<Packet>, s1: seq<Packet>, acts: nat, clock: int)
  {
    && b0 < cfg.banks && b1 < cfg.banks && b0 != b1 && |q.accesses| == cfg.banks && |q.queues| == CommandQueue.QueueCount(cfg)
    && q.nextBank < cfg.banks && q.nextBankPre < cfg.banks
    && (if cfg.queuing.PerRank? then q.queues == [s0 + s1]
        else && q.queues[b0] == s0 && q.queues[b1] == s1
             && forall n :: 0 <= n < |q.queues| && n != b0 && n != b1 ==> q.queues[n] == [])
    && (forall k :: 0 <= k < |s0| ==> s0[k].bank == b0) && (forall k :: 0 <= k < |s1| ==> s1[k].bank == b1)
    && OneRequest(cfg, s0) && OneRequest(cfg, s1)
    && q.accesses[b0] == 0 && q.accesses[b1] == 0 && |q.window| <= acts && !q.refreshWaiting && q.clock == clock
  }

  lemma TwoShaped(cfg: Config, b0: nat, b1: nat, q: CommandQueue.QueueState, s0: seq<Packet>, s1: seq<Packet>, acts: nat, clock: int,
                  banks: seq<BankState>)
    requires TwoQueued(cfg, b0, b1, q, s0, s1, acts, clock) && |banks| == cfg.banks
    ensures CommandQueue.Shaped(cfg, banks, q)
  {
    forall n, k | 0 <= n < |q.queues| && 0 <= k < |q.queues[n]|
      ensures q.queues[n][k].bank < cfg.banks
    {
      assert cfg.queuing.PerRank? ==> q.queues[n][k] == if k < |s0| then s0[k] else s1[k - |s0|];
      assert cfg.queuing.PerRankPerBank? ==> n == b0 || n == b1;
    }
  }

  /** A bank whose packets are queued is not busy with a countdown or a refresh. */
  predicate AtEase(bank: BankState, s: seq<Packet>) {
    s != [] ==> bank.countdown == 0 && !bank.state.Refreshing?
  }

  /** The first packet of s may go. */
  predicate Goes(bank: BankState, s: seq<Packet>, clock: int) {
    s != [] && Lets(bank, s[0], clock)
  }

  /** With room in the activation window a packet may be issued if and only if its bank lets it go. */
  lemma IssuableIsLets(cfg: Config, banks: seq<BankState>, q: CommandQueue.QueueState, p: Packet)
    requires cfg.Valid() && p.bank < |banks| && p.bank < |q.accesses| && q.accesses[p.bank] == 0 && |q.window| < 4
    requires p.kind.ACTIVATE? || ColumnOf(cfg, p.kind)
    requires !banks[p.bank].state.Refreshing?
    ensures CommandQueue.Issuable(cfg, banks, q, p) <==> Lets(banks[p.bank], p, q.clock)
  {
  }

  /** A packet of the two queues is eligible if and only if it is the first of its bank and the bank lets it go. */
  lemma HeadsOnly(cfg: Config, b0: nat, b1: nat, banks: seq<BankState>, q: CommandQueue.QueueState, s0: seq<Packet>, s1: seq<Packet>,
                  acts: nat, clock: int, n: nat, i: nat)
    requires cfg.Valid() && cfg.rowPolicy.ClosePage? && |banks| == cfg.banks && acts < 4
    requires TwoQueued(cfg, b0, b1, q, s0, s1, acts, clock) && AtEase(banks[b0], s0) && AtEase(banks[b1], s1)
    requires n < |q.queues| && i < |q.queues[n]|
    ensures CommandQueue.Shaped(cfg, banks, q)
    ensures CommandQueue.Eligible(cfg, banks, q, q.queues[n], i) <==>
      || (n == CommandQueue.QueueIndex(cfg, b0) && i == 0 && Goes(banks[b0], s0, clock))
      || (n == CommandQueue.QueueIndex(cfg, b1) && i == Second(cfg, s0) && Goes(banks[b1], s1, clock))
  {
    hide Lets, CommandQueue.Issuable;
    TwoShaped(cfg, b0, b1, q, s0, s1, acts, clock, banks);
    IssuableIsLets(cfg, banks, q, q.queues[n][i]) by {
      PacketOfTwo(cfg, b0, b1, q, s0, s1, acts, clock, n, i);
    }
    if cfg.queuing.PerRank? {
      SharedHeads(cfg, s0, s1, i);
    }
  }

  lemma PacketOfTwo(cfg: Config, b0: nat, b1: nat, q: CommandQueue.QueueState, s0: seq<Packet>, s1: seq<Packet>, acts: nat, clock: int,
                    n: nat, i: nat)
    requires TwoQueued(cfg, b0, b1, q, s0, s1, acts, clock) && n < |q.queues| && i < |q.queues[n]|
    ensures
      var p := q.queues[n][i];
      (p.kind.ACTIVATE? || ColumnOf(cfg, p.kind)) && ((p.bank == b0 && p in s0) || (p.bank == b1 && p in s1))
  {
    assert cfg.queuing.PerRank? ==> q.queues[n][i] == if i < |s0| then s0[i] else s1[i - |s0|];
    assert cfg.queuing.PerRankPerBank? ==> n == b0 || n == b1;
  }

  /** In a shared queue all packets but the first of each bank follow their ACTIVATE. */
  lemma SharedHeads(cfg: Config, s0: seq<Packet>, s1: seq<Packet>, i: nat)
    requires OneRequest(cfg, s0) && OneRequest(cfg, s1) && i < |s0 + s1|
    ensures CommandQueue.Paired(s0 + s1, i) <==> i != 0 && i != |s0|
    ensures (i == 0 && s0 != [] ==> (s0 + s1)[i] == s0[0]) && (i == |s0| ==> (s0 + s1)[i] == s1[0])
  {
    var s := s0 + s1;
    assert s[i] == if i < |s0| then s0[i] else s1[i - |s0|];
    assert i > 0 ==> s[i - 1] == if i - 1 < |s0| then s0[i - 1] else s1[i - 1 - |s0|];
  }

  /** Where the packets of the second bank begin. */
  function Second(cfg: Config, s0: seq<Packet>): nat {
    if cfg.queuing.PerRank? then |s0| else 0
  }

  lemma TakenFirst(cfg: Config, b0: nat, b1: nat, q: CommandQueue.QueueState, s0: seq<Packet>, s1: seq<Packet>, acts: nat, clock: int)
    requires cfg.rowPolicy.ClosePage? && TwoQueued(cfg, b0, b1, q, s0, s1, acts, clock) && s0 != []
    ensures
      var n := CommandQueue.QueueIndex(cfg, b0);
      && n < |q.queues| && 0 < |q.queues[n]| && q.queues[n][0] == s0[0]
      && TwoQueued(cfg, b0, b1, CommandQueue.Finished(cfg, CommandQueue.Taken(cfg, q, CommandQueue.Send(n, 0, true)), s0[0].kind),
                   s0[1..], s1, Acts(s0, acts), clock)
  {
    hide OneRequest;
    RestIsOneRequest(cfg, s0, Transaction(false, 0, 0));
    if cfg.queuing.PerRank? {
      assert RemoveAt(s0 + s1, 0) == s0[1..] + s1;
    } else {
      assert RemoveAt(s0, 0) == s0[1..];
    }
  }

  lemma TakenSecond(cfg: Config, b0: nat, b1: nat, q: CommandQueue.QueueState, s0: seq<Packet>, s1: seq<Packet>, acts: nat, clock: int)
    requires cfg.rowPolicy.ClosePage? && TwoQueued(cfg, b0, b1, q, s0, s1, acts, clock) && s1 != []
    ensures
      var n, i := CommandQueue.QueueIndex(cfg, b1), Second(cfg, s0);
      && n < |q.queues| && i < |q.queues[n]| && q.queues[n][i] == s1[0]
      && TwoQueued(cfg, b0, b1, CommandQueue.Finished(cfg, CommandQueue.Taken(cfg, q, CommandQueue.Send(n, i, true)), s1[0].kind),
                   s0, s1[1..], Acts(s1, acts), clock)
  {
    hide OneRequest;
    RestIsOneRequest(cfg, s1, Transaction(false, 0, 0));
    if cfg.queuing.PerRank? {
      assert RemoveAt(s0 + s1, |s0|) == s0 + s1[1..];
    } else {
      assert RemoveAt(s1, 0) == s1[1..];
    }
  }

  /** Pop sends the one packet that may go. */
  lemma PopTwo(cfg: Config, b0: nat, b1: nat, banks: seq<BankState>, q: CommandQueue.QueueState, s0: seq<Packet>, s1: seq<Packet>,
               acts: nat, clock: int)
    requires cfg.Valid() && cfg.rowPolicy.ClosePage? && |banks| == cfg.banks && acts < 4
    requires TwoQueued(cfg, b0, b1, q, s0, s1, acts, clock) && AtEase(banks[b0], s0) && AtEase(banks[b1], s1)
    requires !(Goes(banks[b0], s0, clock) && Goes(banks[b1], s1, clock))
    ensures CommandQueue.Shaped(cfg, banks, q)
    ensures
      var (q', sent) := CommandQueue.Pop(cfg, banks, q);
      if Goes(banks[b0], s0, clock) then sent == Some(s0[0]) && TwoQueued(cfg, b0, b1, q', s0[1..], s1, Acts(s0, acts), clock)
      else if Goes(banks[b1], s1, clock) then sent == Some(s1[0]) && TwoQueued(cfg, b0, b1, q', s0, s1[1..], Acts(s1, acts), clock)
      else sent == None && TwoQueued(cfg, b0, b1, q', s0, s1, acts, clock)
  {
    hide CommandQueue.Eligible, Lets, CommandQueue.QueueChoice, OneRequest;
    var aged := q.(window := CommandQueue.AgeWindow(q.window));
    assert |aged.window| <= |q.window|;
    TwoShaped(cfg, b0, b1, q, s0, s1, acts, clock, banks);
    forall n: nat, i: nat | n < |aged.queues| && i < |aged.queues[n]|
      ensures CommandQueue.Eligible(cfg, banks, aged, aged.queues[n], i) <==>
        || (n == CommandQueue.QueueIndex(cfg, b0) && i == 0 && Goes(banks[b0], s0, clock))
        || (n == CommandQueue.QueueIndex(cfg, b1) && i == Second(cfg, s0) && Goes(banks[b1], s1, clock))
    {
      HeadsOnly(cfg, b0, b1, banks, aged, s0, s1, acts, clock, n, i);
    }
    if Goes(banks[b0], s0, clock) {
      TakenFirst(cfg, b0, b1, aged, s0, s1, acts, clock);
      OnlyChoice(cfg, banks, aged, CommandQueue.QueueIndex(cfg, b0), 0);
    } else if Goes(banks[b1], s1, clock) {
      TakenSecond(cfg, b0, b1, aged, s0, s1, acts, clock);
      OnlyChoice(cfg, banks, aged, CommandQueue.QueueIndex(cfg, b1), Second(cfg, s0));
    } else {
      RoundRobin.SearchIdleIff(cfg, banks, aged);
    }
  }

  /** The transaction to be split is for a bank that has nothing queued, and its packets fit and join the end. */
  predicate Fits(cfg: Config, b0: nat, b1: nat, s0: seq<Packet>, s1: seq<Packet>, ts: seq<Transaction>) {
    ts == [] || (|ts| == 1 && s1 == [] && Second(cfg, s0) + 2 <= cfg.cmdQueueDepth
                 && var b := Locate(cfg, ts[0].address).bank; b == b1 || (b == b0 && s0 == []))
  }

  /** What joins the queue of bank b. */
  function Joining(cfg: Config, b: nat, ts: seq<Transaction>): seq<Packet> {
    if ts != [] && Locate(cfg, ts[0].address).bank == b then PairFor(cfg, ts[0]) else []
  }

  lemma SplitTwo(cfg: Config, b0: nat, b1: nat, m: ControllerState, s0: seq<Packet>, s1: seq<Packet>, acts: nat, clock: int)
    requires TwoQueued(cfg, b0, b1, m.queue, s0, s1, acts, clock) && Fits(cfg, b0, b1, s0, s1, m.transactions)
    ensures Split(cfg, m).Ok?
    ensures
      var m' := Split(cfg, m).value;
      && m'.transactions == []
      && TwoQueued(cfg, b0, b1, m'.queue, s0 + Joining(cfg, b0, m.transactions), s1 + Joining(cfg, b1, m.transactions), acts, clock)
  {
    hide Locate, OneRequest, PairFor;
    if m.transactions == [] {
      assert s0 + Joining(cfg, b0, m.transactions) == s0 && s1 + Joining(cfg, b1, m.transactions) == s1;
    } else {
      var t := m.transactions[0];
      SplitJoins(cfg, m, t, CommandQueue.QueueIndex(cfg, Locate(cfg, t.address).bank));
      JoinTwo(cfg, b0, b1, m.queue, s0, s1, acts, clock, t);
    }
  }

  lemma JoinTwo(cfg: Config, b0: nat, b1: nat, q: CommandQueue.QueueState, s0: seq<Packet>, s1: seq<Packet>, acts: nat, clock: int,
                t: Transaction)
    requires TwoQueued(cfg, b0, b1, q, s0, s1, acts, clock) && Fits(cfg, b0, b1, s0, s1, [t])
    ensures
      var n := CommandQueue.QueueIndex(cfg, Locate(cfg, t.address).bank);
      && n < |q.queues|
      && TwoQueued(cfg, b0, b1, q.(queues := q.queues[n := q.queues[n] + PairFor(cfg, t)]), s0 + Joining(cfg, b0, [t]),
                   s1 + Joining(cfg, b1, [t]), acts, clock)
  {
    hide Locate, OneRequest, PairFor;
    RestIsOneRequest(cfg, s0, t);
    PairBank(cfg, t);
    var s0', s1' := s0 + Joining(cfg, b0, [t]), s1 + Joining(cfg, b1, [t]);
    if Locate(cfg, t.address).bank == b1 {
      assert s0' == s0 && s1' == PairFor(cfg, t);
    } else {
      assert s0' == PairFor(cfg, t) && s1' == [];
    }
    assert s0' + s1' == s0 + s1 + PairFor(cfg, t);
  }

  lemma PairBank(cfg: Config, t: Transaction)
    ensures forall k :: 0 <= k < |PairFor(cfg, t)| ==> PairFor(cfg, t)[k].bank == Locate(cfg, t.address).bank
  {
    hide Locate;
  }

  lemma SplitJoins(cfg: Config, m: ControllerState, t: Transaction, n: nat)
    requires m.transactions == [t] && n == CommandQueue.QueueIndex(cfg, Locate(cfg, t.address).bank) < |m.queue.queues|
    requires |m.queue.queues[n]| + 2 <= cfg.cmdQueueDepth
    ensures Split(cfg, m).Ok?
    ensures
      var m' := Split(cfg, m).value;
      m'.transactions == [] && m'.queue == m.queue.(queues := m.queue.queues[n := m.queue.queues[n] + PairFor(cfg, t)])
  {
    hide Locate;
    assert Splittable(cfg, m.queue, t);
    var s := m.queue.queues[n];
    assert s + [ActivateFor(cfg, t)] + [ColumnFor(cfg, t)] == s + PairFor(cfg, t);
  }

  /** An awake controller before the update of the given cycle, as far as the two banks are concerned. */
  predicate TwoHeld(cfg: Config, b0: nat, b1: nat, m: ControllerState, clock: nat, bank0: BankState, bank1: BankState,
                    s0: seq<Packet>, s1: seq<Packet>, acts: nat, ts: seq<Transaction>)
  {
    && Calm(cfg, m, clock, ts) && TwoQueued(cfg, b0, b1, m.queue, s0, s1, acts, clock)
    && m.banks[b0] == bank0 && m.banks[b1] == bank1
  }

  /** What is sent, when only one of the two may go. */
  function Going(bank0: BankState, bank1: BankState, s0: seq<Packet>, s1: seq<Packet>, clock: int): Option<Packet> {
    if Goes(bank0, s0, clock) then Some(s0[0]) else if Goes(bank1, s1, clock) then Some(s1[0]) else None
  }

  /** What is left of a bank's packets. */
  function Rest(goes: bool, s: seq<Packet>): seq<Packet>
    requires goes ==> s != []
  {
    if goes then s[1..] else s
  }

  predicate Steps(cfg: Config, b0: nat, b1: nat, clock: nat, bank0: BankState, bank1: BankState, s0: seq<Packet>, s1: seq<Packet>,
                  acts: nat, ts: seq<Transaction>)
  {
    var g0, g1 := Goes(bank0, s0, clock), Goes(bank1, s1, clock);
    && acts < 4 && clock < cfg.refreshCycles && AtEase(bank0, s0) && AtEase(bank1, s1) && !(g0 && g1)
    && Fits(cfg, b0, b1, Rest(g0, s0), Rest(g1, s1), ts) && (ts != [] || Rest(g0, s0) != [] || Rest(g1, s1) != [])
  }

  function ActsAfter(bank0: BankState, bank1: BankState, s0: seq<Packet>, s1: seq<Packet>, acts: nat, clock: int): nat {
    var sent := Going(bank0, bank1, s0, s1, clock);
    if sent.Some? && sent.value.kind.ACTIVATE? then acts + 1 else acts
  }

  lemma AgedAtEase(cfg: Config, bank: BankState, s: seq<Packet>, clock: int)
    requires AtEase(bank, s)
    ensures AtEase(AgeBank(cfg, bank), s) && Goes(AgeBank(cfg, bank), s, clock) == Goes(bank, s, clock)
  {
  }

  lemma PopHeldTwo(cfg: Config, b0: nat, b1: nat, m: ControllerState, clock: nat, bank0: BankState, bank1: BankState,
                   s0: seq<Packet>, s1: seq<Packet>, acts: nat, ts: seq<Transaction>)
    requires cfg.Valid() && cfg.rowPolicy.ClosePage? && TwoHeld(cfg, b0, b1, m, clock, bank0, bank1, s0, s1, acts, ts)
    requires Steps(cfg, b0, b1, clock, bank0, bank1, s0, s1, acts, ts)
    ensures CommandQueue.Shaped(cfg, AgeBanks(cfg, m.banks), m.queue)
    ensures
      var (q', sent) := CommandQueue.Pop(cfg, AgeBanks(cfg, m.banks), m.queue);
      && sent == Going(bank0, bank1, s0, s1, clock) && q'.clock == clock
      && TwoQueued(cfg, b0, b1, q', Rest(Goes(bank0, s0, clock), s0), Rest(Goes(bank1, s1, clock), s1),
                   ActsAfter(bank0, bank1, s0, s1, acts, clock), clock)
      && (sent.Some? ==> sent.value.bank == if Goes(bank0, s0, clock) then b0 else b1)
  {
    hide CommandQueue.Pop, AgeBank, Lets, OneRequest, AtEase;
    var aged := AgeBanks(cfg, m.banks);
    AgedAtEase(cfg, bank0, s0, clock);
    AgedAtEase(cfg, bank1, s1, clock);
    PopTwo(cfg, b0, b1, aged, m.queue, s0, s1, acts, clock);
  }

  /** One update of the two banks. */
  lemma TwoStep(cfg: Config, b0: nat, b1: nat, m: ControllerState, sent: Option<Packet>, m': ControllerState, clock: nat,
                bank0: BankState, bank1: BankState, s0: seq<Packet>, s1: seq<Packet>, acts: nat, ts: seq<Transaction>)
    requires cfg.Valid() && cfg.rowPolicy.ClosePage? && TwoHeld(cfg, b0, b1, m, clock, bank0, bank1, s0, s1, acts, ts)
    requires Steps(cfg, b0, b1, clock, bank0, bank1, s0, s1, acts, ts) && Scheduled(cfg, m, sent, m') && m'.clock == clock + 1
    ensures sent == Going(bank0, bank1, s0, s1, clock)
    ensures
      var g0, g1 := Goes(bank0, s0, clock), Goes(bank1, s1, clock);
      TwoHeld(cfg, b0, b1, m', clock + 1, BankNext(cfg, bank0, sent, g0, clock), BankNext(cfg, bank1, sent, g1, clock),
              Rest(g0, s0) + Joining(cfg, b0, ts), Rest(g1, s1) + Joining(cfg, b1, ts),
              ActsAfter(bank0, bank1, s0, s1, acts, clock), [])
  {
    hide CommandQueue.Pop, Split, AgeBank, BankAfter, Lets, Locate, CommandQueue.Shaped, OneRequest, AtEase, Fits, Joining, TwoQueued;
    PopHeldTwo(cfg, b0, b1, m, clock, bank0, bank1, s0, s1, acts, ts);
    var q := CommandQueue.Pop(cfg, AgeBanks(cfg, m.banks), m.queue).0;
    var rest0, rest1 := Rest(Goes(bank0, s0, clock), s0), Rest(Goes(bank1, s1, clock), s1);
    var acts' := ActsAfter(bank0, bank1, s0, s1, acts, clock);
    SplitTwo(cfg, b0, b1, m.(queue := q), rest0, rest1, acts', clock);
    var next0, next1 := rest0 + Joining(cfg, b0, ts), rest1 + Joining(cfg, b1, ts);
    ClockGoesOn(cfg, b0, b1, Split(cfg, m.(queue := q)).value.queue, m'.queue, next0, next1, acts', clock);
    SomethingLeft(cfg, b0, b1, rest0, rest1, ts);
    TwoBusy(cfg, b0, b1, m'.queue, next0, next1, acts', clock + 1);
    TwoShaped(cfg, b0, b1, m'.queue, next0, next1, acts', clock + 1, m'.banks);
  }

  lemma ClockGoesOn(cfg: Config, b0: nat, b1: nat, q: CommandQueue.QueueState, q': CommandQueue.QueueState, s0: seq<Packet>,
                    s1: seq<Packet>, acts: nat, clock: int)
    requires TwoQueued(cfg, b0, b1, q, s0, s1, acts, clock)
    ensures b0 < cfg.banks && b1 < cfg.banks && b0 != b1
    ensures q' == q.(clock := clock + 1) ==> TwoQueued(cfg, b0, b1, q', s0, s1, acts, clock + 1)
  {
  }

  lemma SomethingLeft(cfg: Config, b0: nat, b1: nat, s0: seq<Packet>, s1: seq<Packet>, ts: seq<Transaction>)
    requires Fits(cfg, b0, b1, s0, s1, ts) && (ts != [] || s0 != [] || s1 != [])
    ensures s0 + Joining(cfg, b0, ts) != [] || s1 + Joining(cfg, b1, ts) != []
  {
    hide Locate;
  }

  lemma TwoBusy(cfg: Config, b0: nat, b1: nat, q: CommandQueue.QueueState, s0: seq<Packet>, s1: seq<Packet>, acts: nat, clock: int)
    requires TwoQueued(cfg, b0, b1, q, s0, s1, acts, clock) && (s0 != [] || s1 != [])
    ensures QueueBusy(q)
  {
    hide OneRequest;
    assert cfg.queuing.PerRank? ==> q.queues[0] == s0 + s1;
    assert cfg.queuing.PerRankPerBank? ==> q.queues[b0] == s0 && q.queues[b1] == s1;
  }

  // ---- Runs ----

  /** A run stands before the given cycle with the two banks held. */
  ghost predicate Stands(cfg: Config, b0: nat, b1: nat, t: Trail, clock: nat, bank0: BankState, bank1: BankState,
                         s0: seq<Packet>, s1: seq<Packet>, acts: nat, ts: seq<Transaction>, v: nat, w: nat)
  {
    && InRun(cfg, t) && t.system.pending == [] && |t.trace| == clock
    && TwoHeld(cfg, b0, b1, t.system.controller, clock, bank0, bank1, s0, s1, acts, ts) && Reads(cfg, t, v) && Writes(cfg, t, w)
  }

  /** Close page, and room for three packets in a queue that the banks share. */
  predicate ClosedRoomy(cfg: Config) {
    Roomy(cfg) && cfg.rowPolicy.ClosePage? && (cfg.queuing.PerRank? ==> cfg.cmdQueueDepth >= 3)
  }

  lemma StandsTick(cfg: Config, b0: nat, b1: nat, t: Trail, clock: nat, bank0: BankState, bank1: BankState,
                   s0: seq<Packet>, s1: seq<Packet>, acts: nat, ts: seq<Transaction>, v: nat, w: nat)
    returns (t': Trail)
    requires ClosedRoomy(cfg) && Stands(cfg, b0, b1, t, clock, bank0, bank1, s0, s1, acts, ts, v, w)
    requires Steps(cfg, b0, b1, clock, bank0, bank1, s0, s1, acts, ts)
    requires var sent := Going(bank0, bank1, s0, s1, clock);
      (IsReadPacket(sent) <==> clock == v) && (IsWritePacket(sent) <==> clock == w)
    requires clock <= v + cfg.RL() + cfg.Burst() && clock < w + cfg.WL() + cfg.Burst()
    ensures
      var sent, g0, g1 := Going(bank0, bank1, s0, s1, clock), Goes(bank0, s0, clock), Goes(bank1, s1, clock);
      && t'.trace == t.trace + [sent]
      && Stands(cfg, b0, b1, t', clock + 1, BankNext(cfg, bank0, sent, g0, clock), BankNext(cfg, bank1, sent, g1, clock),
                Rest(g0, s0) + Joining(cfg, b0, ts), Rest(g1, s1) + Joining(cfg, b1, ts),
                ActsAfter(bank0, bank1, s0, s1, acts, clock), [], v, w)
  {
    hide InRun, Cycle, Scheduled, Steady, Locate, BankNext, MemorySystem.Shaped, CommandQueue.Shaped, TwoQueued, Reads, Writes,
      Steps, Joining, Lets;
    assert clock < cfg.refreshCycles by {
      StepsInTime(cfg, b0, b1, clock, bank0, bank1, s0, s1, acts, ts);
    }
    RunIsSteady(cfg, t);
    CycleSchedules(cfg, t.system);
    var out;
    t', out := TickInRun(cfg, t);
    RunIsSteady(cfg, t');
    TwoStep(cfg, b0, b1, t.system.controller, out.issued, t'.system.controller, clock, bank0, bank1, s0, s1, acts, ts);
    PathsStep(cfg, t, t', out, v, w);
  }

  lemma StepsInTime(cfg: Config, b0: nat, b1: nat, clock: nat, bank0: BankState, bank1: BankState, s0: seq<Packet>, s1: seq<Packet>,
                    acts: nat, ts: seq<Transaction>)
    requires Steps(cfg, b0, b1, clock, bank0, bank1, s0, s1, acts, ts)
    ensures clock < cfg.refreshCycles
  {
  }

  /** Nothing is sent until a given cycle. */
  lemma {:induction false} TwoWait(cfg: Config, b0: nat, b1: nat, t: Trail, clock: nat, bank0: BankState, bank1: BankState,
                                   s0: seq<Packet>, s1: seq<Packet>, acts: nat, v: nat, w: nat, until: nat)
    returns (t': Trail, bank0': BankState)
    requires ClosedRoomy(cfg) && Stands(cfg, b0, b1, t, clock, bank0, bank1, s0, s1, acts, [], v, w) && acts < 4
    requires clock <= until <= cfg.refreshCycles && (s0 != [] || s1 != []) && AtEase(bank0, s0) && bank1.countdown == 0
    requires AtEase(bank1, s1)
    requires forall k :: clock <= k < until ==> !Goes(bank0, s0, k) && !Goes(bank1, s1, k)
    requires (v < clock || until <= v) && (w < clock || until <= w)
    requires until <= v + cfg.RL() + cfg.Burst() && until < w + cfg.WL() + cfg.Burst()
    ensures Stands(cfg, b0, b1, t', until, bank0', bank1, s0, s1, acts, [], v, w) && (s0 != [] ==> bank0' == bank0)
    decreases until - clock
  {
    hide Stands, Lets;
    if clock == until {
      return t, bank0;
    }
    var next := StandsTick(cfg, b0, b1, t, clock, bank0, bank1, s0, s1, acts, [], v, w);
    assert s0 + [] == s0 && s1 + [] == s1;
    t', bank0' := TwoWait(cfg, b0, b1, next, clock + 1, AgeBank(cfg, bank0), bank1, s0, s1, acts, v, w, until);
  }
}
