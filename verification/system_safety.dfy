/** The invariant of the memory system and its preservation, phase by phase, through one clock cycle. */
module SystemSafety {
  import opened DramTypes
  import opened MemoryController
  import opened TableRefinement
  import opened QueueDiscipline
  import opened PopDiscipline
  import opened BusTiming
  import opened ReadConservation
  import opened Collecting
  import CommandQueue
  import Rank

  predicate ReadOnBus(m: ControllerState) {
    m.cmdBus.Some? && m.cmdBus.value.kind.IsRead()
  }

  /** Everything the parts keep, at the end of cycle `now`; a command on the bus reaches the rank in cycle `arrive`. */
  ghost predicate Sound(cfg: Config, m: ControllerState, r: RankState, now: int, arrive: int) {
    && cfg.Valid()
    && Linked(cfg, m, r, now, arrive)
    && Disciplined(cfg, m.banks, m.queue)
    && WriteBus(cfg, m, now)
    && ReadPipe(cfg, m.banks, r, now)
    && (ReadOnBus(m) ==> ReadDue(cfg, m.banks, r, arrive, now))
    && RefreshShaped(m.refresh)
    && Conserved(cfg, m, r)
  }

  /** As above, but the rank has already started the next cycle. */
  ghost predicate RankAhead(cfg: Config, m: ControllerState, r: RankState, now: int) {
    && cfg.Valid()
    && Linked(cfg, m, r, now, now + 1)
    && Disciplined(cfg, m.banks, m.queue)
    && WriteBus(cfg, m, now)
    && ReadPipe(cfg, m.banks, r, now + 1)
    && (ReadOnBus(m) ==> ReadDue(cfg, m.banks, r, now + 1, now + 1))
    && RefreshShaped(m.refresh)
    && Conserved(cfg, m, r)
  }

  lemma RankStarts(cfg: Config, m: ControllerState, r: RankState, now: int)
    requires Sound(cfg, m, r, now, now + 1)
    ensures
      var (r', delivered) := Rank.Update(cfg, r);
      var res := if delivered.Some? then ReceiveData(m, delivered.value) else Ok(m);
      && res.Ok? && RankAhead(cfg, res.value, r', now)
      && r'.clock == r.clock && res.value.clock == m.clock && res.value.queue == m.queue
  {
    hide Flow, ReadDue, Rel, Expected, Welcome;
    var (r', delivered) := Rank.Update(cfg, r);
    FlowAges(cfg, m.banks, r.readCountdown, r.outgoing.Some?, r.dataCyclesLeft, cfg.RL() + 1, now);
    PipeStarts(cfg, m.banks, r, now);
    var res := if delivered.Some? then ReceiveData(m, delivered.value) else Ok(m);
    forall a: nat
      ensures res.Ok? && Collect(res.value.pendingReads, WaitingAt(a)) == Flight(cfg, res.value, r', a)
    {
      ReturnPathKeeps(cfg, m, r, a);
    }
    SameLink(cfg, m, r, res.value, r', now, now + 1);
  }

  lemma PipeStarts(cfg: Config, banks: seq<BankState>, r: RankState, now: int)
    requires cfg.Valid() && ReadPipe(cfg, banks, r, now)
    ensures
      var (r', delivered) := Rank.Update(cfg, r);
      && ReadPipe(cfg, banks, r', now + 1)
      && (|r'.readPackets| < |r.readPackets| ==> r.outgoing.None? || delivered.Some?)
      && (ReadDue(cfg, banks, r, now + 1, now) ==> ReadDue(cfg, banks, r', now + 1, now + 1))
  {
    FlowAges(cfg, banks, r.readCountdown, r.outgoing.Some?, r.dataCyclesLeft, cfg.RL() + 1, now);
  }

  /** Aging the controller's table changes neither the column times nor the banks that serve a waiting command. */
  lemma TableAges(cfg: Config, m: ControllerState, r: RankState, now: int)
    requires RankAhead(cfg, m, r, now)
    ensures
      var m' := m.(banks := AgeBanks(cfg, m.banks));
      && Linked(cfg, m', r, now + 1, now + 1) && Disciplined(cfg, m'.banks, m.queue)
      && WriteBus(cfg, m', now) && ReadPipe(cfg, m'.banks, r, now + 1)
      && (ReadOnBus(m) ==> ReadDue(cfg, m'.banks, r, now + 1, now + 1))
  {
    var m' := m.(banks := AgeBanks(cfg, m.banks));
    LinkAges(cfg, m, r, now, now + 1);
    forall latency, until | AllClear(m.banks, latency, until)
      ensures AllClear(m'.banks, latency, until)
    {
      forall i | 0 <= i < |m'.banks|
        ensures Clears(m'.banks[i], latency, until)
      {
        assert Clears(m.banks[i], latency, until);
      }
    }
    FlowTable(cfg, m.banks, m'.banks, m.writeCountdown, m.dataBus.Some?, m.dataCyclesLeft, cfg.WL(), now);
    FlowTable(cfg, m.banks, m'.banks, r.readCountdown, r.outgoing.Some?, r.dataCyclesLeft, cfg.RL() + 1, now + 1);
    AgingServes(cfg, m, r, now);
  }

  lemma AgingServes(cfg: Config, m: ControllerState, r: RankState, now: int)
    requires cfg.Valid() && Linked(cfg, m, r, now, now + 1) && Disciplined(cfg, m.banks, m.queue)
    ensures Disciplined(cfg, AgeBanks(cfg, m.banks), m.queue)
  {
    var banks := AgeBanks(cfg, m.banks);
    CommandQueue.SameShape(cfg, m.banks, m.queue, banks, m.queue);
    forall i | 0 <= i < |m.queue.queues|
      ensures Served(banks, m.queue.accesses, m.queue.queues[i])
    {
      var s := m.queue.queues[i];
      forall k | 0 <= k < |s| && Loose(s, k)
        ensures Serving(banks, m.queue.accesses, s[k])
      {
        assert Serving(m.banks, m.queue.accesses, s[k]);
      }
    }
    forall b | 0 <= b < cfg.banks && m.queue.accesses[b] > 0
      ensures banks[b].state.RowActive? && cfg.rowPolicy.OpenPage?
    {
      assert Rel(cfg, m.banks[b], Expected(cfg, m, r, b, now + 1), now);
    }
  }

  /** A read that arrives at the rank takes its place at the end of the pipeline. */
  lemma PipeGrows(cfg: Config, banks: seq<BankState>, m: ControllerState, r: RankState, now: int)
    requires cfg.Valid() && ReadPipe(cfg, banks, r, now) && (ReadOnBus(m) ==> ReadDue(cfg, banks, r, now, now))
    requires DeliverCommand(cfg, m, r).Ok? && (m.cmdBus.Some? ==> m.cmdBus.value.bank < cfg.banks)
    ensures ReadPipe(cfg, banks, DeliverCommand(cfg, m, r).value.1, now)
  {
    hide DeliverCommand, Flow, AllClear;
    DeliveryGrows(cfg, m, r);
    var r' := DeliverCommand(cfg, m, r).value.1;
    if r'.readCountdown != r.readCountdown {
      ClearLater(banks, 1, cfg.RL(), now + cfg.Burst());
      FlowGrows(cfg, banks, banks, r.readCountdown, r.outgoing.Some?, r.dataCyclesLeft, cfg.RL() + 1, cfg.CL + cfg.AL, now);
    }
  }

  /** What a delivered command does to the pipeline. */
  lemma DeliveryGrows(cfg: Config, m: ControllerState, r: RankState)
    requires DeliverCommand(cfg, m, r).Ok?
    ensures
      var r' := DeliverCommand(cfg, m, r).value.1;
      && r'.outgoing == r.outgoing && r'.dataCyclesLeft == r.dataCyclesLeft
      && (|| (r'.readCountdown == r.readCountdown && r'.readPackets == r.readPackets)
          || (&& ReadOnBus(m) && r'.readCountdown == r.readCountdown + [cfg.CL + cfg.AL]
              && r'.readPackets == r.readPackets + [m.cmdBus.value.(kind := DATA)]))
  {
    hide Rank.Allows, Rank.BankAfter, Rank.TableAfter;
  }

  lemma ClearLater(banks: seq<BankState>, latency: int, more: int, until: int)
    requires AllClear(banks, latency, until)
    ensures AllClear(banks, more + latency, until + more)
  {
    forall i | 0 <= i < |banks|
      ensures Clears(banks[i], more + latency, until + more)
    {
      assert Clears(banks[i], latency, until);
    }
  }

  /** The write side of the cycle: a finished burst leaves and the next starts, never two at once. */
  lemma WritesFlow(cfg: Config, m: ControllerState, r: RankState, now: int)
    requires cfg.Valid() && WriteBus(cfg, m, now) && DeliverData(cfg, m, r).Ok?
    ensures
      var (m', _, _) := DeliverData(cfg, m, r).value;
      SendWriteData(cfg, m').Ok? && WriteBus(cfg, SendWriteData(cfg, m').value, now + 1)
  {
    FlowAges(cfg, m.banks, m.writeCountdown, m.dataBus.Some?, m.dataCyclesLeft, cfg.WL(), now);
  }

  /** The command bus has been served and nothing is on it; the write side is still in the last cycle. */
  ghost predicate WritesBehind(cfg: Config, m: ControllerState, r: RankState, now: int) {
    && cfg.Valid()
    && Linked(cfg, m, r, now, now + 1) && m.cmdBus.None?
    && Disciplined(cfg, m.banks, m.queue)
    && WriteBus(cfg, m, now - 1)
    && ReadPipe(cfg, m.banks, r, now)
    && RefreshShaped(m.refresh)
    && Conserved(cfg, m, r)
  }

  lemma CommandArrives(cfg: Config, m: ControllerState, r: RankState, now: int)
    requires RankAhead(cfg, m, r, now) && r.clock == now + 1
    ensures DeliverCommand(cfg, m.(banks := AgeBanks(cfg, m.banks)), r).Ok?
    ensures
      var (m', r') := DeliverCommand(cfg, m.(banks := AgeBanks(cfg, m.banks)), r).value;
      && WritesBehind(cfg, m', r', now + 1)
      && r'.clock == r.clock && m'.clock == m.clock && m'.queue == m.queue
  {
    TableAges(cfg, m, r, now);
    var m1 := m.(banks := AgeBanks(cfg, m.banks));
    LinkDelivers(cfg, m1, r, now + 1);
    PipeGrows(cfg, m1.banks, m1, r, now + 1);
    var (m2, r2) := DeliverCommand(cfg, m1, r).value;
    forall a: nat
      ensures Collect(m2.pendingReads, WaitingAt(a)) == Flight(cfg, m2, r2, a)
    {
      assert Flight(cfg, m1, r, a) == Flight(cfg, m, r, a);
      DeliveryKeeps(cfg, m1, r, m2, r2, a);
    }
  }

  lemma WritesCatchUp(cfg: Config, m: ControllerState, r: RankState, now: int)
    requires WritesBehind(cfg, m, r, now)
    ensures DeliverData(cfg, m, r).Ok?
    ensures
      var (m1, r1, _) := DeliverData(cfg, m, r).value;
      && SendWriteData(cfg, m1).Ok? && r1 == r
      && var m2 := SendWriteData(cfg, m1).value;
      && Sound(cfg, m2, r, now, now + 1) && m2.cmdBus.None? && m2.clock == m.clock && m2.queue == m.queue
  {
    hide Rank.Receive, Flow, Disciplined, Rel;
    LinkData(cfg, m, r, now, now + 1);
    WritesFlow(cfg, m, r, now - 1);
    var (m1, r1, _) := DeliverData(cfg, m, r).value;
    var m2 := SendWriteData(cfg, m1).value;
    SameLink(cfg, m1, r, m2, r, now, now + 1);
    forall a: nat
      ensures Collect(m2.pendingReads, WaitingAt(a)) == Flight(cfg, m2, r, a)
    {
      assert Flight(cfg, m2, r, a) == Flight(cfg, m, r, a);
    }
  }

  /** First half of the controller's update. */
  lemma BusesServed(cfg: Config, m: ControllerState, r: RankState, now: int)
    requires RankAhead(cfg, m, r, now) && r.clock == now + 1
    ensures ServeBuses(cfg, m, r).Ok?
    ensures
      var (m', r', _) := ServeBuses(cfg, m, r).value;
      Sound(cfg, m', r', now + 1, now + 2) && m'.cmdBus.None? && r'.clock == r.clock && m'.clock == m.clock && m'.queue == m.queue
  {
    CommandArrives(cfg, m, r, now);
    var (m2, r2) := DeliverCommand(cfg, m.(banks := AgeBanks(cfg, m.banks)), r).value;
    WritesCatchUp(cfg, m2, r2, now + 1);
  }

  lemma RefreshRequested(cfg: Config, m: ControllerState, r: RankState, now: int, arrive: int)
    requires Sound(cfg, m, r, now, arrive)
    ensures
      var (m', r') := RequestRefresh(cfg, m, r);
      && Sound(cfg, m', r', now, arrive)
      && m'.cmdBus == m.cmdBus && m'.clock == m.clock && r'.clock == r.clock && m'.queue.clock == m.queue.clock
  {
    var (m', r') := RequestRefresh(cfg, m, r);
    SameLink(cfg, m, r, m', r', now, arrive);
    SameQueues(cfg, m.banks, m.queue, m'.queue);
    forall a: nat
      ensures Collect(m'.pendingReads, WaitingAt(a)) == Flight(cfg, m', r', a)
    {
      assert Flight(cfg, m', r', a) == Flight(cfg, m, r, a);
    }
  }

  /** Whatever pop sends, the controller's own table allows it. */
  lemma SentIsReady(cfg: Config, banks: seq<BankState>, q: CommandQueue.QueueState)
    requires Disciplined(cfg, banks, q) && CommandQueue.Pop(cfg, banks, q).1.Some?
    requires forall i :: 0 <= i < cfg.banks ==> (banks[i].state.PowerDown? <==> banks[0].state.PowerDown?)
    ensures Ready(cfg, banks, CommandQueue.Pop(cfg, banks, q).1.value, q.clock)
  {
    CommandQueue.PopQueues(cfg, banks, q);
    var c := CommandQueue.Decision(cfg, banks, q);
    if c.Send? {
      assert Genuine(cfg, q.queues[c.queue][c.index]);
    } else if c.SendRefresh? {
      forall i | 0 <= i < |banks|
        ensures BankReady(cfg, REFRESH, banks[i], 0, q.clock)
      {
        assert !CommandQueue.Blocks(banks[i], q.clock);
      }
    }
  }

  lemma AllAtRest(cfg: Config, m: ControllerState, r: RankState, now: int)
    requires Linked(cfg, m, r, now, now + 1) && m.cmdBus.None?
    ensures forall b :: 0 <= b < cfg.banks ==> AtRest(m.banks[b], now)
  {
    forall b | 0 <= b < cfg.banks
      ensures AtRest(m.banks[b], now)
    {
      assert Rel(cfg, m.banks[b], Expected(cfg, m, r, b, now + 1), now);
    }
  }

  lemma TableKeepsClear(cfg: Config, p: Packet, banks: seq<BankState>, now: int)
    requires cfg.Valid() && Ready(cfg, banks, p, now)
    ensures forall latency, until :: AllClear(banks, latency, until) ==> AllClear(TableAfter(cfg, p, banks, now), latency, until)
  {
    forall latency, until | AllClear(banks, latency, until)
      ensures AllClear(TableAfter(cfg, p, banks, now), latency, until)
    {
      CommandKeepsClear(cfg, p, banks, now, latency, until);
    }
  }

  /** A ready command keeps the write path spaced, and a write joins it a full burst behind the last one. */
  lemma IssueKeepsWrites(cfg: Config, m: ControllerState, m': ControllerState, p: Packet, now: int)
    requires cfg.Valid() && WriteBus(cfg, m, now) && Ready(cfg, m.banks, p, now) && |m.banks| == cfg.banks
    requires m'.banks == TableAfter(cfg, p, m.banks, now) && m'.dataBus == m.dataBus && m'.dataCyclesLeft == m.dataCyclesLeft
    requires if p.kind.IsWrite()
             then m'.writePackets == m.writePackets + [p.(kind := DATA)]
                  && m'.writeCountdown == m.writeCountdown + [WriteLatency(cfg)]
             else m'.writePackets == m.writePackets && m'.writeCountdown == m.writeCountdown
    ensures WriteBus(cfg, m', now)
  {
    if p.kind.IsWrite() {
      assert m.dataBus.Some? ==> Clears(m.banks[p.bank], cfg.WL(), now + m.dataCyclesLeft);
      var w := m.writeCountdown;
      assert |w| > 0 ==> Clears(m.banks[p.bank], cfg.WL(), now + w[|w| - 1] + cfg.Burst());
      ColumnClears(cfg, p, m.banks, now);
      ClearLater(m'.banks, 0, cfg.WL(), now + cfg.Burst());
      FlowGrows(cfg, m.banks, m'.banks, w, m.dataBus.Some?, m.dataCyclesLeft, cfg.WL(), WriteLatency(cfg), now);
    } else {
      TableKeepsClear(cfg, p, m.banks, now);
      FlowTable(cfg, m.banks, m'.banks, m.writeCountdown, m.dataBus.Some?, m.dataCyclesLeft, cfg.WL(), now);
    }
  }

  lemma IssueKeepsReads(cfg: Config, banks: seq<BankState>, r: RankState, p: Packet, now: int)
    requires cfg.Valid() && ReadPipe(cfg, banks, r, now) && Ready(cfg, banks, p, now)
    ensures ReadPipe(cfg, TableAfter(cfg, p, banks, now), r, now)
    ensures p.kind.IsRead() ==> ReadDue(cfg, TableAfter(cfg, p, banks, now), r, now + 1, now)
  {
    var banks' := TableAfter(cfg, p, banks, now);
    TableKeepsClear(cfg, p, banks, now);
    FlowTable(cfg, banks, banks', r.readCountdown, r.outgoing.Some?, r.dataCyclesLeft, cfg.RL() + 1, now);
    if p.kind.IsRead() {
      var w := r.readCountdown;
      assert r.outgoing.Some? ==> Clears(banks[p.bank], cfg.RL() + 1, now + r.dataCyclesLeft);
      assert |w| > 0 ==> Clears(banks[p.bank], cfg.RL() + 1, now + w[|w| - 1] + cfg.Burst());
      ColumnClears(cfg, p, banks, now);
      ClearLater(banks', 0, 1, now + cfg.Burst());
    }
  }

  /** The controller's choice of this cycle: no collision, and the rank will accept it. */
  lemma IssueSound(cfg: Config, m: ControllerState, r: RankState, now: int)
    requires Sound(cfg, m, r, now, now + 1) && m.cmdBus.None? && m.clock == now && m.queue.clock == now
    ensures Issue(cfg, m).Ok?
    ensures Sound(cfg, Issue(cfg, m).value, r, now, now + 1) && Busy(Issue(cfg, m).value)
    ensures Issue(cfg, m).value.clock == now && Issue(cfg, m).value.queue.clock == now
  {
    var (q', sent) := CommandQueue.Pop(cfg, m.banks, m.queue);
    if sent.Some? {
      SentIsReady(cfg, m.banks, m.queue);
    }
    var m' := Issue(cfg, m).value;
    IssueEffect(cfg, m, m');
    AllAtRest(cfg, m, r, now);
    PopKeepsDiscipline(cfg, m.banks, m.queue);
    PopKeepsClock(cfg, m.banks, m.queue);
    forall a: nat
      ensures Collect(m'.pendingReads, WaitingAt(a)) == Flight(cfg, m', r, a)
    {
      IssueKeeps(cfg, m, m', r, a);
    }
    if sent.Some? {
      var p := sent.value;
      LinkIssues(cfg, m, m', r, p, now);
      IssueIsBusy(cfg, m, m', p, now);
      IssueKeepsWrites(cfg, m, m', p, now);
      IssueKeepsReads(cfg, m.banks, r, p, now);
    } else {
      SameLink(cfg, m, r, m', r, now, now + 1);
    }
  }

  lemma PopKeepsClock(cfg: Config, banks: seq<BankState>, q: CommandQueue.QueueState)
    requires CommandQueue.Shaped(cfg, banks, q)
    ensures CommandQueue.Pop(cfg, banks, q).0.clock == q.clock
  {
  }

  /** Splitting a transaction fits in the queue and keeps the pairs together. */
  lemma SplitSound(cfg: Config, m: ControllerState, r: RankState, now: int)
    requires Sound(cfg, m, r, now, now + 1) && Busy(m)
    ensures Split(cfg, m).Ok?
    ensures Sound(cfg, Split(cfg, m).value, r, now, now + 1) && Busy(Split(cfg, m).value)
    ensures Split(cfg, m).value.clock == m.clock && Split(cfg, m).value.queue.clock == m.queue.clock
  {
    var i := FirstSplittable(cfg, m.queue, m.transactions, 0);
    var m' := Split(cfg, m).value;
    if i < |m.transactions| {
      SplitQueues(cfg, m, m', i);
      var t := m.transactions[i];
      SplitDiscipline(cfg, m.banks, m.queue, m'.queue, t);
    }
    SameLink(cfg, m, r, m', r, now, now + 1);
    forall a: nat
      ensures Collect(m'.pendingReads, WaitingAt(a)) == Flight(cfg, m', r, a)
    {
      SplitKeeps(cfg, m, m', r, a);
    }
  }

  lemma SplitDiscipline(cfg: Config, banks: seq<BankState>, q: CommandQueue.QueueState, q': CommandQueue.QueueState, t: Transaction)
    requires cfg.Valid() && Disciplined(cfg, banks, q)
    requires
      var n := CommandQueue.QueueIndex(cfg, Locate(cfg, t.address).bank);
      && n < |q.queues|
      && q' == q.(queues := q.queues[n := q.queues[n] + [ActivateFor(cfg, t)] + [ColumnFor(cfg, t)]])
      && |q'.queues[n]| <= cfg.cmdQueueDepth
    ensures Disciplined(cfg, banks, q')
  {
    var n := CommandQueue.QueueIndex(cfg, Locate(cfg, t.address).bank);
    var s := q.queues[n];
    AppendPair(cfg, s, ActivateFor(cfg, t), ColumnFor(cfg, t));
    var s' := s + [ActivateFor(cfg, t)] + [ColumnFor(cfg, t)];
    assert OwnBank(cfg, s, n);
    forall k | 0 <= k < |s'| && Loose(s', k)
      ensures Serving(banks, q.accesses, s'[k])
    {
      assert Loose(s, k);
    }
  }

  /** Sleeping and waking happen only while no bank serves a waiting command. */
  lemma PowerDiscipline(cfg: Config, banks: seq<BankState>, banks': seq<BankState>, q: CommandQueue.QueueState)
    requires Disciplined(cfg, banks, q) && |banks'| == |banks|
    requires forall i :: 0 <= i < cfg.banks ==> !banks[i].state.RowActive?
    ensures Disciplined(cfg, banks', q)
  {
    CommandQueue.SameShape(cfg, banks, q, banks', q);
    forall i | 0 <= i < |q.queues|
      ensures Served(banks', q.accesses, q.queues[i])
    {
      var s := q.queues[i];
      forall k | 0 <= k < |s|
        ensures !Loose(s, k)
      {
        assert !Serving(banks, q.accesses, s[k]);
      }
    }
  }

  predicate SameColumnTimes(banks: seq<BankState>, banks': seq<BankState>) {
    && |banks'| == |banks|
    && forall i :: 0 <= i < |banks| ==> banks'[i].nextRead == banks[i].nextRead && banks'[i].nextWrite == banks[i].nextWrite
  }

  lemma SameColumnFlows(cfg: Config, m: ControllerState, r: RankState, m': ControllerState, r': RankState, now: int)
    requires WriteBus(cfg, m, now) && ReadPipe(cfg, m.banks, r, now) && SameColumnTimes(m.banks, m'.banks)
    requires m' == m.(banks := m'.banks, powerDown := m'.powerDown)
    requires r' == r.(banks := r'.banks, poweredDown := r'.poweredDown)
    ensures WriteBus(cfg, m', now) && ReadPipe(cfg, m'.banks, r', now)
    ensures ReadDue(cfg, m.banks, r, now + 1, now) ==> ReadDue(cfg, m'.banks, r', now + 1, now)
  {
    forall latency, until | AllClear(m.banks, latency, until)
      ensures AllClear(m'.banks, latency, until)
    {
      forall i | 0 <= i < |m'.banks|
        ensures Clears(m'.banks[i], latency, until)
      {
        assert Clears(m.banks[i], latency, until);
      }
    }
    FlowTable(cfg, m.banks, m'.banks, m.writeCountdown, m.dataBus.Some?, m.dataCyclesLeft, cfg.WL(), now);
    FlowTable(cfg, m.banks, m'.banks, r.readCountdown, r.outgoing.Some?, r.dataCyclesLeft, cfg.RL() + 1, now);
  }

  lemma PowerEffect(cfg: Config, m: ControllerState, r: RankState)
    requires |m.banks| > 0 && ManagePower(cfg, m, r).Ok?
    ensures
      var (m', r') := ManagePower(cfg, m, r).value;
      && m' == m.(banks := m'.banks, powerDown := m'.powerDown)
      && r' == r.(banks := r'.banks, poweredDown := r'.poweredDown)
      && SameColumnTimes(m.banks, m'.banks)
      && (m'.banks == m.banks || m.powerDown || forall i :: 0 <= i < |m.banks| ==> m.banks[i].state.Idle?)
  {
  }

  lemma PowerSound(cfg: Config, m: ControllerState, r: RankState, now: int)
    requires Sound(cfg, m, r, now, now + 1) && Busy(m) && m.clock == now && r.clock == now
    ensures ManagePower(cfg, m, r).Ok?
    ensures
      var (m', r') := ManagePower(cfg, m, r).value;
      Sound(cfg, m', r', now, now + 1) && m'.clock == now && r'.clock == now && m'.queue == m.queue
  {
    LinkPower(cfg, m, r, now);
    PowerEffect(cfg, m, r);
    var (m', r') := ManagePower(cfg, m, r).value;
    SameColumnFlows(cfg, m, r, m', r', now);
    if m'.banks != m.banks {
      assert forall i :: 0 <= i < cfg.banks ==> (m.banks[i].state.PowerDown? <==> m.powerDown);
      PowerDiscipline(cfg, m.banks, m'.banks, m.queue);
    }
    forall a: nat
      ensures Collect(m'.pendingReads, WaitingAt(a)) == Flight(cfg, m', r', a)
    {
      assert Flight(cfg, m', r', a) == Flight(cfg, m, r, a);
    }
  }

  /** The end of the update: a finished read finds its transaction. */
  lemma ReturnSound(cfg: Config, m: ControllerState, r: RankState, now: int)
    requires Sound(cfg, m, r, now, now + 1)
    ensures ReturnRead(m).Ok?
    ensures Sound(cfg, ReturnRead(m).value.0, r, now, now + 1)
    ensures ReturnRead(m).value.0.clock == m.clock && ReturnRead(m).value.0.queue == m.queue
  {
    ReturnMatches(cfg, m, r);
    SameLink(cfg, m, r, ReturnRead(m).value.0, r, now, now + 1);
  }

  /** Second half of the controller's update. */
  lemma SettleSound(cfg: Config, m: ControllerState, r: RankState, now: int)
    requires Sound(cfg, m, r, now, now + 1) && Busy(m) && m.clock == now && r.clock == now && m.queue.clock == now
    ensures Settle(cfg, m, r).Ok?
    ensures
      var (m', r', _) := Settle(cfg, m, r).value;
      Sound(cfg, m', r', now, now + 1) && m'.clock == now && r'.clock == now && m'.queue.clock == now + 1
  {
    hide Split, ManagePower, ReturnRead, Disciplined, WriteBus, ReadPipe, Rel, Expected;
    SplitSound(cfg, m, r, now);
    var m7 := Split(cfg, m).value;
    PowerSound(cfg, m7, r, now);
    var (m8, r8) := ManagePower(cfg, m7, r).value;
    ReturnSound(cfg, m8, r8, now);
    var m9 := ReturnRead(m8).value.0;
    var (m', r', _) := Settle(cfg, m, r).value;
    ClockTicks(cfg, m9, r8, m', now);
  }

  lemma ClockTicks(cfg: Config, m: ControllerState, r: RankState, m': ControllerState, now: int)
    requires Sound(cfg, m, r, now, now + 1)
    requires m' == m.(refresh := m'.refresh, queue := m.queue.(clock := m.queue.clock + 1)) && RefreshShaped(m'.refresh)
    ensures Sound(cfg, m', r, now, now + 1)
  {
    SameLink(cfg, m, r, m', r, now, now + 1);
    SameQueues(cfg, m.banks, m.queue, m'.queue);
    forall a: nat
      ensures Collect(m'.pendingReads, WaitingAt(a)) == Flight(cfg, m', r, a)
    {
      assert Flight(cfg, m', r, a) == Flight(cfg, m, r, a);
    }
  }

  /** One update of the controller: no fault is raised and the invariant holds again. */
  lemma UpdateSound(cfg: Config, m: ControllerState, r: RankState, now: int)
    requires RankAhead(cfg, m, r, now) && m.clock == now + 1 && r.clock == now + 1 && m.queue.clock == now + 1
    ensures MemoryController.Update(cfg, m, r).Ok?
    ensures
      var (m', r', _) := MemoryController.Update(cfg, m, r).value;
      Sound(cfg, m', r', now + 1, now + 2) && m'.clock == now + 1 && r'.clock == now + 1 && m'.queue.clock == now + 2
  {
    BusesServed(cfg, m, r, now);
    var (m4, r4, _) := ServeBuses(cfg, m, r).value;
    RefreshRequested(cfg, m4, r4, now + 1, now + 2);
    var (m5, r5) := RequestRefresh(cfg, m4, r4);
    IssueSound(cfg, m5, r5, now + 1);
    SettleSound(cfg, Issue(cfg, m5).value, r5, now + 1);
  }
}
