/** What one update of the controller does to the transactions on their way through it. */
module TransactionFlow {
  import opened DramTypes
  import opened Wrappers
  import opened MemoryController
  import opened Collecting
  import opened QueueDiscipline
  import opened QueueFlow
  import opened ReadConservation
  import opened SystemSafety
  import CommandQueue
  import RefreshSchedule
  import TableRefinement

  /** The transaction a column command stands for, if the command is for this row. */
  function ColumnOf(bank: nat, row: nat): Packet -> Option<Transaction> {
    (p: Packet) => if p.kind.IsColumn() && CommandQueue.ForRow(p, bank, row)
                   then Some(Transaction(p.kind.IsWrite(), p.address, p.callback)) else None
  }

  function WantsRow(cfg: Config, bank: nat, row: nat): Transaction -> Option<Transaction> {
    (t: Transaction) => if Locate(cfg, t.address).bank == bank && Locate(cfg, t.address).row == row then Some(t) else None
  }

  /** The transactions for one row that the controller has taken but not yet issued, oldest first. */
  function Line(cfg: Config, m: ControllerState, bank: nat, row: nat): seq<Transaction> {
    Collect(QueueAt(cfg, m.queue, bank), ColumnOf(bank, row)) + Collect(m.transactions, WantsRow(cfg, bank, row))
  }

  function ReadOf(a: nat): Transaction -> Option<int> {
    (t: Transaction) => if !t.isWrite && t.address == a then Some(t.callback) else None
  }

  /** The reads of one address that the controller has taken but not yet answered, oldest first. */
  function Unanswered(m: ControllerState, a: nat): seq<int> {
    Collect(m.pendingReads, WaitingAt(a)) + Collect(m.transactions, ReadOf(a))
  }

  lemma ColumnsSelect(cfg: Config, bank: nat, row: nat)
    ensures Selects(cfg, ColumnOf(bank, row), bank, row)
  {
  }

  /** A transaction that cannot be split yet holds back all younger ones of its bank. */
  lemma ElderSplitsFirst(cfg: Config, q: CommandQueue.QueueState, ts: seq<Transaction>, i: nat, k: nat)
    requires i == FirstSplittable(cfg, q, ts, 0) && k < i < |ts|
    ensures Locate(cfg, ts[k].address).bank != Locate(cfg, ts[i].address).bank
  {
    assert !Splittable(cfg, q, ts[k]) && Splittable(cfg, q, ts[i]);
  }

  lemma IssueLine(cfg: Config, m: ControllerState, m': ControllerState, bank: nat, row: nat)
    requires Disciplined(cfg, m.banks, m.queue) && m.cmdBus.None? && Issue(cfg, m) == Ok(m')
    ensures Line(cfg, m, bank, row) == CollectOption(m'.cmdBus, ColumnOf(bank, row)) + Line(cfg, m', bank, row)
  {
    hide CommandQueue.Pop, Issue, Collect;
    IssueEffect(cfg, m, m');
    ColumnsSelect(cfg, bank, row);
    PoppedCollect(cfg, m.banks, m.queue, ColumnOf(bank, row), bank, row);
  }

  lemma SplitLine(cfg: Config, m: ControllerState, m': ControllerState, bank: nat, row: nat)
    requires Split(cfg, m) == Ok(m')
    ensures Line(cfg, m', bank, row) == Line(cfg, m, bank, row)
  {
    var i := FirstSplittable(cfg, m.queue, m.transactions, 0);
    if i < |m.transactions| {
      var t := m.transactions[i];
      SplitQueues(cfg, m, m', i);
      ColumnsSelect(cfg, bank, row);
      SplitCollect(cfg, m.queue, m'.queue, t, ColumnOf(bank, row), bank, row);
      forall k | 0 <= k < i
        ensures WantsRow(cfg, bank, row)(t).Some? ==> WantsRow(cfg, bank, row)(m.transactions[k]).None?
      {
        ElderSplitsFirst(cfg, m.queue, m.transactions, i, k);
      }
      CollectRemove(m.transactions, i, WantsRow(cfg, bank, row));
      assert CollectOption(Some(ColumnFor(cfg, t)), ColumnOf(bank, row)) == CollectOption(Some(t), WantsRow(cfg, bank, row));
      Regroup(Collect(QueueAt(cfg, m.queue, bank), ColumnOf(bank, row)), CollectOption(Some(t), WantsRow(cfg, bank, row)),
              Collect(m'.transactions, WantsRow(cfg, bank, row)));
    }
  }

  lemma Regroup<T>(a: seq<T>, b: seq<T>, c: seq<T>)
    ensures a + b + c == a + (b + c)
  {
  }

  lemma SplitReads(cfg: Config, m: ControllerState, m': ControllerState, a: nat)
    requires Split(cfg, m) == Ok(m')
    ensures Unanswered(m', a) == Unanswered(m, a)
  {
    var i := FirstSplittable(cfg, m.queue, m.transactions, 0);
    if i < |m.transactions| {
      var t := m.transactions[i];
      SplitQueues(cfg, m, m', i);
      forall k | 0 <= k < i
        ensures ReadOf(a)(t).Some? ==> ReadOf(a)(m.transactions[k]).None?
      {
        ElderSplitsFirst(cfg, m.queue, m.transactions, i, k);
      }
      CollectRemove(m.transactions, i, ReadOf(a));
      CollectAppend(m.pendingReads, t, WaitingAt(a));
      Regroup(Collect(m.pendingReads, WaitingAt(a)), CollectOption(Some(t), ReadOf(a)), Collect(m'.transactions, ReadOf(a)));
    }
  }

  lemma ReturnReads(cfg: Config, m: ControllerState, r: RankState, m': ControllerState, returned: Option<Transaction>, a: nat)
    requires Conserved(cfg, m, r) && ReturnRead(m) == Ok((m', returned))
    ensures Unanswered(m, a) == CollectOption(returned, WaitingAt(a)) + Unanswered(m', a)
  {
    if |m.finished| > 0 {
      var i := FirstPending(m.pendingReads, m.finished[0].address, 0);
      CollectRemove(m.pendingReads, i, WaitingAt(a));
      Regroup(CollectOption(returned, WaitingAt(a)), Collect(m'.pendingReads, WaitingAt(a)), Collect(m.transactions, ReadOf(a)));
    }
  }

  /** Write data between the command that caused it and the end of its burst, oldest first. */
  function Unwritten(m: ControllerState): seq<Packet> {
    (if m.dataBus.Some? then [m.dataBus.value] else []) + m.writePackets
  }

  function WriteOf(p: Option<Packet>): seq<Packet> {
    if p.Some? && p.value.kind.IsWrite() then [p.value.(kind := DATA)] else []
  }

  /** The second half of an update put together from its phases. */
  lemma SettleParts(cfg: Config, m6: ControllerState, r5: RankState, m7: ControllerState,
                    m8: ControllerState, r8: RankState, m9: ControllerState, returned: Option<Transaction>)
    requires |m6.banks| > 0 && Split(cfg, m6) == Ok(m7) && |m7.banks| > 0
    requires ManagePower(cfg, m7, r5) == Ok((m8, r8)) && ReturnRead(m8) == Ok((m9, returned))
    ensures m9.refresh == m6.refresh
    ensures Settle(cfg, m6, r5)
         == Ok((m9.(refresh := RefreshSchedule.Age(m9.refresh), queue := m9.queue.(clock := m9.queue.clock + 1)), r8, returned))
  {
    PowerEffect(cfg, m7, r5);
    assert m7.refresh == m6.refresh;
  }

  /** An update put together from its halves. */
  lemma UpdateParts(cfg: Config, m: ControllerState, r: RankState, m4: ControllerState, r4: RankState, written: Option<Packet>,
                    m5: ControllerState, r5: RankState, m6: ControllerState,
                    m9: ControllerState, r9: RankState, returned: Option<Transaction>)
    requires CommandQueue.Shaped(cfg, m.banks, m.queue) && RefreshShaped(m.refresh)
    requires ServeBuses(cfg, m, r) == Ok((m4, r4, written)) && RefreshShaped(m4.refresh)
    requires (m5, r5) == RequestRefresh(cfg, m4, r4) && CommandQueue.Shaped(cfg, m5.banks, m5.queue) && m5.cmdBus.None?
    requires Issue(cfg, m5) == Ok(m6) && |m6.banks| > 0 && Settle(cfg, m6, r5) == Ok((m9, r9, returned))
    ensures MemoryController.Update(cfg, m, r) == Ok((m9, r9, Output(m6.cmdBus, written, returned)))
  {
  }

  /** The states between the phases of an update that starts from a sound state. */
  lemma UpdatePhases(cfg: Config, m: ControllerState, r: RankState, now: int)
    returns (m4: ControllerState, m5: ControllerState, r5: RankState, m6: ControllerState, m7: ControllerState, m8: ControllerState, r8: RankState)
    requires RankAhead(cfg, m, r, now) && m.clock == now + 1 && r.clock == now + 1 && m.queue.clock == now + 1
    ensures MemoryController.Update(cfg, m, r).Ok? && ServeBuses(cfg, m, r).Ok?
    ensures m4 == ServeBuses(cfg, m, r).value.0 && (m5, r5) == RequestRefresh(cfg, m4, ServeBuses(cfg, m, r).value.1)
    ensures m4.cmdBus.None? && m5.cmdBus.None? && OnlyBuses(m.(banks := AgeBanks(cfg, m.banks)), m4)
    ensures m5 == m4.(queue := m5.queue, refresh := m5.refresh) && m5.queue.queues == m4.queue.queues
    ensures Sound(cfg, m5, r5, now + 1, now + 2) && m5.clock == now + 1 && m5.queue.clock == now + 1
    ensures m5.queue.window == m.queue.window
    ensures Issue(cfg, m5) == Ok(m6)
    ensures Split(cfg, m6) == Ok(m7) && |m7.banks| > 0
    ensures m7.powerDown ==> forall i :: 0 <= i < |m7.banks| ==> m7.banks[i].state.PowerDown?
    ensures ManagePower(cfg, m7, r5) == Ok((m8, r8)) && Conserved(cfg, m8, r8)
    ensures m8 == m7.(banks := m8.banks, powerDown := m8.powerDown)
    ensures ReturnRead(m8).Ok?
    ensures
      var (m', r', out) := MemoryController.Update(cfg, m, r).value;
      var (m9, returned) := ReturnRead(m8).value;
      && out == Output(m6.cmdBus, ServeBuses(cfg, m, r).value.2, returned) && r' == r8
      && m' == m9.(refresh := RefreshSchedule.Age(m5.refresh), queue := m9.queue.(clock := m9.queue.clock + 1))
  {
    hide MemoryController.Update, ServeBuses, Issue, Split, ManagePower, ReturnRead, Settle;
    var r4;
    m4, r4, m5, r5, m6 := HeadPhases(cfg, m, r, now);
    m7, m8, r8 := TailPhases(cfg, m6, r5, now + 1);
    var (m9, returned) := ReturnRead(m8).value;
    var written := ServeBuses(cfg, m, r).value.2;
    SettleParts(cfg, m6, r5, m7, m8, r8, m9, returned);
    UpdateParts(cfg, m, r, m4, r4, written, m5, r5, m6, Settle(cfg, m6, r5).value.0, r8, returned);
  }

  lemma HeadPhases(cfg: Config, m: ControllerState, r: RankState, now: int)
    returns (m4: ControllerState, r4: RankState, m5: ControllerState, r5: RankState, m6: ControllerState)
    requires RankAhead(cfg, m, r, now) && m.clock == now + 1 && r.clock == now + 1 && m.queue.clock == now + 1
    ensures CommandQueue.Shaped(cfg, m.banks, m.queue) && RefreshShaped(m.refresh) && RefreshShaped(m4.refresh)
    ensures ServeBuses(cfg, m, r).Ok? && m4 == ServeBuses(cfg, m, r).value.0 && r4 == ServeBuses(cfg, m, r).value.1
    ensures (m5, r5) == RequestRefresh(cfg, m4, r4) && m4.cmdBus.None?
    ensures Sound(cfg, m5, r5, now + 1, now + 2) && CommandQueue.Shaped(cfg, m5.banks, m5.queue)
    ensures m5.clock == now + 1 && m5.queue.clock == now + 1
    ensures Issue(cfg, m5) == Ok(m6) && |m6.banks| > 0 && m6.refresh == m5.refresh
    ensures Sound(cfg, m6, r5, now + 1, now + 2) && TableRefinement.Busy(m6)
    ensures m6.clock == now + 1 && r5.clock == now + 1 && m6.queue.clock == now + 1
  {
    BusesServed(cfg, m, r, now);
    m4, r4 := ServeBuses(cfg, m, r).value.0, ServeBuses(cfg, m, r).value.1;
    m5, r5, m6 := IssuePhase(cfg, m4, r4, now + 1);
  }

  lemma IssuePhase(cfg: Config, m4: ControllerState, r4: RankState, now: int)
    returns (m5: ControllerState, r5: RankState, m6: ControllerState)
    requires Sound(cfg, m4, r4, now, now + 1) && m4.cmdBus.None? && m4.clock == now && r4.clock == now && m4.queue.clock == now
    ensures RefreshShaped(m4.refresh) && (m5, r5) == RequestRefresh(cfg, m4, r4)
    ensures Sound(cfg, m5, r5, now, now + 1) && CommandQueue.Shaped(cfg, m5.banks, m5.queue)
    ensures m5.clock == now && m5.queue.clock == now
    ensures Issue(cfg, m5) == Ok(m6) && |m6.banks| > 0 && m6.refresh == m5.refresh
    ensures Sound(cfg, m6, r5, now, now + 1) && TableRefinement.Busy(m6)
    ensures m6.clock == now && r5.clock == now && m6.queue.clock == now
  {
    RefreshRequested(cfg, m4, r4, now, now + 1);
    m5, r5 := RequestRefresh(cfg, m4, r4).0, RequestRefresh(cfg, m4, r4).1;
    IssueSound(cfg, m5, r5, now);
    m6 := Issue(cfg, m5).value;
    IssueEffect(cfg, m5, m6);
  }

  lemma TailPhases(cfg: Config, m: ControllerState, r: RankState, now: int)
    returns (m7: ControllerState, m8: ControllerState, r8: RankState)
    requires Sound(cfg, m, r, now, now + 1) && TableRefinement.Busy(m) && m.clock == now && r.clock == now && m.queue.clock == now
    ensures Split(cfg, m) == Ok(m7) && |m7.banks| > 0
    ensures m7.powerDown ==> forall i :: 0 <= i < |m7.banks| ==> m7.banks[i].state.PowerDown?
    ensures ManagePower(cfg, m7, r) == Ok((m8, r8)) && Conserved(cfg, m8, r8)
    ensures m8 == m7.(banks := m8.banks, powerDown := m8.powerDown)
    ensures ReturnRead(m8).Ok?
  {
    SplitSound(cfg, m, r, now);
    m7 := Split(cfg, m).value;
    assert TableRefinement.PowerAgrees(cfg, m7, r);
    PowerSound(cfg, m7, r, now);
    PowerEffect(cfg, m7, r);
    var (m8', r8') := ManagePower(cfg, m7, r).value;
    m8, r8 := m8', r8';
    ReturnSound(cfg, m8, r8, now);
  }

  /** The column command an update issues is the oldest of its row. */
  lemma UpdateLine(cfg: Config, m: ControllerState, r: RankState, now: int, bank: nat, row: nat)
    requires RankAhead(cfg, m, r, now) && m.clock == now + 1 && r.clock == now + 1 && m.queue.clock == now + 1
    ensures MemoryController.Update(cfg, m, r).Ok?
    ensures
      var (m', _, out) := MemoryController.Update(cfg, m, r).value;
      Line(cfg, m, bank, row) == CollectOption(out.issued, ColumnOf(bank, row)) + Line(cfg, m', bank, row)
  {
    hide MemoryController.Update, ServeBuses, Issue, Split, ManagePower, Collect, AgeBanks;
    var m4, m5, r5, m6, m7, m8, r8 := UpdatePhases(cfg, m, r, now);
    IssueLine(cfg, m5, m6, bank, row);
    SplitLine(cfg, m6, m7, bank, row);
  }

  /** The read an update answers is the oldest of its address. */
  lemma UpdateReads(cfg: Config, m: ControllerState, r: RankState, now: int, a: nat)
    requires RankAhead(cfg, m, r, now) && m.clock == now + 1 && r.clock == now + 1 && m.queue.clock == now + 1
    ensures MemoryController.Update(cfg, m, r).Ok?
    ensures
      var (m', _, out) := MemoryController.Update(cfg, m, r).value;
      Unanswered(m, a) == CollectOption(out.returned, WaitingAt(a)) + Unanswered(m', a)
  {
    hide MemoryController.Update, ServeBuses, Split, ManagePower, ReturnRead, Collect, AgeBanks;
    var m4, m5, r5, m6, m7, m8, r8 := UpdatePhases(cfg, m, r, now);
    IssueEffect(cfg, m5, m6);
    SplitReads(cfg, m6, m7, a);
    ReturnReads(cfg, m8, r8, ReturnRead(m8).value.0, ReturnRead(m8).value.1, a);
  }

  /** The oldest write moves on: off the bus when its burst ends, onto it when its latency has passed. */
  lemma DataMoves(cfg: Config, m: ControllerState, r: RankState)
    requires |m.writePackets| == |m.writeCountdown| && DeliverData(cfg, m, r).Ok?
    requires SendWriteData(cfg, DeliverData(cfg, m, r).value.0).Ok?
    ensures
      var (m1, _, written) := DeliverData(cfg, m, r).value;
      Unwritten(m) == OptionSeq(written) + Unwritten(SendWriteData(cfg, m1).value)
  {
    var (m1, _, written) := DeliverData(cfg, m, r).value;
    var m2 := SendWriteData(cfg, m1).value;
    assert Unwritten(m) == OptionSeq(written) + Unwritten(m1);
    if m2.dataBus != m1.dataBus {
      assert m.writePackets == [m.writePackets[0]] + m.writePackets[1..];
    }
    assert Unwritten(m2) == Unwritten(m1);
  }

  lemma BusesWrite(cfg: Config, m: ControllerState, r: RankState, now: int)
    requires RankAhead(cfg, m, r, now) && r.clock == now + 1
    ensures ServeBuses(cfg, m, r).Ok?
    ensures Unwritten(m) == OptionSeq(ServeBuses(cfg, m, r).value.2) + Unwritten(ServeBuses(cfg, m, r).value.0)
  {
    CommandArrives(cfg, m, r, now);
    var (m2, r2) := DeliverCommand(cfg, m.(banks := AgeBanks(cfg, m.banks)), r).value;
    assert m2.dataBus == m.dataBus && m2.writePackets == m.writePackets;
    WritesCatchUp(cfg, m2, r2, now + 1);
    DataMoves(cfg, m2, r2);
  }

  lemma IssueWrites(cfg: Config, m: ControllerState, m': ControllerState)
    requires CommandQueue.Shaped(cfg, m.banks, m.queue) && m.cmdBus.None? && Issue(cfg, m) == Ok(m')
    ensures Unwritten(m') == Unwritten(m) + WriteOf(m'.cmdBus)
  {
    IssueEffect(cfg, m, m');
    Regroup(OptionSeq(m.dataBus), m.writePackets, WriteOf(m'.cmdBus));
  }

  /** Writes are finished in the order in which their commands were issued. */
  lemma UpdateWrites(cfg: Config, m: ControllerState, r: RankState, now: int)
    requires RankAhead(cfg, m, r, now) && m.clock == now + 1 && r.clock == now + 1 && m.queue.clock == now + 1
    ensures MemoryController.Update(cfg, m, r).Ok?
    ensures
      var (m', _, out) := MemoryController.Update(cfg, m, r).value;
      Unwritten(m) + WriteOf(out.issued) == OptionSeq(out.written) + Unwritten(m')
  {
    hide MemoryController.Update, ServeBuses, Issue, AgeBanks;
    var m4, m5, r5, m6, m7, m8, r8 := UpdatePhases(cfg, m, r, now);
    BusesWrite(cfg, m, r, now);
    IssueWrites(cfg, m5, m6);
    var (m', _, out) := MemoryController.Update(cfg, m, r).value;
    assert m'.dataBus == m6.dataBus && m'.writePackets == m6.writePackets;
    Regroup(OptionSeq(out.written), Unwritten(m5), WriteOf(out.issued));
  }

  // ---- Splitting ----

  /** The queue of the transaction's bank has two places left. */
  predicate RoomFor(cfg: Config, q: CommandQueue.QueueState, t: Transaction) {
    var n := if cfg.queuing.PerRank? then 0 else Locate(cfg, t.address).bank;
    n < |q.queues| && |q.queues[n]| + 2 <= cfg.cmdQueueDepth
  }

  /** The commands for a transaction: its row is activated, and the column is read or written, in close page with a precharge. */
  predicate PacketsFor(cfg: Config, t: Transaction, a: Packet, c: Packet) {
    var l := Locate(cfg, t.address);
    && a.kind == ACTIVATE && c.kind == (if cfg.rowPolicy.ClosePage? then (if t.isWrite then WRITE_P else READ_P) else if t.isWrite then WRITE else READ)
    && a.address == c.address == t.address && a.bank == c.bank == l.bank && a.row == c.row == l.row && a.column == c.column == l.column
    && c.callback == t.callback
  }

  /** At most one transaction is split: the oldest with room, whose two commands join the end of its bank's queue. */
  lemma SplitOldest(cfg: Config, m: ControllerState, m': ControllerState) returns (i: nat, a: Packet, c: Packet)
    requires Split(cfg, m) == Ok(m')
    ensures i <= |m.transactions| && forall j :: 0 <= j < i ==> !RoomFor(cfg, m.queue, m.transactions[j])
    ensures i == |m.transactions| ==> m' == m
    ensures i < |m.transactions| ==>
      var t := m.transactions[i];
      var n := if cfg.queuing.PerRank? then 0 else Locate(cfg, t.address).bank;
      && RoomFor(cfg, m.queue, t) && PacketsFor(cfg, t, a, c)
      && m' == m.(transactions := m.transactions[..i] + m.transactions[i + 1..],
                  queue := m.queue.(queues := m.queue.queues[n := m.queue.queues[n] + [a, c]]),
                  pendingReads := if t.isWrite then m.pendingReads else m.pendingReads + [t])
  {
    hide Locate;
    i := FirstSplittable(cfg, m.queue, m.transactions, 0);
    if i < |m.transactions| {
      var t := m.transactions[i];
      a, c := ActivateFor(cfg, t), ColumnFor(cfg, t);
      var n := CommandQueue.QueueIndex(cfg, Locate(cfg, t.address).bank);
      assert m.queue.queues[n] + [a] + [c] == m.queue.queues[n] + [a, c];
    } else {
      a, c := CommandQueue.REFRESH_PACKET, CommandQueue.REFRESH_PACKET;
    }
    assert forall j :: 0 <= j < |m.transactions| ==> (RoomFor(cfg, m.queue, m.transactions[j]) <==> Splittable(cfg, m.queue, m.transactions[j]));
  }
}
