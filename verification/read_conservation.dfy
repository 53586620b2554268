/**
 * Reads in flight. For every address, the transactions that wait for their data are exactly the reads
 * that are queued, on the command bus, in the rank's pipeline or back at the controller, in that order.
 */
module ReadConservation {
  import opened DramTypes
  import opened Wrappers
  import opened MemoryController
  import opened Collecting
  import opened CommandQueue
  import opened QueueDiscipline
  import opened QueueFlow
  import Rank
  import AddressMapping

  function WaitingAt(a: nat): Transaction -> Option<int> {
    (t: Transaction) => if t.address == a then Some(t.callback) else None
  }

  function DataAt(a: nat): Packet -> Option<int> {
    (p: Packet) => if p.address == a then Some(p.callback) else None
  }

  function ReadAt(a: nat): Packet -> Option<int> {
    (p: Packet) => if p.kind.IsRead() && p.address == a then Some(p.callback) else None
  }

  lemma ReadsSelect(cfg: Config, a: nat)
    ensures Selects(cfg, ReadAt(a), Locate(cfg, a).bank, Locate(cfg, a).row)
  {
  }

  /** The reads of one address on their way back from the rank, oldest first. */
  function Returning(m: ControllerState, r: RankState, a: nat): seq<int> {
    Collect(m.finished, WaitingAt(a)) + CollectOption(r.outgoing, DataAt(a)) + Collect(r.readPackets, DataAt(a))
  }

  /** The reads of one address between the queue and the processor, oldest first. */
  function Flight(cfg: Config, m: ControllerState, r: RankState, a: nat): seq<int> {
    Returning(m, r, a) + CollectOption(m.cmdBus, ReadAt(a)) + Collect(QueueAt(cfg, m.queue, Locate(cfg, a).bank), ReadAt(a))
  }

  ghost predicate Conserved(cfg: Config, m: ControllerState, r: RankState) {
    forall a: nat :: Collect(m.pendingReads, WaitingAt(a)) == Flight(cfg, m, r, a)
  }

  /** Data moves from the rank's pipeline over the bus to the controller without being lost or overtaken. */
  lemma ReturnPathKeeps(cfg: Config, m: ControllerState, r: RankState, a: nat)
    requires |r.readPackets| == |r.readCountdown|
    requires
      var (r', delivered) := Rank.Update(cfg, r);
      |r'.readPackets| < |r.readPackets| ==> r.outgoing.None? || delivered.Some?
    requires r.outgoing.Some? ==> r.outgoing.value.kind.DATA?
    ensures
      var (r', delivered) := Rank.Update(cfg, r);
      var res := if delivered.Some? then ReceiveData(m, delivered.value) else Ok(m);
      res.Ok? && Returning(res.value, r', a) == Returning(m, r, a)
  {
    hide Collect, DecAll;
    var (r', delivered) := Rank.Update(cfg, r);
    var f, o, p := Collect(m.finished, WaitingAt(a)), CollectOption(r.outgoing, DataAt(a)), Collect(r.readPackets, DataAt(a));
    var o', p' := CollectOption(r'.outgoing, DataAt(a)), Collect(r'.readPackets, DataAt(a));
    if |r'.readPackets| < |r.readPackets| {
      CollectRemove(r.readPackets, 0, DataAt(a));
      assert RemoveAt(r.readPackets, 0) == r.readPackets[1..];
      assert p == o' + p';
    }
    if delivered.Some? {
      CollectAppend(m.finished, Transaction(false, delivered.value.address, delivered.value.callback), WaitingAt(a));
    }
    assert f + o + (o' + p') == (f + o) + o' + p';
  }

  lemma DeliveryKeeps(cfg: Config, m: ControllerState, r: RankState, m': ControllerState, r': RankState, a: nat)
    requires DeliverCommand(cfg, m, r) == Ok((m', r'))
    ensures Flight(cfg, m', r', a) == Flight(cfg, m, r, a)
  {
    hide Rank.Allows, Rank.BankAfter, Rank.TableAfter, Collect;
    if m.cmdBus.Some? && m'.cmdBus.None? {
      var p := m.cmdBus.value;
      assert QueueAt(cfg, m'.queue, Locate(cfg, a).bank) == QueueAt(cfg, m.queue, Locate(cfg, a).bank);
      var f := Collect(m.finished, WaitingAt(a)) + CollectOption(r.outgoing, DataAt(a));
      var back, cmd := Collect(r.readPackets, DataAt(a)), CollectOption(m.cmdBus, ReadAt(a));
      assert Collect(r'.readPackets, DataAt(a)) == back + cmd by {
        if p.kind.IsRead() {
          CollectAppend(r.readPackets, p.(kind := DATA), DataAt(a));
        }
      }
      assert f + (back + cmd) == (f + back) + cmd;
    }
  }

  /** The read that goes out is the oldest of its address in its queue. */
  lemma IssueKeeps(cfg: Config, m: ControllerState, m': ControllerState, r: RankState, a: nat)
    requires Disciplined(cfg, m.banks, m.queue) && m.cmdBus.None? && Issue(cfg, m) == Ok(m')
    ensures Flight(cfg, m', r, a) == Flight(cfg, m, r, a)
  {
    IssueEffect(cfg, m, m');
    ReadsSelect(cfg, a);
    PoppedCollect(cfg, m.banks, m.queue, ReadAt(a), Locate(cfg, a).bank, Locate(cfg, a).row);
    FlightFromParts(cfg, m, m', r, a);
  }

  lemma FlightFromParts(cfg: Config, m: ControllerState, m': ControllerState, r: RankState, a: nat)
    requires m.cmdBus.None? && m'.finished == m.finished
    requires Collect(QueueAt(cfg, m.queue, Locate(cfg, a).bank), ReadAt(a))
          == CollectOption(m'.cmdBus, ReadAt(a)) + Collect(QueueAt(cfg, m'.queue, Locate(cfg, a).bank), ReadAt(a))
    ensures Flight(cfg, m', r, a) == Flight(cfg, m, r, a)
  {
    var back := Returning(m, r, a);
    assert Returning(m', r, a) == back;
    var cmd, rest := CollectOption(m'.cmdBus, ReadAt(a)), Collect(QueueAt(cfg, m'.queue, Locate(cfg, a).bank), ReadAt(a));
    assert back + (cmd + rest) == (back + cmd) + rest;
    assert back + [] == back;
  }

  lemma SplitKeeps(cfg: Config, m: ControllerState, m': ControllerState, r: RankState, a: nat)
    requires Split(cfg, m) == Ok(m')
    requires Collect(m.pendingReads, WaitingAt(a)) == Flight(cfg, m, r, a)
    ensures Collect(m'.pendingReads, WaitingAt(a)) == Flight(cfg, m', r, a)
  {
    hide AddressMapping.Decode, Collect;
    var i := FirstSplittable(cfg, m.queue, m.transactions, 0);
    if i < |m.transactions| {
      SplitQueues(cfg, m, m', i);
      ReadsSelect(cfg, a);
      SplitCollect(cfg, m.queue, m'.queue, m.transactions[i], ReadAt(a), Locate(cfg, a).bank, Locate(cfg, a).row);
      CollectAppend(m.pendingReads, m.transactions[i], WaitingAt(a));
      var front := Returning(m, r, a) + CollectOption(m.cmdBus, ReadAt(a));
      assert Returning(m', r, a) + CollectOption(m'.cmdBus, ReadAt(a)) == front;
      var add := CollectOption(Some(ColumnFor(cfg, m.transactions[i])), ReadAt(a));
      var rest := Collect(QueueAt(cfg, m.queue, Locate(cfg, a).bank), ReadAt(a));
      assert front + (rest + add) == (front + rest) + add;
    }
  }

  /** The queues after the i-th transaction has been split. */
  lemma SplitQueues(cfg: Config, m: ControllerState, m': ControllerState, i: nat)
    requires Split(cfg, m) == Ok(m') && i == FirstSplittable(cfg, m.queue, m.transactions, 0) && i < |m.transactions|
    ensures
      var t := m.transactions[i];
      var n := QueueIndex(cfg, Locate(cfg, t.address).bank);
      && n < |m.queue.queues|
      && m'.queue == m.queue.(queues := m.queue.queues[n := m.queue.queues[n] + [ActivateFor(cfg, t)] + [ColumnFor(cfg, t)]])
      && |m'.queue.queues[n]| <= cfg.cmdQueueDepth
      && m' == m.(queue := m'.queue, transactions := RemoveAt(m.transactions, i),
                  pendingReads := if t.isWrite then m.pendingReads else m.pendingReads + [t])
  {
  }

  /** The transaction handed back is the one whose read produced the data. */
  lemma ReturnMatches(cfg: Config, m: ControllerState, r: RankState)
    requires Conserved(cfg, m, r)
    ensures ReturnRead(m).Ok?
    ensures |m.finished| > 0 ==>
              ReturnRead(m).value.1.Some?
              && ReturnRead(m).value.1.value.address == m.finished[0].address
              && ReturnRead(m).value.1.value.callback == m.finished[0].callback
    ensures Conserved(cfg, ReturnRead(m).value.0, r)
  {
    if |m.finished| > 0 {
      var a := m.finished[0].address;
      var f := WaitingAt(a);
      CollectRemove(m.finished, 0, f);
      assert |Collect(m.pendingReads, f)| > 0 by {
        assert Collect(m.pendingReads, f) == Flight(cfg, m, r, a);
      }
      CollectFirst(m.pendingReads, f);
      var i := FirstPending(m.pendingReads, a, 0);
      forall b: nat
        ensures Collect(ReturnRead(m).value.0.pendingReads, WaitingAt(b)) == Flight(cfg, ReturnRead(m).value.0, r, b)
      {
        ReturnKeeps(cfg, m, r, i, b);
      }
      ReturnKeeps(cfg, m, r, i, a);
    }
  }

  lemma ReturnKeeps(cfg: Config, m: ControllerState, r: RankState, i: nat, b: nat)
    requires |m.finished| > 0 && i < |m.pendingReads|
    requires i == FirstPending(m.pendingReads, m.finished[0].address, 0)
    requires Collect(m.pendingReads, WaitingAt(b)) == Flight(cfg, m, r, b)
    ensures Collect(RemoveAt(m.pendingReads, i), WaitingAt(b)) == Flight(cfg, m.(finished := m.finished[1..]), r, b)
    ensures b == m.finished[0].address ==> m.pendingReads[i].callback == m.finished[0].callback
  {
    var f := WaitingAt(b);
    CollectRemove(m.finished, 0, f);
    assert RemoveAt(m.finished, 0) == m.finished[1..];
    CollectRemove(m.pendingReads, i, f);
    FlightSplitsFront(cfg, m, r, b);
    SameTail(CollectOption(Some(m.finished[0]), f), Flight(cfg, m.(finished := m.finished[1..]), r, b),
             CollectOption(Some(m.pendingReads[i]), f), Collect(RemoveAt(m.pendingReads, i), f));
  }

  lemma SameTail(a: seq<int>, x: seq<int>, b: seq<int>, y: seq<int>)
    requires |a| == |b| && a + x == b + y
    ensures a == b && x == y
  {
    assert a == (a + x)[..|a|] && b == (b + y)[..|b|];
    assert x == (a + x)[|a|..] && y == (b + y)[|b|..];
  }

  lemma FlightSplitsFront(cfg: Config, m: ControllerState, r: RankState, b: nat)
    requires |m.finished| > 0
    ensures Flight(cfg, m, r, b) ==
              CollectOption(Some(m.finished[0]), WaitingAt(b)) + Flight(cfg, m.(finished := m.finished[1..]), r, b)
  {
    hide AddressMapping.Decode, Collect;
    var f := WaitingAt(b);
    CollectRemove(m.finished, 0, f);
    assert RemoveAt(m.finished, 0) == m.finished[1..];
    var m' := m.(finished := m.finished[1..]);
    var x := CollectOption(Some(m.finished[0]), f);
    assert Returning(m, r, b) == x + Returning(m', r, b);
    assert x + (Returning(m', r, b) + CollectOption(m.cmdBus, ReadAt(b))) == Returning(m, r, b) + CollectOption(m.cmdBus, ReadAt(b));
  }
}
