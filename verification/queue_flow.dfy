/** What leaves and enters a queue, seen through a filter that looks at the column commands of one row. */
module QueueFlow {
  import opened DramTypes
  import opened Wrappers
  import opened Collecting
  import opened CommandQueue
  import opened QueueDiscipline
  import MemoryController

  /** The queue that holds the commands for a bank. */
  function QueueAt(cfg: Config, q: QueueState, bank: nat): seq<Packet> {
    if QueueIndex(cfg, bank) < |q.queues| then q.queues[QueueIndex(cfg, bank)] else []
  }

  /** The filter keeps nothing but column commands of this row. */
  ghost predicate Selects<U>(cfg: Config, f: Packet -> Option<U>, bank: nat, row: nat) {
    forall p :: f(p).Some? ==> p.kind.IsColumn() && (Genuine(cfg, p) ==> ForRow(p, bank, row))
  }

  /** The filter keeps nothing in front of a column command that has no older one of its row before it. */
  lemma OldestKept<U>(cfg: Config, s: seq<Packet>, i: nat, f: Packet -> Option<U>, bank: nat, row: nat)
    requires Orderly(cfg, s) && i < |s| && Selects(cfg, f, bank, row)
    requires s[i].kind.IsColumn() ==> !Depends(s, i)
    requires f(s[i]).Some?
    ensures forall k :: 0 <= k < i ==> f(s[k]).None?
  {
    assert s[i].kind.IsColumn() && ForRow(s[i], bank, row) by { assert Genuine(cfg, s[i]); }
    forall k | 0 <= k < i
      ensures f(s[k]).None?
    {
      assert Genuine(cfg, s[k]);
    }
  }

  lemma RemovedCollect<U>(cfg: Config, s: seq<Packet>, c: Choice, f: Packet -> Option<U>)
    requires c.Send? && c.index < |s|
    requires f(s[c.index]).Some? ==> forall k :: 0 <= k < c.index ==> f(s[k]).None?
    requires c.index > 0 && s[c.index - 1].kind.ACTIVATE? ==> f(s[c.index - 1]).None?
    ensures Collect(s, f) == CollectOption(Some(s[c.index]), f) + Collect(Removed(cfg, s, c), f)
  {
    if DropsActivate(cfg, s, c) {
      CollectRemovePair(s, c.index, f);
    } else {
      CollectRemove(s, c.index, f);
    }
  }

  /** The command that pop sends is the oldest of its row: it comes off the front of the filtered queue. */
  lemma PoppedCollect<U>(cfg: Config, banks: seq<BankState>, q: QueueState, f: Packet -> Option<U>, bank: nat, row: nat)
    requires Disciplined(cfg, banks, q) && Selects(cfg, f, bank, row)
    ensures
      var (q', sent) := Pop(cfg, banks, q);
      Collect(QueueAt(cfg, q, bank), f) == CollectOption(sent, f) + Collect(QueueAt(cfg, q', bank), f)
  {
    hide Pop, Choose, Collect;
    PopQueues(cfg, banks, q);
    var c := Decision(cfg, banks, q);
    var (q', sent) := Pop(cfg, banks, q);
    if c.Send? {
      PickedInOrder(cfg, banks, q.(window := AgeWindow(q.window)));
      TakenCollect(cfg, q.queues, q'.queues, c, f, bank, row);
    } else if sent.Some? {
      assert f(sent.value).None?;
    }
  }

  lemma TakenCollect<U>(cfg: Config, queues: seq<seq<Packet>>, queues': seq<seq<Packet>>, c: Choice,
                        f: Packet -> Option<U>, bank: nat, row: nat)
    requires c.Send? && c.queue < |queues| && c.index < |queues[c.queue]| && |queues| == QueueCount(cfg)
    requires Orderly(cfg, queues[c.queue]) && OwnBank(cfg, queues[c.queue], c.queue) && Selects(cfg, f, bank, row)
    requires queues[c.queue][c.index].kind.IsColumn() ==> !Depends(queues[c.queue], c.index)
    requires queues' == queues[c.queue := Removed(cfg, queues[c.queue], c)]
    ensures
      var n := QueueIndex(cfg, bank);
      n < |queues| ==>
        Collect(queues[n], f) == CollectOption(Some(queues[c.queue][c.index]), f) + Collect(queues'[n], f)
    ensures QueueIndex(cfg, bank) >= |queues| ==> f(queues[c.queue][c.index]).None?
  {
    var s := queues[c.queue];
    assert Genuine(cfg, s[c.index]);
    if f(s[c.index]).Some? {
      OldestKept(cfg, s, c.index, f, bank, row);
    }
    RemovedCollect(cfg, s, c, f);
    if c.queue != QueueIndex(cfg, bank) {
      assert f(s[c.index]).None?;
    }
  }

  /** A transaction that is split adds its column command at the end of the filtered queue. */
  lemma SplitCollect<U>(cfg: Config, q: QueueState, q': QueueState, t: Transaction, f: Packet -> Option<U>, bank: nat, row: nat)
    requires QueueIndex(cfg, Locate(cfg, t.address).bank) < |q.queues| && Selects(cfg, f, bank, row)
    requires
      var n := QueueIndex(cfg, Locate(cfg, t.address).bank);
      q'.queues == q.queues[n := q.queues[n] + [MemoryController.ActivateFor(cfg, t)] + [MemoryController.ColumnFor(cfg, t)]]
    ensures Collect(QueueAt(cfg, q', bank), f)
         == Collect(QueueAt(cfg, q, bank), f) + CollectOption(Some(MemoryController.ColumnFor(cfg, t)), f)
  {
    var a, c := MemoryController.ActivateFor(cfg, t), MemoryController.ColumnFor(cfg, t);
    var s := q.queues[QueueIndex(cfg, Locate(cfg, t.address).bank)];
    assert Genuine(cfg, c) && f(a).None?;
    CollectAppend(s, a, f);
    CollectAppend(s + [a], c, f);
  }
}
