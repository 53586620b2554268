/** One call of pop keeps the discipline of the queues, whatever it chooses to send. */
module PopDiscipline {
  import opened DramTypes
  import opened CommandQueue
  import opened QueueDiscipline
  import MemoryController

  /** A bank that may be activated has come to rest. */
  predicate AtRest(b: BankState, clock: int) {
    (b.state.Idle? || b.state.Refreshing?) && clock >= b.nextActivate ==> b.state.Idle? && b.countdown == 0
  }

  predicate NoLooseFor(s: seq<Packet>, bank: nat) {
    forall k :: 0 <= k < |s| && Loose(s, k) ==> s[k].bank != bank
  }

  predicate SameService(b: BankState, b': BankState) {
    b.state == b'.state && b.openRow == b'.openRow && b.countdown == b'.countdown
  }

  /** Only one bank changes in a way the waiting column commands could notice. */
  predicate OnlyAt(banks: seq<BankState>, acc: seq<nat>, banks': seq<BankState>, acc': seq<nat>, bank: nat) {
    && |banks'| == |banks| && |acc'| == |acc|
    && (forall b :: 0 <= b < |banks| && b != bank ==> SameService(banks[b], banks'[b]))
    && (forall b :: 0 <= b < |acc| && b != bank ==> acc'[b] == acc[b])
  }

  lemma StillServed(banks: seq<BankState>, acc: seq<nat>, banks': seq<BankState>, acc': seq<nat>, bank: nat, s: seq<Packet>)
    requires Served(banks, acc, s) && NoLooseFor(s, bank) && OnlyAt(banks, acc, banks', acc', bank)
    ensures Served(banks', acc', s)
  {
    forall k | 0 <= k < |s| && Loose(s, k)
      ensures Serving(banks', acc', s[k])
    {
      assert Serving(banks, acc, s[k]);
    }
  }

  /** No waiting column command belongs to a bank that is not serving it. */
  lemma QuietBank(cfg: Config, banks: seq<BankState>, q: QueueState, n: nat, bank: nat)
    requires Disciplined(cfg, banks, q) && n < |q.queues| && bank < cfg.banks
    requires !banks[bank].state.RowActive? || q.accesses[bank] > 0
    ensures NoLooseFor(q.queues[n], bank)
  {
    var s := q.queues[n];
    forall k | 0 <= k < |s| && Loose(s, k)
      ensures s[k].bank != bank
    {
      assert Serving(banks, q.accesses, s[k]);
    }
  }

  /** A bank serves at most one waiting column command. */
  lemma OneLoosePerBank(cfg: Config, banks: seq<BankState>, q: QueueState, n: nat, i: nat, k: nat)
    requires Disciplined(cfg, banks, q) && n < |q.queues| && i < |q.queues[n]| && k < |q.queues[n]|
    requires Loose(q.queues[n], k) && q.queues[n][i].bank == q.queues[n][k].bank
    requires q.queues[n][i].row == banks[q.queues[n][i].bank].openRow
    requires q.queues[n][i].kind.IsColumn() && !Depends(q.queues[n], i)
    ensures i == k
  {
    var s := q.queues[n];
    assert Serving(banks, q.accesses, s[k]);
    assert ForRow(s[i], s[k].bank, s[k].row);
    assert FirstOfRow(s, k);
    assert !s[k].kind.ACTIVATE? && ForRow(s[k], s[i].bank, s[i].row);
  }

  lemma ActivateKeeps(cfg: Config, banks: seq<BankState>, q: QueueState, c: Choice)
    requires cfg.Valid() && Disciplined(cfg, banks, q) && c == Choose(cfg, banks, q) && c.Send?
    requires Chosen(cfg, q, c).kind.ACTIVATE?
    requires AtRest(banks[Chosen(cfg, q, c).bank], q.clock)
    ensures Disciplined(cfg, MemoryController.TableAfter(cfg, Chosen(cfg, q, c), banks, q.clock), Taken(cfg, q, c))
  {
    hide Choose, Genuine, FirstOfRow;
    PickedInOrder(cfg, banks, q);
    var n, i := c.queue, c.index;
    var s := q.queues[n];
    var p := s[i];
    var banks' := MemoryController.TableAfter(cfg, p, banks, q.clock);
    RemoveActivate(cfg, s, i);
    var t := RemoveAt(s, i);
    forall m | 0 <= m < |q.queues| && m != n
      ensures Served(banks', q.accesses, q.queues[m])
    {
      QuietBank(cfg, banks, q, m, p.bank);
      StillServed(banks, q.accesses, banks', q.accesses, p.bank, q.queues[m]);
    }
    QuietBank(cfg, banks, q, n, p.bank);
    forall k | 0 <= k < |t| && Loose(t, k)
      ensures Serving(banks', q.accesses, t[k])
    {
      if k != i {
        var k' := if k < i then k else k + 1;
        assert Loose(s, k') && t[k] == s[k'];
        assert Serving(banks, q.accesses, s[k']);
      }
    }
    assert OwnBank(cfg, t, n);
  }

  /** The queue a column command has been taken from, with or without an unused ACTIVATE, is still in order. */
  lemma ColumnQueueKeeps(cfg: Config, banks: seq<BankState>, q: QueueState, c: Choice, banks': seq<BankState>, acc': seq<nat>)
    requires Disciplined(cfg, banks, q) && c == Choose(cfg, banks, q) && c.Send? && Chosen(cfg, q, c).kind.IsColumn()
    requires OnlyAt(banks, q.accesses, banks', acc', Chosen(cfg, q, c).bank)
    ensures
      var t := Removed(cfg, q.queues[c.queue], c);
      Orderly(cfg, t) && OwnBank(cfg, t, c.queue) && Served(banks', acc', t)
  {
    hide Choose;
    PickedInOrder(cfg, banks, q);
    var n, i := c.queue, c.index;
    var s := q.queues[n];
    var t := Removed(cfg, s, c);
    if DropsActivate(cfg, s, c) {
      RemovePair(cfg, s, i);
      forall k | 0 <= k < |t| && Loose(t, k)
        ensures Serving(banks', acc', t[k])
      {
        OthersServed(cfg, banks, q, c, if k < i - 1 then k else k + 2, banks', acc');
      }
    } else {
      RemoveLoose(cfg, s, i);
      forall k | 0 <= k < |t| && Loose(t, k)
        ensures Serving(banks', acc', t[k])
      {
        OthersServed(cfg, banks, q, c, if k < i then k else k + 1, banks', acc');
      }
    }
    assert OwnBank(cfg, s, n);
  }

  lemma ColumnKeeps(cfg: Config, banks: seq<BankState>, q: QueueState, c: Choice)
    requires cfg.Valid() && Disciplined(cfg, banks, q) && c == Choose(cfg, banks, q) && c.Send?
    requires Chosen(cfg, q, c).kind.IsColumn()
    ensures Disciplined(cfg, MemoryController.TableAfter(cfg, Chosen(cfg, q, c), banks, q.clock), Taken(cfg, q, c))
  {
    hide Choose, Orderly, Serving;
    var n := c.queue;
    var p := q.queues[n][c.index];
    var banks' := MemoryController.TableAfter(cfg, p, banks, q.clock);
    var q' := Taken(cfg, q, c);
    ColumnEffect(cfg, banks, q, c);
    ColumnQueueKeeps(cfg, banks, q, c, banks', q'.accesses);
    forall m | 0 <= m < |q.queues| && m != n
      ensures Served(banks', q'.accesses, q.queues[m])
    {
      assert OwnBank(cfg, q.queues[m], m) && OwnBank(cfg, q.queues[n], n);
      StillServed(banks, q.accesses, banks', q'.accesses, p.bank, q.queues[m]);
    }
  }

  lemma ColumnEffect(cfg: Config, banks: seq<BankState>, q: QueueState, c: Choice)
    requires cfg.Valid() && Disciplined(cfg, banks, q) && c == Choose(cfg, banks, q) && c.Send?
    requires Chosen(cfg, q, c).kind.IsColumn()
    ensures
      var p := q.queues[c.queue][c.index];
      var banks' := MemoryController.TableAfter(cfg, p, banks, q.clock);
      var q' := Taken(cfg, q, c);
      && OnlyAt(banks, q.accesses, banks', q'.accesses, p.bank)
      && (forall b :: 0 <= b < cfg.banks && q'.accesses[b] > 0 ==> banks'[b].state.RowActive? && cfg.rowPolicy.OpenPage?)
      && (forall k :: 0 <= k < |q'.queues[c.queue]| ==> q'.queues[c.queue][k].bank < cfg.banks)
  {
    assert Issuable(cfg, banks, q, q.queues[c.queue][c.index]);
  }

  lemma OthersServed(cfg: Config, banks: seq<BankState>, q: QueueState, c: Choice, k: nat, banks': seq<BankState>, acc': seq<nat>)
    requires Disciplined(cfg, banks, q) && c == Choose(cfg, banks, q) && c.Send? && Chosen(cfg, q, c).kind.IsColumn()
    requires k < |q.queues[c.queue]| && k != c.index && Loose(q.queues[c.queue], k)
    requires OnlyAt(banks, q.accesses, banks', acc', Chosen(cfg, q, c).bank)
    ensures Serving(banks', acc', q.queues[c.queue][k])
  {
    PickedInOrder(cfg, banks, q);
    var s := q.queues[c.queue];
    assert Serving(banks, q.accesses, s[k]);
    if s[k].bank == s[c.index].bank {
      OneLoosePerBank(cfg, banks, q, c.queue, c.index, k);
    }
  }

  /** No row is closed while the column command that had it opened is still waiting. */
  lemma ClosedRowHasNoWaiter(cfg: Config, banks: seq<BankState>, q: QueueState, n: nat)
    requires cfg.Valid() && Disciplined(cfg, banks, q) && n < |q.queues|
    requires Choose(cfg, banks, q).CloseRow?
    ensures NoLooseFor(q.queues[n], Choose(cfg, banks, q).bank)
  {
    hide Issuable, Eligible, FirstEligible, Depends, Genuine;
    var c := Choose(cfg, banks, q);
    var b := c.bank;
    var s := q.queues[n];
    assert c == if c.searched then PrechargeChoice(cfg, banks, q) else RefreshChoice(cfg, banks, q);
    forall k | 0 <= k < |s| && Loose(s, k)
      ensures s[k].bank != b
    {
      assert Serving(banks, q.accesses, s[k]);
      assert FirstOfRow(s, k);
      assert s[k].bank == b ==> n == QueueIndex(cfg, b) && FirstForRow(s, b, banks[b].openRow, 0) == k by {
        assert OwnBank(cfg, s, n);
        assert s[k].bank == b ==> ForRow(s[k], b, banks[b].openRow);
      }
    }
  }

  lemma CloseKeeps(cfg: Config, banks: seq<BankState>, q: QueueState, c: Choice)
    requires cfg.Valid() && Disciplined(cfg, banks, q) && c == Choose(cfg, banks, q) && c.CloseRow?
    ensures Disciplined(cfg, MemoryController.TableAfter(cfg, Chosen(cfg, q, c), banks, q.clock), Taken(cfg, q, c))
  {
    var banks' := MemoryController.TableAfter(cfg, Chosen(cfg, q, c), banks, q.clock);
    var q' := Taken(cfg, q, c);
    forall n | 0 <= n < |q.queues|
      ensures Served(banks', q'.accesses, q.queues[n])
    {
      ClosedRowHasNoWaiter(cfg, banks, q, n);
      StillServed(banks, q.accesses, banks', q'.accesses, c.bank, q.queues[n]);
    }
  }

  lemma RefreshKeeps(cfg: Config, banks: seq<BankState>, q: QueueState, c: Choice)
    requires cfg.Valid() && Disciplined(cfg, banks, q) && c == Choose(cfg, banks, q) && c.SendRefresh?
    ensures Disciplined(cfg, MemoryController.TableAfter(cfg, Chosen(cfg, q, c), banks, q.clock), Taken(cfg, q, c))
  {
    var banks' := MemoryController.TableAfter(cfg, Chosen(cfg, q, c), banks, q.clock);
    forall n | 0 <= n < |q.queues|
      ensures Served(banks', q.accesses, q.queues[n])
    {
      var s := q.queues[n];
      forall k | 0 <= k < |s|
        ensures !Loose(s, k)
      {
        assert !Blocks(banks[s[k].bank], q.clock);
        assert !Serving(banks, q.accesses, s[k]);
      }
    }
    forall b | 0 <= b < cfg.banks
      ensures q.accesses[b] == 0
    {
      assert !Blocks(banks[b], q.clock);
    }
  }

  lemma ChoiceKeeps(cfg: Config, banks: seq<BankState>, q: QueueState, c: Choice)
    requires cfg.Valid() && Disciplined(cfg, banks, q) && c == Choose(cfg, banks, q) && !c.Nothing?
    requires forall b :: 0 <= b < cfg.banks ==> AtRest(banks[b], q.clock)
    ensures Disciplined(cfg, MemoryController.TableAfter(cfg, Chosen(cfg, q, c), banks, q.clock), Taken(cfg, q, c))
  {
    match c
    case Send(_, _, _) =>
      assert Genuine(cfg, Chosen(cfg, q, c));
      if Chosen(cfg, q, c).kind.ACTIVATE? {
        ActivateKeeps(cfg, banks, q, c);
      } else {
        ColumnKeeps(cfg, banks, q, c);
      }
    case CloseRow(_, _) => CloseKeeps(cfg, banks, q, c);
    case SendRefresh => RefreshKeeps(cfg, banks, q, c);
  }

  /** The discipline does not look at the activation window, the pointers, the flags or the clock. */
  lemma SameQueues(cfg: Config, banks: seq<BankState>, q: QueueState, q': QueueState)
    requires Disciplined(cfg, banks, q) && q'.queues == q.queues && q'.accesses == q.accesses
    requires q'.nextBank < cfg.banks && q'.nextBankPre < cfg.banks
    ensures Disciplined(cfg, banks, q')
  {
  }

  /** All choices together: a pop leaves the queues in order for the table after the command. */
  lemma PopKeepsDiscipline(cfg: Config, banks: seq<BankState>, q: QueueState)
    requires cfg.Valid() && Disciplined(cfg, banks, q)
    requires forall b :: 0 <= b < cfg.banks ==> AtRest(banks[b], q.clock)
    ensures
      var (q', sent) := Pop(cfg, banks, q);
      Disciplined(cfg, if sent.Some? then MemoryController.TableAfter(cfg, sent.value, banks, q.clock) else banks, q')
  {
    var aged := q.(window := AgeWindow(q.window));
    SameQueues(cfg, banks, q, aged);
    var c := Choose(cfg, banks, aged);
    if !c.Nothing? {
      var p := Chosen(cfg, aged, c);
      ChoiceKeeps(cfg, banks, aged, c);
      SameQueues(cfg, MemoryController.TableAfter(cfg, p, banks, q.clock), Taken(cfg, aged, c),
                 Finished(cfg, Taken(cfg, aged, c), p.kind));
    }
  }
}
