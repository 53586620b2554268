/**
 * What every queue keeps: an ACTIVATE is always followed by its own column command, and a column command
 * whose ACTIVATE has been sent is the first in its queue for its row, which stays open until it is sent.
 */
module QueueDiscipline {
  import opened DramTypes
  import opened CommandQueue
  import MemoryController

  /** The packet is what the controller makes of some transaction under the page policy. */
  predicate Genuine(cfg: Config, p: Packet) {
    var l := Locate(cfg, p.address);
    && (p.kind.ACTIVATE? || p.kind == MemoryController.ColumnKind(cfg, false) || p.kind == MemoryController.ColumnKind(cfg, true))
    && p.bank == l.bank && p.row == l.row && p.column == l.column
  }

  predicate PairsUp(s: seq<Packet>) {
    forall k {:trigger s[k].kind} :: 0 <= k < |s| && s[k].kind.ACTIVATE? ==>
      k + 1 < |s| && s[k + 1].kind.IsColumn() && s[k + 1].address == s[k].address
  }

  /** A column command whose ACTIVATE is no longer in the queue. */
  predicate Loose(s: seq<Packet>, k: nat)
    requires k < |s|
  {
    s[k].kind.IsColumn() && !(k > 0 && s[k - 1].kind.ACTIVATE?)
  }

  predicate FirstOfRow(s: seq<Packet>, k: nat)
    requires k < |s|
  {
    forall j :: 0 <= j < k ==> !ForRow(s[j], s[k].bank, s[k].row)
  }

  /** The bank holds the row this packet wants and has not begun to close or to count extra accesses. */
  predicate Serving(banks: seq<BankState>, accesses: seq<nat>, p: Packet) {
    && p.bank < |banks| && p.bank < |accesses|
    && banks[p.bank].state.RowActive? && banks[p.bank].openRow == p.row && banks[p.bank].countdown == 0
    && accesses[p.bank] == 0
  }

  predicate Orderly(cfg: Config, s: seq<Packet>) {
    && |s| <= cfg.cmdQueueDepth
    && (forall k :: 0 <= k < |s| ==> Genuine(cfg, s[k]) && s[k].bank < cfg.banks)
    && PairsUp(s)
    && (forall k :: 0 <= k < |s| && Loose(s, k) ==> FirstOfRow(s, k))
  }

  predicate Served(banks: seq<BankState>, accesses: seq<nat>, s: seq<Packet>) {
    forall k :: 0 <= k < |s| && Loose(s, k) ==> Serving(banks, accesses, s[k])
  }

  predicate OwnBank(cfg: Config, s: seq<Packet>, i: nat) {
    cfg.queuing.PerRankPerBank? ==> forall k :: 0 <= k < |s| ==> s[k].bank == i
  }

  predicate Disciplined(cfg: Config, banks: seq<BankState>, q: QueueState) {
    && Shaped(cfg, banks, q)
    && (forall i :: 0 <= i < |q.queues| ==>
          Orderly(cfg, q.queues[i]) && OwnBank(cfg, q.queues[i], i) && Served(banks, q.accesses, q.queues[i]))
    && (forall b :: 0 <= b < cfg.banks && q.accesses[b] > 0 ==> banks[b].state.RowActive? && cfg.rowPolicy.OpenPage?)
  }

  lemma PrecedesActivate(s: seq<Packet>, i: nat)
    requires PairsUp(s) && 0 < i < |s| && s[i].kind.ACTIVATE?
    ensures !s[i - 1].kind.ACTIVATE?
  {
    assert s[i - 1].kind.ACTIVATE? ==> s[(i - 1) + 1].kind.IsColumn();
  }

  lemma PairsHaveOneAddress(s: seq<Packet>, i: nat)
    requires PairsUp(s) && 0 < i < |s|
    ensures s[i - 1].kind.ACTIVATE? ==> Paired(s, i)
  {
    assert s[i - 1].kind.ACTIVATE? ==> s[(i - 1) + 1].address == s[i - 1].address;
  }

  lemma PartnerSharesRow(cfg: Config, s: seq<Packet>, i: nat)
    requires Orderly(cfg, s) && i < |s|
    ensures s[i].kind.ACTIVATE? ==> i + 1 < |s| && s[i + 1].kind.IsColumn() && ForRow(s[i + 1], s[i].bank, s[i].row)
  {
    assert Genuine(cfg, s[i]);
    assert i + 1 < |s| ==> Genuine(cfg, s[i + 1]);
  }

  lemma RemoveLoose(cfg: Config, s: seq<Packet>, i: nat)
    requires Orderly(cfg, s) && i < |s| && Loose(s, i)
    ensures Orderly(cfg, RemoveAt(s, i))
    ensures forall k :: 0 <= k < |s| - 1 && Loose(RemoveAt(s, i), k) ==> Loose(s, if k < i then k else k + 1)
  {
    var t := RemoveAt(s, i);
    forall k | 0 <= k < |t| && Loose(t, k)
      ensures Loose(s, if k < i then k else k + 1) && FirstOfRow(t, k)
    {
      var k' := if k < i then k else k + 1;
      assert Loose(s, k');
      assert FirstOfRow(s, k');
    }
    forall k | 0 <= k < |t| && t[k].kind.ACTIVATE?
      ensures k + 1 < |t| && t[k + 1].kind.IsColumn() && t[k + 1].address == t[k].address
    {
      var k' := if k < i then k else k + 1;
      assert s[k'].kind.ACTIVATE?;
      assert k' + 1 != i;
    }
  }

  lemma RemovePair(cfg: Config, s: seq<Packet>, i: nat)
    requires Orderly(cfg, s) && 0 < i < |s| && s[i - 1].kind.ACTIVATE?
    ensures Orderly(cfg, RemovePairAt(s, i))
    ensures forall k :: 0 <= k < |s| - 2 && Loose(RemovePairAt(s, i), k) ==> Loose(s, if k < i - 1 then k else k + 2)
  {
    var t := RemovePairAt(s, i);
    assert s[i].kind.IsColumn() by { assert s[(i - 1) + 1].kind.IsColumn(); }
    if i > 1 {
      PrecedesActivate(s, i - 1);
    }
    forall k | 0 <= k < |t| && Loose(t, k)
      ensures Loose(s, if k < i - 1 then k else k + 2) && FirstOfRow(t, k)
    {
      var k' := if k < i - 1 then k else k + 2;
      assert t[k] == s[k'];
      assert Loose(s, k');
      assert FirstOfRow(s, k');
      forall j | 0 <= j < k
        ensures !ForRow(t[j], t[k].bank, t[k].row)
      {
        var j' := if j < i - 1 then j else j + 2;
        assert t[j] == s[j'];
      }
    }
    forall k | 0 <= k < |t| && t[k].kind.ACTIVATE?
      ensures k + 1 < |t| && t[k + 1].kind.IsColumn() && t[k + 1].address == t[k].address
    {
      var k' := if k < i - 1 then k else k + 2;
      assert s[k'].kind.ACTIVATE?;
      assert t[k + 1] == s[k' + 1];
    }
    forall k | 0 <= k < |t|
      ensures Genuine(cfg, t[k]) && t[k].bank < cfg.banks
    {
      assert t[k] == s[if k < i - 1 then k else k + 2];
    }
  }

  lemma RemoveActivate(cfg: Config, s: seq<Packet>, i: nat)
    requires Orderly(cfg, s) && i < |s| && s[i].kind.ACTIVATE? && FirstOfRow(s, i)
    ensures Orderly(cfg, RemoveAt(s, i))
    ensures forall k :: 0 <= k < |s| - 1 && Loose(RemoveAt(s, i), k) ==> k == i || Loose(s, if k < i then k else k + 1)
    ensures i < |s| - 1 && ForRow(RemoveAt(s, i)[i], s[i].bank, s[i].row)
  {
    var t := RemoveAt(s, i);
    PartnerSharesRow(cfg, s, i);
    if i > 0 {
      PrecedesActivate(s, i);
    }
    forall k | 0 <= k < |t| && Loose(t, k)
      ensures (k == i || Loose(s, if k < i then k else k + 1)) && FirstOfRow(t, k)
    {
      if k != i {
        var k' := if k < i then k else k + 1;
        assert Loose(s, k');
        assert FirstOfRow(s, k');
      }
    }
    forall k | 0 <= k < |t| && t[k].kind.ACTIVATE?
      ensures k + 1 < |t| && t[k + 1].kind.IsColumn() && t[k + 1].address == t[k].address
    {
      var k' := if k < i then k else k + 1;
      assert s[k'].kind.ACTIVATE?;
    }
  }

  /** Appending an ACTIVATE and its column command, as the split of a transaction does. */
  lemma AppendPair(cfg: Config, s: seq<Packet>, a: Packet, c: Packet)
    requires Orderly(cfg, s) && |s| + 2 <= cfg.cmdQueueDepth
    requires Genuine(cfg, a) && Genuine(cfg, c) && a.kind.ACTIVATE? && c.kind.IsColumn() && a.address == c.address
    requires a.bank < cfg.banks
    ensures Orderly(cfg, s + [a] + [c])
    ensures forall k :: 0 <= k < |s| + 2 && Loose(s + [a] + [c], k) ==> k < |s| && Loose(s, k)
  {
    var t := s + [a] + [c];
    forall k | 0 <= k < |t| && Loose(t, k)
      ensures k < |s| && Loose(s, k) && FirstOfRow(t, k)
    {
      assert k < |s|;
      assert Loose(s, k);
      assert FirstOfRow(s, k);
    }
    forall k | 0 <= k < |t| && t[k].kind.ACTIVATE?
      ensures k + 1 < |t| && t[k + 1].kind.IsColumn() && t[k + 1].address == t[k].address
    {
      if k < |s| {
        assert s[k].kind.ACTIVATE?;
      }
    }
  }

  /** Of two ACTIVATEs for the same row the search cannot pick the younger. */
  lemma ElderActivateWins(cfg: Config, banks: seq<BankState>, q: QueueState, n: nat, i: nat, j: nat)
    requires Disciplined(cfg, banks, q) && n < |q.queues| && j < i < |q.queues[n]|
    requires q.queues[n][i].kind.ACTIVATE? && q.queues[n][j].kind.ACTIVATE?
    ensures ForRow(q.queues[n][j], q.queues[n][i].bank, q.queues[n][i].row) && Eligible(cfg, banks, q, q.queues[n], i) ==>
              Eligible(cfg, banks, q, q.queues[n], j)
  {
    var s := q.queues[n];
    PartnerSharesRow(cfg, s, j);
    assert j + 1 != i;
    assert ForRow(s[j], s[i].bank, s[i].row) ==> Depends(s, i);
    if j > 0 {
      PrecedesActivate(s, j);
    }
  }

  /** An ACTIVATE that the search picks has no older command for its row in its queue. */
  lemma SearchedActivateIsFirst(cfg: Config, banks: seq<BankState>, q: QueueState, n: nat, i: nat)
    requires Disciplined(cfg, banks, q) && n < |q.queues| && i < |q.queues[n]|
    requires q.queues[n][i].kind.ACTIVATE? && Eligible(cfg, banks, q, q.queues[n], i)
    requires forall j :: 0 <= j < i ==> !Eligible(cfg, banks, q, q.queues[n], j)
    ensures FirstOfRow(q.queues[n], i)
  {
    var s := q.queues[n];
    forall j | 0 <= j < i
      ensures !ForRow(s[j], s[i].bank, s[i].row)
    {
      assert Genuine(cfg, s[j]);
      if s[j].kind.ACTIVATE? {
        ElderActivateWins(cfg, banks, q, n, i, j);
      } else if j > 0 && s[j - 1].kind.ACTIVATE? {
        PartnerSharesRow(cfg, s, j - 1);
        ElderActivateWins(cfg, banks, q, n, i, j - 1);
      } else {
        assert Loose(s, j);
        assert Serving(banks, q.accesses, s[j]);
      }
    }
  }

  /** What is known of a packet that pop takes from a queue. */
  lemma PickedInOrder(cfg: Config, banks: seq<BankState>, q: QueueState)
    requires Disciplined(cfg, banks, q) && Choose(cfg, banks, q).Send?
    ensures
      var c := Choose(cfg, banks, q);
      var s := q.queues[c.queue];
      var p := s[c.index];
      && (p.kind.ACTIVATE? ==> FirstOfRow(s, c.index) && !DropsActivate(cfg, s, c))
      && (p.kind.IsColumn() ==> !Depends(s, c.index))
      && (p.kind.IsColumn() && !DropsActivate(cfg, s, c) ==> Loose(s, c.index))
  {
    hide Issuable, Blocks, FirstForRow;
    var c := Choose(cfg, banks, q);
    var s := q.queues[c.queue];
    var i := c.index;
    assert Genuine(cfg, s[i]);
    if !c.searched {
      assert c == RefreshChoice(cfg, banks, q);
      assert FirstOfRow(s, i);
      if i > 0 {
        PartnerSharesRow(cfg, s, i - 1);
      }
    } else {
      assert c == QueueChoice(cfg, banks, q);
      assert i == FirstEligible(cfg, banks, q, s, 0);
      if s[i].kind.ACTIVATE? {
        SearchedActivateIsFirst(cfg, banks, q, c.queue, i);
        if i > 0 {
          PrecedesActivate(s, i);
        }
      } else if cfg.rowPolicy.ClosePage? && cfg.queuing.PerRank? {
        if i > 0 {
          PairsHaveOneAddress(s, i);
        }
        assert Loose(s, i);
        assert FirstOfRow(s, i);
      }
    }
  }
}
