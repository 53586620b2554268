/** A scheduler that has nothing to wait for sends a command. */
module Settled {
  import opened DramTypes
  import opened CommandQueue
  import opened QueueDiscipline
  import opened CommandSpacing
  import RoundRobin

  /** Every bank is idle or open, all its times have come, and the activation window has room. */
  predicate AllSettled(cfg: Config, banks: seq<BankState>, q: QueueState) {
    && |banks| == cfg.banks && |q.window| < 4
    && forall b :: 0 <= b < |banks| ==> BankSettled(banks[b], q.clock)
  }

  predicate BankSettled(b: BankState, clock: int) {
    && (b.state.Idle? || b.state.RowActive?) && b.countdown == 0
    && b.nextRead <= clock && b.nextWrite <= clock && b.nextActivate <= clock && b.nextPrecharge <= clock
  }

  /** Position k holds a column command of bank b whose ACTIVATE has been sent; in a queue of its own it is the first. */
  predicate Waiter(cfg: Config, s: seq<Packet>, b: nat, k: nat) {
    k < |s| && Loose(s, k) && s[k].bank == b && (cfg.queuing.PerRankPerBank? ==> k == 0)
  }

  /** In close page a bank is open only for a column command that waits for it. */
  ghost predicate Attended(cfg: Config, banks: seq<BankState>, q: QueueState)
    requires Shaped(cfg, banks, q)
  {
    cfg.rowPolicy.ClosePage? ==>
      forall b :: 0 <= b < cfg.banks && Live(banks[b]) ==> exists k: nat :: Waiter(cfg, q.queues[QueueIndex(cfg, b)], b, k)
  }

  predicate AccessesBounded(cfg: Config, q: QueueState) {
    forall b :: 0 <= b < |q.accesses| ==> q.accesses[b] <= cfg.totalRowAccesses
  }

  /** What the search and the row closing need of the state. */
  ghost predicate Prepared(cfg: Config, banks: seq<BankState>, q: QueueState) {
    && cfg.Valid() && Disciplined(cfg, banks, q) && AllSettled(cfg, banks, q)
    && AccessesBounded(cfg, q) && Attended(cfg, banks, q)
  }

  /** A column command whose row is open goes out when the bank's times have come. */
  lemma LooseIsEligible(cfg: Config, banks: seq<BankState>, q: QueueState, n: nat, k: nat, b: nat)
    requires cfg.Valid() && Disciplined(cfg, banks, q) && n < |q.queues| && k < |q.queues[n]| && Loose(q.queues[n], k)
    requires b == q.queues[n][k].bank && b < |banks| && banks[b].nextRead <= q.clock && banks[b].nextWrite <= q.clock
    ensures Issuable(cfg, banks, q, q.queues[n][k])
    ensures k == 0 || cfg.rowPolicy.OpenPage? || cfg.queuing.PerRank? ==> Eligible(cfg, banks, q, q.queues[n], k)
  {
    var s := q.queues[n];
    assert Serving(banks, q.accesses, s[k]);
    assert Genuine(cfg, s[k]);
    assert FirstOfRow(s, k);
  }

  /** A waiting column command goes out. */
  lemma WaiterIsEligible(cfg: Config, banks: seq<BankState>, q: QueueState, n: nat, k: nat)
    requires Prepared(cfg, banks, q) && n < |q.queues| && k < |q.queues[n]| && Loose(q.queues[n], k)
    ensures Issuable(cfg, banks, q, q.queues[n][k])
    ensures cfg.queuing.PerRankPerBank? && cfg.rowPolicy.ClosePage? ==> k == 0 || exists i :: 0 <= i < k && Loose(q.queues[n], i)
    ensures k == 0 || cfg.rowPolicy.OpenPage? || cfg.queuing.PerRank? ==> Eligible(cfg, banks, q, q.queues[n], k)
  {
    var s := q.queues[n];
    assert Serving(banks, q.accesses, s[k]);
    assert BankSettled(banks[s[k].bank], q.clock);
    LooseIsEligible(cfg, banks, q, n, k, s[k].bank);
    if cfg.queuing.PerRankPerBank? && cfg.rowPolicy.ClosePage? {
      assert OwnBank(cfg, s, n);
      assert s[k].bank == n && Live(banks[n]);
      var i: nat :| Waiter(cfg, q.queues[QueueIndex(cfg, n)], n, i);
    }
  }

  /** With nothing to wait for, a queue that holds packets has an eligible one, or a row can be closed for it. */
  lemma HeadMoves(cfg: Config, banks: seq<BankState>, q: QueueState, n: nat)
    requires Prepared(cfg, banks, q) && n < |q.queues| && q.queues[n] != []
    ensures (exists i :: 0 <= i < |q.queues[n]| && Eligible(cfg, banks, q, q.queues[n], i))
      || (cfg.rowPolicy.OpenPage? && exists b :: 0 <= b < cfg.banks && Closable(cfg, banks, q, b))
  {
    var s := q.queues[n];
    assert Genuine(cfg, s[0]);
    if Loose(s, 0) {
      WaiterIsEligible(cfg, banks, q, n, 0);
    } else {
      PartnerSharesRow(cfg, s, 0);
      var b := s[0].bank;
      if banks[b].state.Idle? {
        assert Eligible(cfg, banks, q, s, 0);
      } else if cfg.rowPolicy.ClosePage? {
        OpenBankMoves(cfg, banks, q, n);
      } else {
        OpenRowMoves(cfg, banks, q, n);
      }
    }
  }

  lemma OpenBankMoves(cfg: Config, banks: seq<BankState>, q: QueueState, n: nat)
    requires Prepared(cfg, banks, q) && n < |q.queues| && q.queues[n] != [] && cfg.rowPolicy.ClosePage?
    requires Live(banks[q.queues[n][0].bank])
    ensures exists i :: 0 <= i < |q.queues[n]| && Eligible(cfg, banks, q, q.queues[n], i)
  {
    var s := q.queues[n];
    var b := s[0].bank;
    assert OwnBank(cfg, s, n);
    var k: nat :| Waiter(cfg, q.queues[QueueIndex(cfg, b)], b, k);
    WaiterIsEligible(cfg, banks, q, n, k);
  }

  /** Open page: the first command for the open row goes out, or the row is closed. */
  lemma OpenRowMoves(cfg: Config, banks: seq<BankState>, q: QueueState, n: nat)
    requires Prepared(cfg, banks, q) && n < |q.queues| && q.queues[n] != [] && cfg.rowPolicy.OpenPage?
    requires Live(banks[q.queues[n][0].bank])
    ensures (exists i :: 0 <= i < |q.queues[n]| && Eligible(cfg, banks, q, q.queues[n], i))
      || Closable(cfg, banks, q, q.queues[n][0].bank)
  {
    hide Eligible, FirstForRow, Genuine;
    var s := q.queues[n];
    var b := s[0].bank;
    assert OwnBank(cfg, s, n);
    var j := FirstForRow(s, b, banks[b].openRow, 0);
    if j < |s| && q.accesses[b] < cfg.totalRowAccesses {
      PartnerSharesRow(cfg, s, j);
      FirstOfOpenRow(cfg, banks, q, n, b, j, if s[j].kind.ACTIVATE? then j + 1 else j);
    }
  }

  /** The first column command for an open row is eligible. */
  lemma FirstOfOpenRow(cfg: Config, banks: seq<BankState>, q: QueueState, n: nat, b: nat, j: nat, i: nat)
    requires Prepared(cfg, banks, q) && n < |q.queues| && cfg.rowPolicy.OpenPage? && b < cfg.banks && Live(banks[b])
    requires j <= i < |q.queues[n]| && q.accesses[b] < cfg.totalRowAccesses
    requires forall k :: 0 <= k < j ==> !ForRow(q.queues[n][k], b, banks[b].openRow)
    requires (i == j + 1 && q.queues[n][j].kind.ACTIVATE?) || (i == j && !q.queues[n][j].kind.ACTIVATE?)
    requires ForRow(q.queues[n][i], b, banks[b].openRow)
    requires i == j + 1 ==> q.queues[n][i].kind.IsColumn()
    ensures Eligible(cfg, banks, q, q.queues[n], i)
  {
    var s := q.queues[n];
    assert Genuine(cfg, s[i]);
    assert BankSettled(banks[b], q.clock);
  }

  /** While a refresh waits, an open bank is served or closed, and then the refresh is sent. */
  lemma RefreshMoves(cfg: Config, banks: seq<BankState>, q: QueueState)
    requires Prepared(cfg, banks, q)
    ensures !RefreshChoice(cfg, banks, q).Nothing?
  {
    var b := FirstBlocking(banks, q.clock, 0);
    if b < |banks| {
      assert BankSettled(banks[b], q.clock);
      var n := QueueIndex(cfg, b);
      var s := q.queues[n];
      var j := FirstForRow(s, b, banks[b].openRow, 0);
      if cfg.rowPolicy.ClosePage? {
        var k: nat :| Waiter(cfg, s, b, k);
        assert Serving(banks, q.accesses, s[k]) && FirstOfRow(s, k);
        assert ForRow(s[k], b, banks[b].openRow);
        assert j == k;
        WaiterIsEligible(cfg, banks, q, n, k);
      } else if j < |s| && !s[j].kind.ACTIVATE? {
        assert Genuine(cfg, s[j]);
        if j > 0 {
          PartnerSharesRow(cfg, s, j - 1);
        }
        assert Loose(s, j);
        WaiterIsEligible(cfg, banks, q, n, j);
      }
    }
  }

  /** With nothing to wait for, pop sends a command if there is work or a refresh is due. */
  lemma SettledSends(cfg: Config, banks: seq<BankState>, q: QueueState)
    requires Prepared(cfg, banks, q) && (q.refreshWaiting || exists n :: 0 <= n < |q.queues| && q.queues[n] != [])
    ensures !Choose(cfg, banks, q).Nothing?
  {
    hide Eligible, Closable, RefreshChoice, QueueChoice, PrechargeChoice;
    if q.refreshWaiting {
      RefreshMoves(cfg, banks, q);
    } else {
      var n :| 0 <= n < |q.queues| && q.queues[n] != [];
      HeadMoves(cfg, banks, q, n);
      RoundRobin.SearchIdleIff(cfg, banks, q);
      RoundRobin.CloseIdleIff(cfg, banks, q);
    }
  }

  /** In close page the only bank, when open, is served as soon as its times have come. */
  lemma OpenBankServed(cfg: Config, banks: seq<BankState>, q: QueueState)
    requires cfg.Valid() && Disciplined(cfg, banks, q) && Attended(cfg, banks, q) && cfg.rowPolicy.ClosePage? && cfg.banks == 1
    requires Live(banks[0]) && banks[0].nextRead <= q.clock && banks[0].nextWrite <= q.clock
    ensures !Choose(cfg, banks, q).Nothing?
  {
    hide Eligible, QueueChoice;
    var k: nat :| Waiter(cfg, q.queues[QueueIndex(cfg, 0)], 0, k);
    var s := q.queues[0];
    LooseIsEligible(cfg, banks, q, 0, k, 0);
    if q.refreshWaiting {
      assert Serving(banks, q.accesses, s[k]) && FirstOfRow(s, k);
      assert ForRow(s[k], 0, banks[0].openRow);
      assert FirstBlocking(banks, q.clock, 0) == 0;
      assert FirstForRow(s, 0, banks[0].openRow, 0) == k;
    } else {
      RoundRobin.SearchIdleIff(cfg, banks, q);
    }
  }
}
