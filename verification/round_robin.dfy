/** Round robin over ranks and banks: it misses nothing and starves nobody. */
module RoundRobin {
  import opened DramTypes
  import opened CommandQueue
  import RefreshSchedule

  datatype SchedulingPolicy = RankThenBank | BankThenRank

  /** The successor of a rank and bank under the policy. */
  function NextRankAndBank(policy: SchedulingPolicy, ranks: nat, banks: nat, rank: nat, bank: nat): (nat, nat) {
    match policy
    case RankThenBank =>
      if rank + 1 == ranks then (0, if bank + 1 == banks then 0 else bank + 1) else (rank + 1, bank)
    case BankThenRank =>
      if bank + 1 == banks then (if rank + 1 == ranks then 0 else rank + 1, 0) else (rank, bank + 1)
  }

  /** The place of a rank and bank on the cycle. */
  function Place(policy: SchedulingPolicy, ranks: nat, banks: nat, rank: nat, bank: nat): nat {
    match policy
    case RankThenBank => bank * ranks + rank
    case BankThenRank => rank * banks + bank
  }

  lemma PlaceInRange(policy: SchedulingPolicy, ranks: nat, banks: nat, rank: nat, bank: nat)
    requires rank < ranks && bank < banks
    ensures Place(policy, ranks, banks, rank, bank) < ranks * banks
  {
    match policy
    case RankThenBank => Inside(bank, banks, rank, ranks);
    case BankThenRank =>
      Inside(rank, ranks, bank, banks);
      assert ranks * banks == banks * ranks;
  }

  lemma Inside(x: nat, n: nat, y: nat, m: nat)
    requires x < n && y < m
    ensures x * m + y < m * n
  {
    assert (x + 1) * m <= n * m by { assert n * m == (x + 1) * m + (n - x - 1) * m; }
  }

  lemma EarlierPlace(m: nat, x: nat, y: nat, x': nat, y': nat)
    requires y < m && x < x'
    ensures x * m + y < x' * m + y'
  {
    assert x' * m == x * m + m + (x' - x - 1) * m;
  }

  /** Two pairs at the same place are the same pair. */
  lemma PlaceDetermines(m: nat, x: nat, y: nat, x': nat, y': nat)
    requires y < m && y' < m && x * m + y == x' * m + y'
    ensures x == x' && y == y'
  {
    if x < x' {
      EarlierPlace(m, x, y, x', y');
    } else if x' < x {
      EarlierPlace(m, x', y', x, y);
    }
  }

  /** One step moves one place on, around a single cycle of all pairs. */
  lemma NextIsSuccessor(policy: SchedulingPolicy, ranks: nat, banks: nat, rank: nat, bank: nat)
    requires rank < ranks && bank < banks
    ensures
      var (r, b) := NextRankAndBank(policy, ranks, banks, rank, bank);
      && r < ranks && b < banks
      && Place(policy, ranks, banks, r, b)
         == (if Place(policy, ranks, banks, rank, bank) + 1 == ranks * banks then 0 else Place(policy, ranks, banks, rank, bank) + 1)
  {
    PlaceInRange(policy, ranks, banks, rank, bank);
    var (r, b) := NextRankAndBank(policy, ranks, banks, rank, bank);
    PlaceInRange(policy, ranks, banks, r, b);
    match policy
    case RankThenBank =>
      assert (bank + 1) * ranks == bank * ranks + ranks;
      assert banks * ranks == ranks * banks;
    case BankThenRank =>
      assert (rank + 1) * banks == rank * banks + banks;
  }

  function Steps(policy: SchedulingPolicy, ranks: nat, banks: nat, from: (nat, nat), k: nat): (nat, nat)
    decreases k
  {
    if k == 0 then from
    else
      var (r, b) := Steps(policy, ranks, banks, from, k - 1);
      NextRankAndBank(policy, ranks, banks, r, b)
  }

  lemma {:induction false} StepsPlace(policy: SchedulingPolicy, ranks: nat, banks: nat, from: (nat, nat), k: nat)
    requires from.0 < ranks && from.1 < banks && k < ranks * banks
    ensures
      var (r, b) := Steps(policy, ranks, banks, from, k);
      var p := Place(policy, ranks, banks, from.0, from.1) + k;
      && r < ranks && b < banks
      && Place(policy, ranks, banks, r, b) == (if p < ranks * banks then p else p - ranks * banks)
  {
    PlaceInRange(policy, ranks, banks, from.0, from.1);
    if k > 0 {
      StepsPlace(policy, ranks, banks, from, k - 1);
      var (r, b) := Steps(policy, ranks, banks, from, k - 1);
      NextIsSuccessor(policy, ranks, banks, r, b);
    }
  }

  /** From any pair, every pair is reached after exactly one number of steps below ranks * banks. */
  lemma SingleCycle(policy: SchedulingPolicy, ranks: nat, banks: nat, from: (nat, nat), to: (nat, nat)) returns (k: nat)
    requires from.0 < ranks && from.1 < banks && to.0 < ranks && to.1 < banks
    ensures k < ranks * banks && Steps(policy, ranks, banks, from, k) == to
    ensures forall j :: 0 <= j < ranks * banks && Steps(policy, ranks, banks, from, j) == to ==> j == k
  {
    PlaceInRange(policy, ranks, banks, from.0, from.1);
    PlaceInRange(policy, ranks, banks, to.0, to.1);
    var p, t := Place(policy, ranks, banks, from.0, from.1), Place(policy, ranks, banks, to.0, to.1);
    k := if p <= t then t - p else t + ranks * banks - p;
    StepsPlace(policy, ranks, banks, from, k);
    SamePlace(policy, ranks, banks, Steps(policy, ranks, banks, from, k), to);
    forall j | 0 <= j < ranks * banks && Steps(policy, ranks, banks, from, j) == to
      ensures j == k
    {
      StepsPlace(policy, ranks, banks, from, j);
    }
  }

  lemma SamePlace(policy: SchedulingPolicy, ranks: nat, banks: nat, x: (nat, nat), y: (nat, nat))
    requires x.0 < ranks && x.1 < banks && y.0 < ranks && y.1 < banks
    requires Place(policy, ranks, banks, x.0, x.1) == Place(policy, ranks, banks, y.0, y.1)
    ensures x == y
  {
    match policy
    case RankThenBank => PlaceDetermines(ranks, x.1, x.0, y.1, y.0);
    case BankThenRank => PlaceDetermines(banks, x.0, x.1, y.0, y.1);
  }

  /** With one rank, both policies step to the next bank in turn. */
  lemma SingleRankTurn(cfg: Config, policy: SchedulingPolicy, bank: nat)
    requires bank < cfg.banks
    ensures NextRankAndBank(policy, 1, cfg.banks, 0, bank) == (0, Turn(cfg, bank, 1))
  {
  }

  /** How many turns a bank is away. */
  function Distance(cfg: Config, start: nat, bank: nat): nat
    requires start < cfg.banks && bank < cfg.banks
  {
    if start <= bank then bank - start else bank + cfg.banks - start
  }

  lemma TurnDistance(cfg: Config, start: nat, bank: nat)
    requires start < cfg.banks && bank < cfg.banks
    ensures Distance(cfg, start, bank) < cfg.banks && Turn(cfg, start, Distance(cfg, start, bank)) == bank
  {
    TurnValue(cfg, start, Distance(cfg, start, bank));
  }

  /** Pop sends nothing exactly when the refresh logic has nothing to do, no queue that may be served holds an
      eligible command, and (open page) no open bank may be closed. */
  lemma PopIdleIff(cfg: Config, banks: seq<BankState>, q: QueueState)
    requires Shaped(cfg, banks, q)
    ensures
      var aged := q.(window := AgeWindow(q.window));
      Pop(cfg, banks, q).1.None? <==>
        && (q.refreshWaiting ==> RefreshChoice(cfg, banks, aged).Nothing?)
        && (!q.refreshWaiting ==>
              forall n, i :: 0 <= n < |q.queues| && 0 <= i < |q.queues[n]| ==> !Eligible(cfg, banks, aged, q.queues[n], i))
        && (cfg.rowPolicy.OpenPage? ==> forall b :: 0 <= b < cfg.banks ==> !Closable(cfg, banks, aged, b))
  {
    var aged := q.(window := AgeWindow(q.window));
    SearchIdleIff(cfg, banks, aged);
    CloseIdleIff(cfg, banks, aged);
  }

  lemma SearchIdleIff(cfg: Config, banks: seq<BankState>, q: QueueState)
    requires Shaped(cfg, banks, q)
    ensures QueueChoice(cfg, banks, q).Nothing? <==>
              q.refreshWaiting
              || forall n, i :: 0 <= n < |q.queues| && 0 <= i < |q.queues[n]| ==> !Eligible(cfg, banks, q, q.queues[n], i)
  {
    forall n | 0 <= n < |q.queues|
      ensures QueueReady(cfg, banks, q, n) <==> exists i :: 0 <= i < |q.queues[n]| && Eligible(cfg, banks, q, q.queues[n], i)
    {
    }
    if cfg.queuing.PerRankPerBank? {
      var k := FirstReady(cfg, banks, q, 0);
      if k == cfg.banks {
        forall n | 0 <= n < |q.queues|
          ensures !QueueReady(cfg, banks, q, n)
        {
          TurnDistance(cfg, q.nextBank, n);
        }
      }
    }
  }

  lemma CloseIdleIff(cfg: Config, banks: seq<BankState>, q: QueueState)
    requires Shaped(cfg, banks, q)
    ensures PrechargeChoice(cfg, banks, q).Nothing? <==> forall b :: 0 <= b < cfg.banks ==> !Closable(cfg, banks, q, b)
  {
    var k := FirstClosable(cfg, banks, q, 0);
    if k == cfg.banks {
      forall b | 0 <= b < cfg.banks
        ensures !Closable(cfg, banks, q, b)
      {
        TurnDistance(cfg, q.nextBankPre, b);
      }
    }
  }

  /** How long a queue may still be passed over: two for every turn it is away, one more while posted CAS holds the pointer. */
  function Patience(cfg: Config, q: QueueState, bank: nat): nat
    requires q.nextBank < cfg.banks && bank < cfg.banks
  {
    2 * Distance(cfg, q.nextBank, bank) + (if cfg.AL > 0 && q.sendAct then 1 else 0)
  }

  /** A ready queue that is passed over has come strictly closer to its turn. */
  lemma PassedOverGetsCloser(cfg: Config, banks: seq<BankState>, q: QueueState, bank: nat)
    requires Shaped(cfg, banks, q) && cfg.queuing.PerRankPerBank? && bank < cfg.banks && !q.refreshWaiting
    requires QueueReady(cfg, banks, q.(window := AgeWindow(q.window)), bank)
    requires Decision(cfg, banks, q).Send? ==> Decision(cfg, banks, q).queue != bank
    ensures Pop(cfg, banks, q).0.nextBank < cfg.banks
    ensures Patience(cfg, Pop(cfg, banks, q).0, bank) < Patience(cfg, q, bank)
  {
    var aged := q.(window := AgeWindow(q.window));
    TurnDistance(cfg, q.nextBank, bank);
    var k := FirstReady(cfg, banks, aged, 0);
    assert k <= Distance(cfg, q.nextBank, bank);
    var s := Turn(cfg, q.nextBank, k);
    assert Decision(cfg, banks, q) == QueueChoice(cfg, banks, aged);
    assert s != bank;
    StepsCloser(cfg, q.nextBank, k, bank);
    assert Taken(cfg, aged, Decision(cfg, banks, q)).nextBank == s;
  }

  lemma StepsCloser(cfg: Config, start: nat, k: nat, bank: nat)
    requires start < cfg.banks && bank < cfg.banks && k <= Distance(cfg, start, bank) && Turn(cfg, start, k) != bank
    ensures Distance(cfg, Turn(cfg, start, k), bank) == Distance(cfg, start, bank) - k
    ensures Distance(cfg, Turn(cfg, Turn(cfg, start, k), 1), bank) == Distance(cfg, start, bank) - k - 1
  {
    TurnValue(cfg, start, k);
    TurnValue(cfg, Turn(cfg, start, k), 1);
  }

  lemma TurnValue(cfg: Config, start: nat, k: nat)
    requires start < cfg.banks && k <= cfg.banks
    ensures Turn(cfg, start, k) == if start + k < cfg.banks then start + k else start + k - cfg.banks
  {
    var x := start + k;
    if x >= cfg.banks {
      assert x == cfg.banks * 1 + (x - cfg.banks);
      RefreshSchedule.Remainder(1, x - cfg.banks, cfg.banks);
    }
  }

  /** One moment at which the queues are searched. */
  datatype Moment = Moment(banks: seq<BankState>, q: QueueState)

  /** A search with the given queue ready that serves another queue. */
  predicate PassesOver(cfg: Config, m: Moment, bank: nat) {
    && Shaped(cfg, m.banks, m.q) && cfg.queuing.PerRankPerBank? && bank < cfg.banks && !m.q.refreshWaiting
    && QueueReady(cfg, m.banks, m.q.(window := AgeWindow(m.q.window)), bank)
    && (Decision(cfg, m.banks, m.q).Send? ==> Decision(cfg, m.banks, m.q).queue != bank)
  }

  predicate Follows(cfg: Config, m: Moment, m': Moment) {
    && Shaped(cfg, m.banks, m.q)
    && m'.q.nextBank == Pop(cfg, m.banks, m.q).0.nextBank && m'.q.sendAct == Pop(cfg, m.banks, m.q).0.sendAct
  }

  /** No starvation: a queue that stays ready is passed over fewer than 2 * banks times in a row. */
  lemma {:induction false} BoundedWait(cfg: Config, moments: seq<Moment>, bank: nat)
    requires forall i :: 0 <= i < |moments| ==> PassesOver(cfg, moments[i], bank)
    requires forall i {:trigger moments[i]} :: 0 <= i && i + 1 < |moments| ==> Follows(cfg, moments[i], moments[i + 1])
    requires |moments| > 0
    ensures PassesOver(cfg, moments[0], bank)
    ensures |moments| <= Patience(cfg, moments[0].q, bank) < 2 * cfg.banks
  {
    PassedOverGetsCloser(cfg, moments[0].banks, moments[0].q, bank);
    TurnDistance(cfg, moments[0].q.nextBank, bank);
    if |moments| > 1 {
      var rest := moments[1..];
      forall i | 0 <= i && i + 1 < |rest|
        ensures Follows(cfg, rest[i], rest[i + 1])
      {
        assert Follows(cfg, moments[i + 1], moments[i + 2]);
      }
      BoundedWait(cfg, rest, bank);
      assert Follows(cfg, moments[0], moments[1]);
    }
  }

  // ---- Posted CAS ----

  /** The search of m has served queue b, and the search of m' is the next. */
  predicate ServedThen(cfg: Config, m: Moment, m': Moment, b: nat) {
    && Follows(cfg, m, m') && cfg.queuing.PerRankPerBank? && b < cfg.banks && Shaped(cfg, m'.banks, m'.q) && !m'.q.refreshWaiting
    && var c := Decision(cfg, m.banks, m.q);
    c.Send? && c.searched && c.queue == b
  }

  predicate ReadyIn(cfg: Config, m: Moment, b: nat) {
    Shaped(cfg, m.banks, m.q) && b < |m.q.queues| && QueueReady(cfg, m.banks, m.q.(window := AgeWindow(m.q.window)), b)
  }

  /**
   * With an additive latency every other command holds the pointer, so that the column command of an ACTIVATE that has just
   * gone out is next; in all other cases a queue that has been served is the last in turn.
   */
  lemma PostedCas(cfg: Config, m: Moment, m': Moment, b: nat)
    requires ServedThen(cfg, m, m', b)
    ensures
      var c' := Decision(cfg, m'.banks, m'.q);
      if cfg.AL > 0 && m.q.sendAct then
        !m'.q.sendAct && (ReadyIn(cfg, m', b) ==> c'.Send? && c'.queue == b)
      else
        m'.q.sendAct && (c'.Send? && c'.queue == b ==> forall n :: 0 <= n < cfg.banks && n != b ==> !ReadyIn(cfg, m', n))
  {
    hide QueueReady;
    var aged' := m'.q.(window := AgeWindow(m'.q.window));
    var k := FirstReady(cfg, m'.banks, aged', 0);
    if cfg.AL > 0 && m.q.sendAct {
      TurnValue(cfg, b, 0);
    } else {
      var start := Turn(cfg, b, 1);
      TurnValue(cfg, b, 1);
      forall n | 0 <= n < cfg.banks && n != b && k < cfg.banks && Turn(cfg, start, k) == b
        ensures !ReadyIn(cfg, m', n)
      {
        TurnValue(cfg, start, k);
        TurnDistance(cfg, start, n);
        TurnDistance(cfg, start, b);
      }
    }
  }

  // ---- Closing rows ----

  /**
   * A closable bank that the search passes over comes closer to the pointer by as many turns as the closed bank is away from
   * it: by none if the pointer stands at the closed bank, where it stays.
   */
  lemma PassedOverClosing(cfg: Config, banks: seq<BankState>, q: QueueState, bank: nat)
    requires Shaped(cfg, banks, q) && bank < cfg.banks
    requires Closable(cfg, banks, q.(window := AgeWindow(q.window)), bank)
    requires var c := Decision(cfg, banks, q); c.CloseRow? && c.searched && c.bank != bank
    ensures
      var closed, next := Decision(cfg, banks, q).bank, Pop(cfg, banks, q).0.nextBankPre;
      && closed < cfg.banks && next == closed
      && Distance(cfg, q.nextBankPre, closed) < Distance(cfg, q.nextBankPre, bank)
      && Distance(cfg, next, bank) == Distance(cfg, q.nextBankPre, bank) - Distance(cfg, q.nextBankPre, closed)
      && (Distance(cfg, next, bank) < Distance(cfg, q.nextBankPre, bank) <==> closed != q.nextBankPre)
  {
    hide Closable;
    var aged := q.(window := AgeWindow(q.window));
    ClosedBySearch(cfg, banks, aged);
    TurnDistance(cfg, q.nextBankPre, bank);
    var k := FirstClosable(cfg, banks, aged, 0);
    assert k <= Distance(cfg, q.nextBankPre, bank);
    StepsCloser(cfg, q.nextBankPre, k, bank);
    TurnValue(cfg, q.nextBankPre, k);
  }

  lemma ClosedBySearch(cfg: Config, banks: seq<BankState>, q: QueueState)
    requires Shaped(cfg, banks, q)
    ensures
      var c, k := Choose(cfg, banks, q), FirstClosable(cfg, banks, q, 0);
      c.CloseRow? && c.searched ==> k < cfg.banks && c.bank == Turn(cfg, q.nextBankPre, k)
  {
    hide Closable;
  }

  /** Nothing else moves the pointer. */
  lemma PointerStays(cfg: Config, banks: seq<BankState>, q: QueueState)
    requires Shaped(cfg, banks, q)
    ensures
      var c := Decision(cfg, banks, q);
      Pop(cfg, banks, q).0.nextBankPre == if c.CloseRow? && c.searched then c.bank else q.nextBankPre
  {
    hide Choose;
  }

  /** A search that closes another bank although the given one may be closed. */
  predicate PassesOverClosing(cfg: Config, m: Moment, bank: nat) {
    && Shaped(cfg, m.banks, m.q) && bank < cfg.banks
    && Closable(cfg, m.banks, m.q.(window := AgeWindow(m.q.window)), bank)
    && var c := Decision(cfg, m.banks, m.q);
    c.CloseRow? && c.searched && c.bank != bank
  }

  /** No other bank has been closed by a search in between. */
  predicate FollowsClosing(cfg: Config, m: Moment, m': Moment) {
    Shaped(cfg, m.banks, m.q) && Shaped(cfg, m'.banks, m'.q) && m'.q.nextBankPre == Pop(cfg, m.banks, m.q).0.nextBankPre
  }

  /** The next search to close a bank closes a different one. */
  predicate AnotherClosing(cfg: Config, m: Moment, m': Moment) {
    && FollowsClosing(cfg, m, m')
    && var c, c' := Decision(cfg, m.banks, m.q), Decision(cfg, m'.banks, m'.q);
    c.CloseRow? && c'.CloseRow? && c.bank != c'.bank
  }

  /** The pointer stands at the bank that is closed. */
  predicate ClosesHere(cfg: Config, m: Moment) {
    && Shaped(cfg, m.banks, m.q)
    && var c := Decision(cfg, m.banks, m.q);
    c.CloseRow? && c.bank == m.q.nextBankPre
  }

  /**
   * As long as no bank is closed twice in a row, a bank that stays closable is passed over no more often than it is turns away
   * from the pointer, and once more if the pointer stands at the first bank closed: at most `banks` times.
   */
  lemma {:induction false} BoundedClosing(cfg: Config, moments: seq<Moment>, bank: nat)
    requires forall i :: 0 <= i < |moments| ==> PassesOverClosing(cfg, moments[i], bank)
    requires forall i {:trigger moments[i]} :: 0 <= i && i + 1 < |moments| ==> AnotherClosing(cfg, moments[i], moments[i + 1])
    requires |moments| > 0
    ensures PassesOverClosing(cfg, moments[0], bank)
    ensures
      var away := Distance(cfg, moments[0].q.nextBankPre, bank);
      away < cfg.banks && |moments| <= if ClosesHere(cfg, moments[0]) then away + 1 else away
  {
    PassedOverClosing(cfg, moments[0].banks, moments[0].q, bank);
    TurnDistance(cfg, moments[0].q.nextBankPre, bank);
    if |moments| > 1 {
      var rest := moments[1..];
      forall i | 0 <= i && i + 1 < |rest|
        ensures AnotherClosing(cfg, rest[i], rest[i + 1])
      {
        assert AnotherClosing(cfg, moments[i + 1], moments[i + 2]);
      }
      BoundedClosing(cfg, rest, bank);
      assert AnotherClosing(cfg, moments[0], moments[1]);
    }
  }

  /** The bank the pointer stands at is closed again however often it opens, with a later bank passed over every time. */
  lemma ClosedAgain(cfg: Config, banks: seq<BankState>, q: QueueState, bank: nat, times: nat) returns (moments: seq<Moment>)
    requires Shaped(cfg, banks, q) && bank < cfg.banks && q.nextBankPre != bank
    requires
      var aged := q.(window := AgeWindow(q.window));
      Closable(cfg, banks, aged, bank) && Closable(cfg, banks, aged, q.nextBankPre)
    requires !q.refreshWaiting && QueueChoice(cfg, banks, q.(window := AgeWindow(q.window))).Nothing? && cfg.rowPolicy.OpenPage?
    ensures |moments| == times
    ensures forall i :: 0 <= i < |moments| ==> PassesOverClosing(cfg, moments[i], bank)
    ensures forall i {:trigger moments[i]} :: 0 <= i && i + 1 < |moments| ==> FollowsClosing(cfg, moments[i], moments[i + 1])
  {
    hide Closable, QueueChoice;
    moments := seq(times, _ => Moment(banks, q));
    var aged := q.(window := AgeWindow(q.window));
    TurnValue(cfg, q.nextBankPre, 0);
    assert FirstClosable(cfg, banks, aged, 0) == 0;
    PointerStays(cfg, banks, q);
  }

  /** There are such states in every open-page configuration with two banks or more. */
  lemma ClosingStarves(cfg: Config, times: nat) returns (moments: seq<Moment>)
    requires cfg.banks >= 2 && cfg.rowPolicy.OpenPage?
    ensures |moments| == times && forall i :: 0 <= i < |moments| ==> PassesOverClosing(cfg, moments[i], 1)
    ensures forall i {:trigger moments[i]} :: 0 <= i && i + 1 < |moments| ==> FollowsClosing(cfg, moments[i], moments[i + 1])
  {
    var banks := seq(cfg.banks, _ => RESET_BANK.(state := RowActive));
    var q := QueueState(seq(QueueCount(cfg), _ => []), [], seq(cfg.banks, _ => 0), 0, 0, false, true, 0);
    var aged := q.(window := AgeWindow(q.window));
    SearchIdleIff(cfg, banks, aged);
    assert forall b :: 0 <= b < cfg.banks ==> Closable(cfg, banks, aged, b);
    moments := ClosedAgain(cfg, banks, q, 1, times);
  }
}
