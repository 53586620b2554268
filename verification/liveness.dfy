/** How long a scheduler can have something to wait for. */
module Liveness {
  import opened DramTypes
  import opened Wrappers
  import opened CommandQueue
  import opened QueueDiscipline
  import opened CommandSpacing
  import opened Settled
  import opened TableRefinement
  import opened MemoryController
  import PopDiscipline

  /** A bound on every delay that a command puts into the table. */
  function Horizon(cfg: Config): int {
    cfg.tRC + cfg.tRRD + cfg.tRAS + cfg.tRCD + cfg.tRP + cfg.tRFC + cfg.tFAW + cfg.ColumnGap() + cfg.ReadToPre() + cfg.WriteToPre()
    + cfg.ReadAutoPre() + cfg.WriteAutoPre() + cfg.ReadToWrite() + cfg.WriteToRead() + cfg.tCKE + cfg.tXP
  }

  /** The updates until the bank's countdown has run out, the precharge that follows an auto-precharge included. */
  function Rest(cfg: Config, c: BankState): int {
    if c.countdown > 0 && (c.lastCommand.READ_P? || c.lastCommand.WRITE_P?) then c.countdown + cfg.tRP else c.countdown
  }

  /** Last aged in cycle base, the bank has nothing to wait for from cycle due on. */
  predicate BankDue(cfg: Config, c: BankState, base: int, due: int) {
    && c.nextRead <= due && c.nextWrite <= due && c.nextActivate <= due && c.nextPrecharge <= due && c.nextPowerUp <= due
    && (c.countdown > 0 ==> base + Rest(cfg, c) <= due)
  }

  predicate AllDue(cfg: Config, banks: seq<BankState>, base: int, due: int) {
    forall b :: 0 <= b < |banks| ==> BankDue(cfg, banks[b], base, due)
  }

  predicate WindowDue(w: seq<nat>, base: int, due: int) {
    forall i :: 0 <= i < |w| ==> base + w[i] <= due
  }

  lemma BankAges(cfg: Config, c: BankState, r: BankState, base: int, due: int)
    requires cfg.Valid() && Rel(cfg, c, r, base) && BankDue(cfg, c, base, due)
    ensures BankDue(cfg, AgeBank(cfg, c), base + 1, due)
    ensures Live(AgeBank(cfg, c)) ==> Live(c)
  {
  }

  /** How far a command puts the scheduler off. */
  function Delay(cfg: Config, kind: PacketKind): int {
    if kind.REFRESH? then cfg.tRFC else Horizon(cfg)
  }

  /** When the scheduler has nothing to wait for, after a cycle in which it has sent a command or none. */
  function SentDue(cfg: Config, sent: Option<Packet>, due: int, now: int): (later: int)
    ensures later >= due
  {
    if sent.Some? then Max(due, now + Delay(cfg, sent.value.kind)) else due
  }

  lemma DelayWithinHorizon(cfg: Config, kind: PacketKind)
    requires cfg.Valid()
    ensures 0 <= Delay(cfg, kind) <= Horizon(cfg)
  {
  }

  /** A command puts nothing off further than its delay. */
  lemma CommandDue(cfg: Config, kind: PacketKind, c: BankState, mine: bool, row: nat, now: int, due: int)
    requires cfg.Valid() && BankDue(cfg, c, now, due)
    requires mine && kind.ACTIVATE? ==> c.countdown == 0
    ensures BankDue(cfg, BankAfter(cfg, kind, c, mine, row, now), now, Max(due, now + Delay(cfg, kind)))
  {
    if kind.IsColumn() {
      ColumnDue(cfg, kind, c, mine, row, now, due);
    }
  }

  lemma ColumnDue(cfg: Config, kind: PacketKind, c: BankState, mine: bool, row: nat, now: int, due: int)
    requires cfg.Valid() && BankDue(cfg, c, now, due) && kind.IsColumn()
    ensures BankDue(cfg, BankAfter(cfg, kind, c, mine, row, now), now, Max(due, now + Horizon(cfg)))
  {
  }

  /** Once its time has come the bank is at rest. */
  lemma DueIsSettled(cfg: Config, c: BankState, r: BankState, now: int, due: int)
    requires cfg.Valid() && Rel(cfg, c, r, now) && BankDue(cfg, c, now, due) && due <= now && !c.state.PowerDown?
    ensures BankSettled(c, now)
  {
  }

  // ---- Open banks and their waiters ----

  lemma AppendKeepsWaiter(cfg: Config, s: seq<Packet>, more: seq<Packet>, b: nat, k: nat)
    requires Waiter(cfg, s, b, k)
    ensures Waiter(cfg, s + more, b, k)
  {
  }

  /** Taking another packet out leaves the waiter where it is or moves it up. */
  lemma RemovalKeepsWaiter(cfg: Config, s: seq<Packet>, i: nat, b: nat, k: nat)
    requires Orderly(cfg, s) && Waiter(cfg, s, b, k) && i < |s| && i != k
    requires s[i].kind.ACTIVATE? || Loose(s, i)
    requires cfg.queuing.PerRankPerBank? ==> i == 0
    ensures Waiter(cfg, RemoveAt(s, i), b, if k < i then k else k - 1)
  {
  }

  /** An ACTIVATE leaves its column command behind as the waiter of its bank. */
  lemma ActivateLeavesWaiter(cfg: Config, s: seq<Packet>, i: nat)
    requires Orderly(cfg, s) && i < |s| && s[i].kind.ACTIVATE? && (cfg.queuing.PerRankPerBank? ==> i == 0)
    ensures Waiter(cfg, RemoveAt(s, i), s[i].bank, i)
  {
    PartnerSharesRow(cfg, s, i);
    if i > 0 {
      PrecedesActivate(s, i);
    }
  }

  lemma AgedAttended(cfg: Config, banks: seq<BankState>, banks': seq<BankState>, q: QueueState)
    requires Shaped(cfg, banks, q) && Attended(cfg, banks, q) && |banks'| == |banks|
    requires forall b :: 0 <= b < |banks| && Live(banks'[b]) ==> Live(banks[b])
    ensures Shaped(cfg, banks', q) && Attended(cfg, banks', q)
  {
    SameShape(cfg, banks, q, banks', q);
  }

  /** In close page what pop takes from a queue of its own is the first packet. */
  lemma OwnQueueFromFront(cfg: Config, banks: seq<BankState>, q: QueueState)
    requires Disciplined(cfg, banks, q) && Attended(cfg, banks, q) && cfg.rowPolicy.ClosePage? && Choose(cfg, banks, q).Send?
    requires ClosingBanksWait(banks, q.clock)
    ensures cfg.queuing.PerRankPerBank? ==> Choose(cfg, banks, q).index == 0
  {
  }

  predicate ClosingBanksWait(banks: seq<BankState>, clock: int) {
    forall b :: 0 <= b < |banks| && banks[b].state.RowActive? && banks[b].countdown > 0 ==>
      banks[b].nextRead > clock && banks[b].nextWrite > clock
  }

  lemma SendKeepsAttended(cfg: Config, banks: seq<BankState>, q: QueueState, b: nat) returns (k: nat)
    requires cfg.Valid() && Disciplined(cfg, banks, q) && Attended(cfg, banks, q) && ClosingBanksWait(banks, q.clock)
    requires cfg.rowPolicy.ClosePage? && Choose(cfg, banks, q).Send? && b < cfg.banks
    requires
      var c := Choose(cfg, banks, q);
      Live(TableAfter(cfg, Chosen(cfg, q, c), banks, q.clock)[b])
    ensures
      var c := Choose(cfg, banks, q);
      var q' := Taken(cfg, q, c);
      QueueIndex(cfg, b) < |q'.queues| && Waiter(cfg, q'.queues[QueueIndex(cfg, b)], b, k)
  {
    hide Choose, Waiter, Genuine;
    var c := Choose(cfg, banks, q);
    OwnQueueFromFront(cfg, banks, q);
    var n, i := c.queue, c.index;
    var s := q.queues[n];
    var p := s[i];
    SentKinds(cfg, banks, q);
    OwnIndex(cfg, banks, q, n, i);
    if b == p.bank {
      ActivateLeavesWaiter(cfg, s, i);
      k := i;
    } else {
      assert Live(banks[b]);
      k :| Waiter(cfg, q.queues[QueueIndex(cfg, b)], b, k);
      if QueueIndex(cfg, b) == n {
        WaiterIsOther(cfg, s, b, k, i);
        RemovalKeepsWaiter(cfg, s, i, b, k);
        k := if k < i then k else k - 1;
      }
    }
  }

  /** In close page pop takes an ACTIVATE or a waiting column command, and a column command closes its bank. */
  lemma SentKinds(cfg: Config, banks: seq<BankState>, q: QueueState)
    requires cfg.Valid() && Disciplined(cfg, banks, q) && cfg.rowPolicy.ClosePage? && Choose(cfg, banks, q).Send?
    ensures
      var c := Choose(cfg, banks, q);
      var s := q.queues[c.queue];
      var p := s[c.index];
      && (p.kind.ACTIVATE? || Loose(s, c.index)) && Removed(cfg, s, c) == RemoveAt(s, c.index)
      && (!p.kind.ACTIVATE? ==> !Live(TableAfter(cfg, p, banks, q.clock)[p.bank]))
  {
    hide Choose;
    PickedInOrder(cfg, banks, q);
    var c := Choose(cfg, banks, q);
    assert Genuine(cfg, q.queues[c.queue][c.index]);
  }

  lemma OwnIndex(cfg: Config, banks: seq<BankState>, q: QueueState, n: nat, i: nat)
    requires Disciplined(cfg, banks, q) && n < |q.queues| && i < |q.queues[n]|
    ensures n == QueueIndex(cfg, q.queues[n][i].bank)
  {
    assert OwnBank(cfg, q.queues[n], n);
  }

  lemma WaiterIsOther(cfg: Config, s: seq<Packet>, b: nat, k: nat, i: nat)
    requires Waiter(cfg, s, b, k) && i < |s| && s[i].bank != b
    ensures i != k
  {
  }

  lemma ChoiceAttended(cfg: Config, banks: seq<BankState>, q: QueueState)
    requires cfg.Valid() && Disciplined(cfg, banks, q) && Attended(cfg, banks, q) && ClosingBanksWait(banks, q.clock)
    requires !Choose(cfg, banks, q).Nothing?
    requires
      var c := Choose(cfg, banks, q);
      Shaped(cfg, TableAfter(cfg, Chosen(cfg, q, c), banks, q.clock), Taken(cfg, q, c))
    ensures
      var c := Choose(cfg, banks, q);
      Attended(cfg, TableAfter(cfg, Chosen(cfg, q, c), banks, q.clock), Taken(cfg, q, c))
  {
    hide Choose, Waiter, Orderly, Served;
    var c := Choose(cfg, banks, q);
    var banks', q' := TableAfter(cfg, Chosen(cfg, q, c), banks, q.clock), Taken(cfg, q, c);
    if cfg.rowPolicy.ClosePage? && c.Send? {
      forall b | 0 <= b < cfg.banks && Live(banks'[b])
        ensures exists k: nat :: Waiter(cfg, q'.queues[QueueIndex(cfg, b)], b, k)
      {
        var k := SendKeepsAttended(cfg, banks, q, b);
      }
    }
  }

  // ---- The scheduler's part of the state ----

  /** Nothing holds the scheduler up from cycle due on; the banks were last aged in cycle base, the window in wBase. */
  ghost predicate Lively(cfg: Config, banks: seq<BankState>, q: QueueState, base: int, wBase: int, due: int) {
    && Shaped(cfg, banks, q) && Attended(cfg, banks, q) && AccessesBounded(cfg, q)
    && AllDue(cfg, banks, base, due) && WindowDue(q.window, wBase, due)
  }

  lemma WindowAges(w: seq<nat>, base: int, due: int)
    requires WindowDue(w, base, due) && forall i :: 0 <= i < |w| ==> w[i] >= 1
    ensures WindowDue(AgeWindow(w), base + 1, due)
  {
    forall i | 0 <= i < |AgeWindow(w)|
      ensures base + 1 + AgeWindow(w)[i] <= due
    {
      var aged := DecAll(w);
      var k := if |aged| > 0 && aged[0] == 0 then i + 1 else i;
      assert AgeWindow(w)[i] == w[k] - 1;
    }
  }

  lemma ChoiceAccesses(cfg: Config, banks: seq<BankState>, q: QueueState)
    requires Disciplined(cfg, banks, q) && AccessesBounded(cfg, q) && !Choose(cfg, banks, q).Nothing?
    ensures AccessesBounded(cfg, Taken(cfg, q, Choose(cfg, banks, q)))
  {
    hide Choose;
    var c := Choose(cfg, banks, q);
    if c.Send? {
      PickedInOrder(cfg, banks, q);
      assert Genuine(cfg, q.queues[c.queue][c.index]);
    }
  }

  lemma TableDue(cfg: Config, p: Packet, banks: seq<BankState>, now: int, due: int)
    requires cfg.Valid() && AllDue(cfg, banks, now, due)
    requires p.kind.ACTIVATE? && p.bank < |banks| ==> banks[p.bank].countdown == 0
    ensures AllDue(cfg, TableAfter(cfg, p, banks, now), now, Max(due, now + Delay(cfg, p.kind)))
  {
    hide BankAfter, BankDue, Delay;
    forall b | 0 <= b < |banks|
      ensures BankDue(cfg, TableAfter(cfg, p, banks, now)[b], now, Max(due, now + Delay(cfg, p.kind)))
    {
      CommandDue(cfg, p.kind, banks[b], b == p.bank, p.row, now, due);
    }
  }

  lemma LaterDue(cfg: Config, banks: seq<BankState>, w: seq<nat>, base: int, wBase: int, due: int, later: int)
    requires AllDue(cfg, banks, base, due) && WindowDue(w, wBase, due) && due <= later
    ensures AllDue(cfg, banks, base, later) && WindowDue(w, wBase, later)
  {
    forall b | 0 <= b < |banks|
      ensures BankDue(cfg, banks[b], base, later)
    {
      assert BankDue(cfg, banks[b], base, due);
    }
  }

  /** One pop: it puts the scheduler off only by sending a command. */
  lemma PopLively(cfg: Config, banks: seq<BankState>, q: QueueState, due: int)
    requires cfg.Valid() && Disciplined(cfg, banks, q) && Lively(cfg, banks, q, q.clock, q.clock - 1, due)
    requires ClosingBanksWait(banks, q.clock) && (forall b :: 0 <= b < cfg.banks ==> PopDiscipline.AtRest(banks[b], q.clock))
    requires forall i :: 0 <= i < |q.window| ==> q.window[i] >= 1
    ensures
      var (q', sent) := Pop(cfg, banks, q);
      if sent.None? then Lively(cfg, banks, q', q.clock, q.clock, due)
      else Lively(cfg, TableAfter(cfg, sent.value, banks, q.clock), q', q.clock, q.clock, SentDue(cfg, sent, due, q.clock))
  {
    hide Choose, Disciplined, AllDue, Attended, TableAfter, Taken, Finished, Delay;
    PopDiscipline.PopKeepsDiscipline(cfg, banks, q);
    WindowAges(q.window, q.clock - 1, due);
    var aged := q.(window := AgeWindow(q.window));
    PopDiscipline.SameQueues(cfg, banks, q, aged);
    SameAttended(cfg, banks, q, aged);
    var c := Choose(cfg, banks, aged);
    if !c.Nothing? {
      SentLively(cfg, banks, aged, due);
      var p := Chosen(cfg, aged, c);
      var banks' := TableAfter(cfg, p, banks, q.clock);
      DisciplinedShape(cfg, banks', Finished(cfg, Taken(cfg, aged, c), p.kind));
      FinishedLively(cfg, banks', Taken(cfg, aged, c), p.kind, q.clock, Max(due, q.clock + Delay(cfg, p.kind)));
    }
  }

  lemma FinishedLively(cfg: Config, banks: seq<BankState>, q: QueueState, kind: PacketKind, now: int, due: int)
    requires Lively(cfg, banks, q, now, now, due) && Shaped(cfg, banks, Finished(cfg, q, kind))
    requires kind.ACTIVATE? ==> now + cfg.tFAW <= due
    ensures Lively(cfg, banks, Finished(cfg, q, kind), now, now, due)
  {
    hide AllDue, Attended;
    SameAttended(cfg, banks, q, Finished(cfg, q, kind));
  }

  lemma DisciplinedShape(cfg: Config, banks: seq<BankState>, q: QueueState)
    requires Disciplined(cfg, banks, q)
    ensures Shaped(cfg, banks, q)
  {
  }

  lemma SameAttended(cfg: Config, banks: seq<BankState>, q: QueueState, q': QueueState)
    requires Shaped(cfg, banks, q) && Shaped(cfg, banks, q') && q'.queues == q.queues && Attended(cfg, banks, q)
    ensures Attended(cfg, banks, q')
  {
  }

  lemma SentLively(cfg: Config, banks: seq<BankState>, q: QueueState, due: int)
    requires cfg.Valid() && Disciplined(cfg, banks, q) && Lively(cfg, banks, q, q.clock, q.clock, due)
    requires ClosingBanksWait(banks, q.clock) && (forall b :: 0 <= b < cfg.banks ==> PopDiscipline.AtRest(banks[b], q.clock))
    requires !Choose(cfg, banks, q).Nothing?
    ensures
      var c := Choose(cfg, banks, q);
      var p := Chosen(cfg, q, c);
      var banks', q', later := TableAfter(cfg, p, banks, q.clock), Taken(cfg, q, c), Max(due, q.clock + Delay(cfg, p.kind));
      && Shaped(cfg, banks', q') && Attended(cfg, banks', q') && AccessesBounded(cfg, q')
      && AllDue(cfg, banks', q.clock, later) && WindowDue(q'.window, q.clock, later)
      && (p.kind.ACTIVATE? ==> cfg.tFAW <= Delay(cfg, p.kind))
  {
    hide Choose, Attended;
    var c := Choose(cfg, banks, q);
    var p := Chosen(cfg, q, c);
    PopDiscipline.ChoiceKeeps(cfg, banks, q, c);
    ChoiceAttended(cfg, banks, q);
    ChoiceAccesses(cfg, banks, q);
    assert p.kind.ACTIVATE? ==> banks[p.bank].countdown == 0 by {
      assert PopDiscipline.AtRest(banks[p.bank], q.clock);
      ChosenIssuable(cfg, banks, q);
    }
    TableDue(cfg, p, banks, q.clock, due);
  }

  lemma ChosenIssuable(cfg: Config, banks: seq<BankState>, q: QueueState)
    requires Shaped(cfg, banks, q) && !Choose(cfg, banks, q).Nothing?
    ensures
      var p := Chosen(cfg, q, Choose(cfg, banks, q));
      p.kind.ACTIVATE? ==> p.bank < cfg.banks && (banks[p.bank].state.Idle? || banks[p.bank].state.Refreshing?) && q.clock >= banks[p.bank].nextActivate
  {
    hide Choose;
  }
}
