/** How often an open row is accessed before it is closed, over whole runs in open page. */
module RunAccesses {
  import opened DramTypes
  import opened Wrappers
  import opened MemoryController
  import opened MemorySystem
  import opened TransactionFlow
  import opened TableRefinement
  import opened SystemSafety
  import opened CommandQueue
  import opened QueueDiscipline
  import opened PopDiscipline
  import opened Runs
  import opened RunProgress
  import Progress
  import Liveness
  import Settled

  /** The column commands for bank b since its row was opened; none after it has been closed. */
  function Columns(trace: seq<Option<Packet>>, b: nat): nat {
    if trace == [] then 0
    else
      var front, last := trace[..|trace| - 1], trace[|trace| - 1];
      if last.None? || last.value.bank != b then Columns(front, b)
      else if last.value.kind.ACTIVATE? || last.value.kind.PRECHARGE? then 0
      else if last.value.kind.IsColumn() then Columns(front, b) + 1
      else Columns(front, b)
  }

  lemma ColumnsAfter(trace: seq<Option<Packet>>, last: Option<Packet>, b: nat)
    ensures Columns(trace + [last], b) ==
      if last.None? || last.value.bank != b then Columns(trace, b)
      else if last.value.kind.ACTIVATE? || last.value.kind.PRECHARGE? then 0
      else if last.value.kind.IsColumn() then Columns(trace, b) + 1
      else Columns(trace, b)
  {
    assert (trace + [last])[..|trace|] == trace;
  }

  predicate HasLoose(s: seq<Packet>, b: nat) {
    !NoLooseFor(s, b)
  }

  /** The counter leaves out the column command of the ACTIVATE itself, which waits in the queue until it is sent. */
  predicate Counts(cfg: Config, banks: seq<BankState>, q: QueueState, trace: seq<Option<Packet>>, b: nat) {
    && b < |banks| && b < |q.accesses| && QueueIndex(cfg, b) < |q.queues|
    && q.accesses[b] == Max(Columns(trace, b) - 1, 0)
    && (banks[b].state.RowActive? && Columns(trace, b) == 0 <==> HasLoose(q.queues[QueueIndex(cfg, b)], b))
  }

  // ---- Queues ----

  lemma LooseAfterActivate(cfg: Config, s: seq<Packet>, i: nat, b: nat)
    requires Orderly(cfg, s) && i < |s| && s[i].kind.ACTIVATE? && FirstOfRow(s, i)
    ensures HasLoose(RemoveAt(s, i), b) <==> b == s[i].bank || HasLoose(s, b)
  {
    var t := RemoveAt(s, i);
    RemoveActivate(cfg, s, i);
    if i > 0 {
      PrecedesActivate(s, i);
    }
    PartnerSharesRow(cfg, s, i);
    assert Loose(t, i);
    if HasLoose(s, b) {
      var k :| 0 <= k < |s| && Loose(s, k) && s[k].bank == b;
      assert k != i && k != i + 1;
      assert Loose(t, if k < i then k else k - 1);
    }
  }

  lemma LooseAfterColumn(cfg: Config, s: seq<Packet>, i: nat, b: nat)
    requires Orderly(cfg, s) && i < |s| && Loose(s, i) && s[i].bank != b
    ensures HasLoose(RemoveAt(s, i), b) <==> HasLoose(s, b)
  {
    var t := RemoveAt(s, i);
    RemoveLoose(cfg, s, i);
    if HasLoose(s, b) {
      var k :| 0 <= k < |s| && Loose(s, k) && s[k].bank == b;
      assert Loose(t, if k < i then k else k - 1);
    }
  }

  lemma LooseAfterPair(cfg: Config, s: seq<Packet>, i: nat, b: nat)
    requires Orderly(cfg, s) && 0 < i < |s| && s[i - 1].kind.ACTIVATE?
    ensures HasLoose(RemovePairAt(s, i), b) <==> HasLoose(s, b)
  {
    var t := RemovePairAt(s, i);
    RemovePair(cfg, s, i);
    if i > 1 {
      PrecedesActivate(s, i - 1);
    }
    assert s[i].kind.IsColumn() by { assert s[(i - 1) + 1].kind.IsColumn(); }
    if HasLoose(s, b) {
      var k :| 0 <= k < |s| && Loose(s, k) && s[k].bank == b;
      assert k != i && k != i - 1;
      assert Loose(t, if k < i - 1 then k else k - 2);
    }
  }

  lemma LooseAfterSplit(cfg: Config, s: seq<Packet>, a: Packet, c: Packet, b: nat)
    requires Orderly(cfg, s) && a.kind.ACTIVATE? && c.kind.IsColumn()
    ensures HasLoose(s + [a] + [c], b) <==> HasLoose(s, b)
  {
    var t := s + [a] + [c];
    assert !Loose(t, |s|) && !Loose(t, |s| + 1);
    forall k | 0 <= k < |s|
      ensures Loose(t, k) <==> Loose(s, k)
    {
    }
    if HasLoose(s, b) {
      var k :| 0 <= k < |s| && Loose(s, k) && s[k].bank == b;
      assert Loose(t, k) && t[k].bank == b;
    }
  }

  // ---- One pop ----

  lemma ActivateCounts(cfg: Config, banks: seq<BankState>, q: QueueState, c: Choice, trace: seq<Option<Packet>>, b: nat)
    requires cfg.Valid() && cfg.rowPolicy.OpenPage? && Disciplined(cfg, banks, q) && c == Choose(cfg, banks, q) && c.Send?
    requires Chosen(cfg, q, c).kind.ACTIVATE? && AtRest(banks[Chosen(cfg, q, c).bank], q.clock) && b < cfg.banks
    requires Counts(cfg, banks, q, trace, b)
    ensures
      var p := Chosen(cfg, q, c);
      Counts(cfg, MemoryController.TableAfter(cfg, p, banks, q.clock), Taken(cfg, q, c), trace + [Some(p)], b)
  {
    hide Choose, Columns, HasLoose, Orderly;
    PickedInOrder(cfg, banks, q);
    var n, i := c.queue, c.index;
    var s := q.queues[n];
    ColumnsAfter(trace, Some(s[i]), b);
    LooseAfterActivate(cfg, s, i, b);
    assert OwnBank(cfg, s, n);
  }

  lemma ColumnCounts(cfg: Config, banks: seq<BankState>, q: QueueState, c: Choice, trace: seq<Option<Packet>>, b: nat)
    requires cfg.Valid() && cfg.rowPolicy.OpenPage? && Disciplined(cfg, banks, q) && c == Choose(cfg, banks, q) && c.Send?
    requires Chosen(cfg, q, c).kind.IsColumn() && b < cfg.banks && Counts(cfg, banks, q, trace, b)
    ensures
      var p := Chosen(cfg, q, c);
      Counts(cfg, MemoryController.TableAfter(cfg, p, banks, q.clock), Taken(cfg, q, c), trace + [Some(p)], b)
  {
    hide Choose, Columns, HasLoose, Orderly;
    PickedInOrder(cfg, banks, q);
    var n, i := c.queue, c.index;
    var s := q.queues[n];
    ColumnsAfter(trace, Some(s[i]), b);
    assert OwnBank(cfg, s, n);
    if b != s[i].bank {
      if DropsActivate(cfg, s, c) {
        LooseAfterPair(cfg, s, i, b);
      } else {
        LooseAfterColumn(cfg, s, i, b);
      }
    } else {
      OwnColumnCounts(cfg, banks, q, c);
    }
  }

  /** The first column command of an open row is the one that waits, and every other takes its ACTIVATE with it. */
  lemma OwnColumnCounts(cfg: Config, banks: seq<BankState>, q: QueueState, c: Choice)
    requires cfg.Valid() && cfg.rowPolicy.OpenPage? && Disciplined(cfg, banks, q) && c == Choose(cfg, banks, q) && c.Send?
    requires Chosen(cfg, q, c).kind.IsColumn()
    ensures
      var s := q.queues[c.queue];
      && (HasLoose(s, s[c.index].bank) <==> !DropsActivate(cfg, s, c)) && !HasLoose(Removed(cfg, s, c), s[c.index].bank)
  {
    hide Choose, Genuine;
    PickedInOrder(cfg, banks, q);
    var n, i := c.queue, c.index;
    var s := q.queues[n];
    var b := s[i].bank;
    forall k | 0 <= k < |s| && Loose(s, k) && s[k].bank == b
      ensures k == i
    {
      OneLoosePerBank(cfg, banks, q, n, i, k);
    }
    if DropsActivate(cfg, s, c) {
      assert !Loose(s, i);
      LooseAfterPair(cfg, s, i, b);
    } else {
      RemoveLoose(cfg, s, i);
    }
  }

  lemma CloseCounts(cfg: Config, banks: seq<BankState>, q: QueueState, c: Choice, trace: seq<Option<Packet>>, b: nat)
    requires cfg.Valid() && cfg.rowPolicy.OpenPage? && Disciplined(cfg, banks, q) && c == Choose(cfg, banks, q)
    requires (c.CloseRow? || c.SendRefresh?) && b < cfg.banks && Counts(cfg, banks, q, trace, b)
    ensures
      var p := Chosen(cfg, q, c);
      Counts(cfg, MemoryController.TableAfter(cfg, p, banks, q.clock), Taken(cfg, q, c), trace + [Some(p)], b)
  {
    hide Choose, Columns;
    ColumnsAfter(trace, Some(Chosen(cfg, q, c)), b);
    if c.CloseRow? {
      ClosedRowHasNoWaiter(cfg, banks, q, QueueIndex(cfg, b));
    } else {
      assert !Blocks(banks[b], q.clock);
    }
  }

  lemma PopCounts(cfg: Config, banks: seq<BankState>, q: QueueState, trace: seq<Option<Packet>>, b: nat)
    requires cfg.Valid() && cfg.rowPolicy.OpenPage? && Disciplined(cfg, banks, q) && b < cfg.banks && Counts(cfg, banks, q, trace, b)
    requires forall x :: 0 <= x < cfg.banks ==> AtRest(banks[x], q.clock)
    ensures
      var (q', sent) := Pop(cfg, banks, q);
      Counts(cfg, if sent.Some? then MemoryController.TableAfter(cfg, sent.value, banks, q.clock) else banks, q', trace + [sent], b)
  {
    hide Choose, Columns, HasLoose, Orderly, Served;
    var aged := q.(window := AgeWindow(q.window));
    SameQueues(cfg, banks, q, aged);
    var c := Choose(cfg, banks, aged);
    if c.Nothing? {
      ColumnsAfter(trace, None, b);
    } else {
      ChoiceCounts(cfg, banks, aged, c, trace, b);
    }
  }

  lemma ChoiceCounts(cfg: Config, banks: seq<BankState>, q: QueueState, c: Choice, trace: seq<Option<Packet>>, b: nat)
    requires cfg.Valid() && cfg.rowPolicy.OpenPage? && Disciplined(cfg, banks, q) && b < cfg.banks && Counts(cfg, banks, q, trace, b)
    requires c == Choose(cfg, banks, q) && !c.Nothing? && forall x :: 0 <= x < cfg.banks ==> AtRest(banks[x], q.clock)
    ensures
      var p := Chosen(cfg, q, c);
      Counts(cfg, MemoryController.TableAfter(cfg, p, banks, q.clock), Taken(cfg, q, c), trace + [Some(p)], b)
  {
    hide Choose, Counts;
    if c.Send? {
      assert Genuine(cfg, q.queues[c.queue][c.index]);
      if Chosen(cfg, q, c).kind.ACTIVATE? {
        ActivateCounts(cfg, banks, q, c, trace, b);
      } else {
        ColumnCounts(cfg, banks, q, c, trace, b);
      }
    } else {
      CloseCounts(cfg, banks, q, c, trace, b);
    }
  }

  // ---- Runs ----

  predicate AllCount(cfg: Config, m: ControllerState, trace: seq<Option<Packet>>) {
    cfg.rowPolicy.OpenPage? ==> forall b :: 0 <= b < cfg.banks ==> Counts(cfg, m.banks, m.queue, trace, b)
  }

  lemma AgeCounts(cfg: Config, m: ControllerState, r: RankState, now: int, trace: seq<Option<Packet>>, q: QueueState)
    requires cfg.Valid() && Linked(cfg, m, r, now, now + 1) && AllCount(cfg, m, trace)
    requires q.queues == m.queue.queues && q.accesses == m.queue.accesses
    ensures AllCount(cfg, m.(banks := AgeBanks(cfg, m.banks), queue := q), trace)
  {
    hide Columns, HasLoose, AgeBank;
    var aged := AgeBanks(cfg, m.banks);
    if cfg.rowPolicy.OpenPage? {
      forall b | 0 <= b < cfg.banks
        ensures Counts(cfg, aged, q, trace, b)
      {
        assert Counts(cfg, m.banks, m.queue, trace, b);
        assert Rel(cfg, m.banks[b], Expected(cfg, m, r, b, now + 1), now);
        OpenKept(cfg, m.banks[b], Expected(cfg, m, r, b, now + 1), now);
      }
    }
  }

  lemma OpenKept(cfg: Config, c: BankState, r: BankState, now: int)
    requires cfg.rowPolicy.OpenPage? && Rel(cfg, c, r, now)
    ensures AgeBank(cfg, c).state.RowActive? <==> c.state.RowActive?
  {
  }

  lemma IssueCounts(cfg: Config, m: ControllerState, m': ControllerState, r: RankState, now: int, trace: seq<Option<Packet>>)
    requires Sound(cfg, m, r, now, now + 1) && m.cmdBus.None? && m.clock == now && m.queue.clock == now
    requires CommandQueue.Shaped(cfg, m.banks, m.queue) && Issue(cfg, m) == Ok(m') && AllCount(cfg, m, trace)
    ensures AllCount(cfg, m', trace + [m'.cmdBus])
  {
    hide Issue, Pop, Counts, Disciplined;
    IssueEffect(cfg, m, m');
    AllAtRest(cfg, m, r, now);
    if cfg.rowPolicy.OpenPage? {
      forall b | 0 <= b < cfg.banks
        ensures Counts(cfg, m'.banks, m'.queue, trace + [m'.cmdBus], b)
      {
        PopCounts(cfg, m.banks, m.queue, trace, b);
      }
    }
  }

  lemma SplitCounts(cfg: Config, m: ControllerState, m': ControllerState, trace: seq<Option<Packet>>)
    requires cfg.Valid() && Disciplined(cfg, m.banks, m.queue) && Split(cfg, m) == Ok(m') && AllCount(cfg, m, trace)
    ensures AllCount(cfg, m', trace)
  {
    hide Columns, HasLoose, Locate, Orderly, Served;
    var i, a, c := SplitOldest(cfg, m, m');
    if cfg.rowPolicy.OpenPage? && i < |m.transactions| {
      forall b | 0 <= b < cfg.banks
        ensures Counts(cfg, m'.banks, m'.queue, trace, b)
      {
        assert Counts(cfg, m.banks, m.queue, trace, b);
        var s := m.queue.queues[QueueIndex(cfg, b)];
        LooseAfterSplit(cfg, s, a, c, b);
        assert s + [a] + [c] == s + [a, c];
      }
    }
  }

  /** Sleeping and waking are for banks without an open row. */
  lemma PowerCounts(cfg: Config, m: ControllerState, r: RankState, trace: seq<Option<Packet>>)
    requires |m.banks| > 0 && ManagePower(cfg, m, r).Ok? && AllCount(cfg, m, trace)
    requires m.powerDown ==> forall i :: 0 <= i < |m.banks| ==> m.banks[i].state.PowerDown?
    ensures AllCount(cfg, ManagePower(cfg, m, r).value.0, trace)
  {
    hide Columns, HasLoose;
    var m' := ManagePower(cfg, m, r).value.0;
    if cfg.rowPolicy.OpenPage? {
      forall b | 0 <= b < cfg.banks
        ensures Counts(cfg, m'.banks, m'.queue, trace, b)
      {
        assert Counts(cfg, m.banks, m.queue, trace, b);
      }
    }
  }

  lemma UpdateCounts(cfg: Config, m: ControllerState, r: RankState, now: int, trace: seq<Option<Packet>>)
    requires RankAhead(cfg, m, r, now) && m.clock == now + 1 && r.clock == now + 1 && m.queue.clock == now + 1 && AllCount(cfg, m, trace)
    ensures MemoryController.Update(cfg, m, r).Ok?
    ensures
      var (m', _, out) := MemoryController.Update(cfg, m, r).value;
      AllCount(cfg, m', trace + [out.issued])
  {
    hide MemoryController.Update, ServeBuses, Issue, Split, ReturnRead, AgeBanks, Sound, ManagePower, Pop, Counts, Disciplined;
    var m4, m5, r5, m6, m7, m8, r8 := UpdatePhases(cfg, m, r, now);
    Progress.SoundShape(cfg, m5, r5, now + 1);
    AgeCounts(cfg, m, r, now, trace, m5.queue);
    SameCounts(cfg, m.(banks := AgeBanks(cfg, m.banks), queue := m5.queue), m5, trace);
    IssueCounts(cfg, m5, m6, r5, now + 1, trace);
    IssueSound(cfg, m5, r5, now + 1);
    StillDisciplined(cfg, m6, r5, now + 1);
    SplitCounts(cfg, m6, m7, trace + [m6.cmdBus]);
    PowerCounts(cfg, m7, r5, trace + [m6.cmdBus]);
    ReturnEffect(m8);
    SameCounts(cfg, m8, MemoryController.Update(cfg, m, r).value.0, trace + [m6.cmdBus]);
  }

  lemma SameCounts(cfg: Config, m: ControllerState, m': ControllerState, trace: seq<Option<Packet>>)
    requires AllCount(cfg, m, trace) && m'.banks == m.banks && m'.queue.queues == m.queue.queues && m'.queue.accesses == m.queue.accesses
    ensures AllCount(cfg, m', trace)
  {
    hide Columns, HasLoose;
    if cfg.rowPolicy.OpenPage? {
      forall b | 0 <= b < cfg.banks
        ensures Counts(cfg, m'.banks, m'.queue, trace, b)
      {
        assert Counts(cfg, m.banks, m.queue, trace, b);
      }
    }
  }

  lemma StillDisciplined(cfg: Config, m: ControllerState, r: RankState, now: int)
    requires Sound(cfg, m, r, now, now + 1)
    ensures cfg.Valid() && Disciplined(cfg, m.banks, m.queue)
  {
  }

  lemma CycleCounts(cfg: Config, s: System, trace: seq<Option<Packet>>)
    requires Steady(cfg, s) && AllCount(cfg, s.controller, trace)
    ensures MemorySystem.Shaped(cfg, s) && Cycle(cfg, s).Ok?
    ensures
      var (s', out) := Cycle(cfg, s).value;
      AllCount(cfg, s'.controller, trace + [out.issued])
  {
    hide Cycle, MemoryController.Update, AllCount;
    SteadyShaped(cfg, s);
    BeginAhead(cfg, s);
    var (m, r) := Begin(cfg, s).value;
    SameCounts(cfg, s.controller, m, trace);
    UpdateCounts(cfg, m, r, s.controller.clock - 1, trace);
    CycleParts(cfg, s);
    var (m', r', out) := MemoryController.Update(cfg, m, r).value;
    SameCounts(cfg, m', Cycle(cfg, s).value.0.controller, trace + [out.issued]);
  }

  lemma ResetCounts(cfg: Config)
    requires cfg.Valid()
    ensures AllCount(cfg, Reset(cfg).controller, [])
  {
  }

  lemma {:induction false} RunCounts(cfg: Config, events: seq<Event>)
    requires cfg.Valid()
    ensures Run(cfg, events).Ok? && AllCount(cfg, Run(cfg, events).value.system.controller, Run(cfg, events).value.trace)
  {
    hide Run, Steady, Cycle, MemorySystem.Shaped, AllCount;
    NoFault(cfg, events);
    if events == [] {
      RunOfNothing(cfg);
      ResetCounts(cfg);
    } else {
      var before := events[..|events| - 1];
      RunCounts(cfg, before);
      NoFault(cfg, before);
      var t := Run(cfg, before).value;
      match events[|events| - 1]
      case Arrive(tr) =>
        RunArrives(cfg, events, t, tr);
        SameCounts(cfg, t.system.controller, Run(cfg, events).value.system.controller, t.trace);
      case Tick =>
        CycleCounts(cfg, t.system, t.trace);
        RunTicks(cfg, events, t, Cycle(cfg, t.system).value.0, Cycle(cfg, t.system).value.1);
    }
  }

  /**
   * In every run in open page the counter of a bank is the number of column commands since its row was opened, its own first one
   * left out, and a row is closed after one more of them than the limit at the latest.
   */
  lemma RunShare(cfg: Config, events: seq<Event>, b: nat)
    requires cfg.Valid() && cfg.rowPolicy.OpenPage? && b < cfg.banks
    ensures Run(cfg, events).Ok?
    ensures
      var t := Run(cfg, events).value;
      && b < |t.system.controller.queue.accesses|
      && t.system.controller.queue.accesses[b] == (if Columns(t.trace, b) > 0 then Columns(t.trace, b) - 1 else 0)
      && Columns(t.trace, b) <= cfg.totalRowAccesses + 1
  {
    hide Run, Columns, HasLoose, Liveness.AllDue, Liveness.WindowDue, Settled.Attended;
    RunCounts(cfg, events);
    RunLively(cfg, events);
    var t := Run(cfg, events).value;
    assert Counts(cfg, t.system.controller.banks, t.system.controller.queue, t.trace, b);
  }
}
