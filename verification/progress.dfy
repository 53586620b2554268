/** Work gets done: from every reachable state the scheduler serves all requests in a bounded number of cycles. */
module Progress {
  import opened DramTypes
  import opened Wrappers
  import opened AddressMapping
  import opened MemoryController
  import opened TransactionFlow
  import opened CommandQueue
  import opened QueueDiscipline
  import opened Settled
  import opened Liveness
  import opened CommandSpacing
  import opened TableRefinement
  import ActivationWindow
  import PopDiscipline
  import RoundRobin
  import RefreshSchedule
  import SystemSafety

  // ---- One update ----

  /** Some queue holds a packet. */
  predicate QueueBusy(q: QueueState) {
    exists n :: 0 <= n < |q.queues| && q.queues[n] != []
  }

  ghost predicate ControllerLively(cfg: Config, m: ControllerState, due: int) {
    (m.powerDown ==> cfg.useLowPower) && Lively(cfg, m.banks, m.queue, m.clock - 1, m.clock - 1, due)
  }

  lemma AgedLively(cfg: Config, m: ControllerState, r: RankState, now: int, due: int)
    requires cfg.Valid() && Linked(cfg, m, r, now, now + 1) && Lively(cfg, m.banks, m.queue, now, now, due)
    ensures Lively(cfg, AgeBanks(cfg, m.banks), m.queue, now + 1, now, due)
  {
    hide AgeBank, BankDue, Attended, Live;
    var aged := AgeBanks(cfg, m.banks);
    forall b | 0 <= b < |m.banks|
      ensures BankDue(cfg, aged[b], now + 1, due)
      ensures Live(aged[b]) ==> Live(m.banks[b])
    {
      BankAges(cfg, m.banks[b], Expected(cfg, m, r, b, now + 1), now, due);
    }
    AgedAttended(cfg, m.banks, aged, m.queue);
  }

  lemma ClosingWait(cfg: Config, m: ControllerState, r: RankState, now: int)
    requires Linked(cfg, m, r, now, now + 1)
    ensures ClosingBanksWait(m.banks, now)
  {
    forall b | 0 <= b < |m.banks| && m.banks[b].state.RowActive? && m.banks[b].countdown > 0
      ensures m.banks[b].nextRead > now && m.banks[b].nextWrite > now
    {
      assert Rel(cfg, m.banks[b], Expected(cfg, m, r, b, now + 1), now);
    }
  }

  /** When its time has come and there is work, the controller sends a command. */
  lemma IssueSends(cfg: Config, m: ControllerState, r: RankState, now: int, due: int)
    requires SystemSafety.Sound(cfg, m, r, now, now + 1) && m.cmdBus.None? && m.queue.clock == now && !m.powerDown
    requires Lively(cfg, m.banks, m.queue, now, now - 1, due) && due <= now
    requires ActivationWindow.WindowOk(cfg, m.queue.window) && (m.queue.refreshWaiting || QueueBusy(m.queue))
    ensures Pop(cfg, m.banks, m.queue).1.Some?
  {
    hide Choose, BankSettled, BankDue, Attended, Disciplined;
    var aged := m.queue.(window := AgeWindow(m.queue.window));
    WindowAges(m.queue.window, now - 1, due);
    WindowEmpties(cfg, m.queue.window, now, due);
    forall b | 0 <= b < |m.banks|
      ensures BankSettled(m.banks[b], now)
    {
      assert Rel(cfg, m.banks[b], Expected(cfg, m, r, b, now + 1), now);
      DueIsSettled(cfg, m.banks[b], Expected(cfg, m, r, b, now + 1), now, due);
    }
    PopDiscipline.SameQueues(cfg, m.banks, m.queue, aged);
    SameAttended(cfg, m.banks, m.queue, aged);
    SettledSends(cfg, m.banks, aged);
  }

  lemma WindowEmpties(cfg: Config, w: seq<nat>, now: int, due: int)
    requires ActivationWindow.WindowOk(cfg, w) && WindowDue(AgeWindow(w), now, due) && due <= now
    ensures AgeWindow(w) == []
  {
    var aged := AgeWindow(w);
    forall i | 0 <= i < |aged|
      ensures aged[i] >= 1
    {
      StillPositive(cfg, w, i);
    }
    NoneLeft(aged, now, due);
  }

  lemma StillPositive(cfg: Config, w: seq<nat>, i: nat)
    requires ActivationWindow.WindowOk(cfg, w) && i < |AgeWindow(w)|
    ensures AgeWindow(w)[i] >= 1
  {
    var aged := DecAll(w);
    var k := if aged[0] == 0 then i + 1 else i;
    assert AgeWindow(w)[i] == aged[k] && (k > 0 ==> w[0] < w[k]);
  }

  lemma NoneLeft(w: seq<nat>, now: int, due: int)
    ensures WindowDue(w, now, due) && due <= now && (forall i :: 0 <= i < |w| ==> w[i] >= 1) ==> w == []
  {
    if w != [] {
      assert WindowDue(w, now, due) ==> now + w[0] <= due;
    }
  }

  /** The flags, the pointers and the clock do not matter, and new packets go to the end of a queue. */
  lemma SameLively(cfg: Config, banks: seq<BankState>, q: QueueState, q': QueueState, base: int, wBase: int, due: int)
    requires Lively(cfg, banks, q, base, wBase, due) && CommandQueue.Shaped(cfg, banks, q')
    requires q'.accesses == q.accesses && q'.window == q.window && |q'.queues| == |q.queues|
    requires forall n :: 0 <= n < |q.queues| ==> q.queues[n] <= q'.queues[n]
    ensures Lively(cfg, banks, q', base, wBase, due)
  {
    hide Waiter, AllDue, WindowDue;
    if cfg.rowPolicy.ClosePage? {
      forall b | 0 <= b < cfg.banks && Live(banks[b])
        ensures exists k: nat :: Waiter(cfg, q'.queues[QueueIndex(cfg, b)], b, k)
      {
        var n := QueueIndex(cfg, b);
        var k: nat :| Waiter(cfg, q.queues[n], b, k);
        assert q'.queues[n] == q.queues[n] + q'.queues[n][|q.queues[n]|..];
        AppendKeepsWaiter(cfg, q.queues[n], q'.queues[n][|q.queues[n]|..], b, k);
      }
    }
  }

  lemma SplitAppends(cfg: Config, m: ControllerState, m': ControllerState)
    requires Split(cfg, m) == Ok(m')
    ensures m'.queue == m.queue.(queues := m'.queue.queues) && |m'.queue.queues| == |m.queue.queues|
    ensures forall n :: 0 <= n < |m.queue.queues| ==> m.queue.queues[n] <= m'.queue.queues[n]
  {
    hide Locate;
  }

  /** Falling asleep and waking up put the scheduler off no further than the horizon. */
  lemma PowerLively(cfg: Config, m: ControllerState, r: RankState, now: int, due: int)
    requires cfg.Valid() && Lively(cfg, m.banks, m.queue, now, now, due) && |m.banks| > 0 && m.clock == now
    requires ManagePower(cfg, m, r).Ok? && (m.powerDown ==> forall i :: 0 <= i < |m.banks| ==> m.banks[i].state.PowerDown?)
    ensures
      var m' := ManagePower(cfg, m, r).value.0;
      Lively(cfg, m'.banks, m'.queue, now, now, if m'.powerDown == m.powerDown then due else Max(due, now + Horizon(cfg)))
  {
  }

  /** The scheduler's state after an update, and whether it has sent a command. */
  lemma UpdateLively(cfg: Config, m: ControllerState, r: RankState, now: int, due: int)
    requires SystemSafety.RankAhead(cfg, m, r, now) && m.clock == now + 1 && r.clock == now + 1 && m.queue.clock == now + 1
    requires ControllerLively(cfg, m, due) && ActivationWindow.WindowOk(cfg, m.queue.window)
    ensures MemoryController.Update(cfg, m, r).Ok?
    ensures
      var (m', _, out) := MemoryController.Update(cfg, m, r).value;
      var waiting := m.queue.refreshWaiting || RefreshSchedule.Due(m.refresh);
      && (m'.powerDown ==> cfg.useLowPower)
      && Lively(cfg, m'.banks, m'.queue, now + 1, now + 1,
                if m'.powerDown == m.powerDown then SentDue(cfg, out.issued, due, now + 1) else Max(due, now + 1 + Horizon(cfg)))
      && (due <= now + 1 && !m.powerDown && (waiting || QueueBusy(m.queue)) ==> out.issued.Some?)
      && (QueueBusy(m'.queue) && !m.powerDown ==> !m'.powerDown)
      && (QueueBusy(m'.queue) && due <= now + 1 ==> !m'.powerDown)
  {
    hide MemoryController.Update, ServeBuses, Issue, Split, ReturnRead, AgeBanks, SystemSafety.Sound, Pop, Lively, ManagePower,
      QueueBusy;
    var m4, m5, r5, m6, m7, m8, r8 := UpdatePhases(cfg, m, r, now);
    HeadLively(cfg, m, r, m5, r5, m6, now, due);
    IssueEffect(cfg, m5, m6);
    SplitEffect(cfg, m6, m7);
    var (m', r', out) := MemoryController.Update(cfg, m, r).value;
    ReturnEffect(m8);
    SystemSafety.UpdateSound(cfg, m, r, now);
    SoundShape(cfg, m', r', now + 1);
    TailLively(cfg, m6, m7, r5, m', now + 1, SentDue(cfg, out.issued, due, now + 1));
    SamePowerUp(cfg, m, m5, m6, due);
    PowerChoice(cfg, m7, r5);
    BusyIsNotEmpty(m7.queue, m'.queue);
  }

  lemma HeadLively(cfg: Config, m: ControllerState, r: RankState, m5: ControllerState, r5: RankState, m6: ControllerState,
                   now: int, due: int)
    requires SystemSafety.RankAhead(cfg, m, r, now) && m.clock == now + 1
    requires ControllerLively(cfg, m, due) && ActivationWindow.WindowOk(cfg, m.queue.window)
    requires m5.banks == AgeBanks(cfg, m.banks) && m5.queue == m.queue.(refreshWaiting := m5.queue.refreshWaiting)
    requires SystemSafety.Sound(cfg, m5, r5, now + 1, now + 2) && m5.cmdBus.None? && m5.powerDown == m.powerDown
    requires m5.clock == now + 1 && m5.queue.clock == now + 1 && CommandQueue.Shaped(cfg, m5.banks, m5.queue) && Issue(cfg, m5) == Ok(m6)
    ensures Lively(cfg, m6.banks, m6.queue, now + 1, now + 1, SentDue(cfg, m6.cmdBus, due, now + 1))
    ensures due <= now + 1 && !m.powerDown && (m5.queue.refreshWaiting || QueueBusy(m5.queue)) ==> m6.cmdBus.Some?
  {
    hide Issue, AgeBanks, SystemSafety.Sound, Lively, QueueBusy;
    AgedLively(cfg, m, r, now, due);
    SameLively(cfg, m5.banks, m.queue, m5.queue, now + 1, now, due);
    SendLively(cfg, m5, m6, r5, now + 1, due);
  }

  lemma TailLively(cfg: Config, m6: ControllerState, m7: ControllerState, r: RankState, m': ControllerState, now: int, due: int)
    requires cfg.Valid() && Lively(cfg, m6.banks, m6.queue, now, now, due) && Split(cfg, m6) == Ok(m7) && m7.banks == m6.banks
    requires |m7.banks| > 0 && m7.clock == now && ManagePower(cfg, m7, r).Ok?
    requires m7.powerDown ==> forall i :: 0 <= i < |m7.banks| ==> m7.banks[i].state.PowerDown?
    requires var m8 := ManagePower(cfg, m7, r).value.0;
      && m'.banks == m8.banks && m'.powerDown == m8.powerDown && m'.queue == m7.queue.(clock := m'.queue.clock)
    requires CommandQueue.Shaped(cfg, m'.banks, m'.queue)
    ensures Lively(cfg, m'.banks, m'.queue, now, now, if m'.powerDown == m7.powerDown then due else Max(due, now + Horizon(cfg)))
  {
    hide Split, ManagePower, Lively;
    SplitAppends(cfg, m6, m7);
    SystemSafety.PowerEffect(cfg, m7, r);
    var m8 := ManagePower(cfg, m7, r).value.0;
    SameShape(cfg, m'.banks, m'.queue, m7.banks, m7.queue);
    SameLively(cfg, m7.banks, m6.queue, m7.queue, now, now, due);
    PowerLively(cfg, m7, r, now, due);
    SameLively(cfg, m8.banks, m8.queue, m'.queue, now, now, if m'.powerDown == m7.powerDown then due else Max(due, now + Horizon(cfg)));
  }

  lemma BusyIsNotEmpty(q: QueueState, q': QueueState)
    requires q'.queues == q.queues
    ensures QueueBusy(q') <==> !IsEmpty(q)
  {
  }

  /** The controller stays awake while packets are queued, and wakes up for them when it may. */
  lemma PowerChoice(cfg: Config, m: ControllerState, r: RankState)
    requires |m.banks| > 0 && ManagePower(cfg, m, r).Ok?
    ensures
      var m' := ManagePower(cfg, m, r).value.0;
      && (!cfg.useLowPower ==> m'.powerDown == m.powerDown)
      && (!IsEmpty(m.queue) && !m.powerDown ==> !m'.powerDown)
      && (!IsEmpty(m.queue) && cfg.useLowPower && m.clock >= m.banks[0].nextPowerUp ==> !m'.powerDown)
  {
  }

  lemma SamePowerUp(cfg: Config, m: ControllerState, m5: ControllerState, m6: ControllerState, due: int)
    requires |m.banks| > 0 && m5.banks == AgeBanks(cfg, m.banks) && Lively(cfg, m.banks, m.queue, m.clock - 1, m.clock - 1, due)
    requires m6.banks == m5.banks || (m6.cmdBus.Some? && m6.banks == TableAfter(cfg, m6.cmdBus.value, m5.banks, m5.clock))
    ensures |m6.banks| > 0 && m6.banks[0].nextPowerUp <= due
  {
    assert BankDue(cfg, m.banks[0], m.clock - 1, due);
  }

  lemma SoundShape(cfg: Config, m: ControllerState, r: RankState, now: int)
    requires SystemSafety.Sound(cfg, m, r, now, now + 1)
    ensures CommandQueue.Shaped(cfg, m.banks, m.queue)
  {
  }

  lemma SendLively(cfg: Config, m: ControllerState, m': ControllerState, r: RankState, now: int, due: int)
    requires SystemSafety.Sound(cfg, m, r, now, now + 1) && m.cmdBus.None? && m.clock == now && m.queue.clock == now
    requires Lively(cfg, m.banks, m.queue, now, now - 1, due) && ActivationWindow.WindowOk(cfg, m.queue.window)
    requires CommandQueue.Shaped(cfg, m.banks, m.queue) && Issue(cfg, m) == Ok(m')
    ensures Lively(cfg, m'.banks, m'.queue, now, now, SentDue(cfg, m'.cmdBus, due, now))
    ensures due <= now && !m.powerDown && (m.queue.refreshWaiting || QueueBusy(m.queue)) ==> m'.cmdBus.Some?
  {
    hide Issue, Pop, Lively, TableAfter, QueueBusy;
    IssueEffect(cfg, m, m');
    ClosingWait(cfg, m, r, now);
    SystemSafety.AllAtRest(cfg, m, r, now);
    PopLively(cfg, m.banks, m.queue, due);
    if due <= now && !m.powerDown && (m.queue.refreshWaiting || QueueBusy(m.queue)) {
      IssueSends(cfg, m, r, now, due);
    }
  }

  // ---- What is left to do ----

  function Packets(queues: seq<seq<Packet>>): nat {
    if queues == [] then 0 else Packets(queues[..|queues| - 1]) + |queues[|queues| - 1]|
  }

  function OpenBanks(banks: seq<BankState>): nat {
    if banks == [] then 0 else OpenBanks(banks[..|banks| - 1]) + if banks[|banks| - 1].state.RowActive? then 1 else 0
  }

  /** The packets that are still to be sent, those of unsplit and pending transactions included. */
  function Load(m: ControllerState, pending: nat): nat {
    2 * (pending + |m.transactions|) + Packets(m.queue.queues)
  }

  /** Every command but a refresh makes this smaller. */
  function Effort(m: ControllerState, pending: nat): nat {
    2 * Load(m, pending) + OpenBanks(m.banks)
  }

  lemma {:induction false} PacketsAt(queues: seq<seq<Packet>>, n: nat, s: seq<Packet>)
    requires n < |queues|
    ensures Packets(queues[n := s]) == Packets(queues) - |queues[n]| + |s|
  {
    var last := |queues| - 1;
    if n == last {
      assert queues[n := s][..last] == queues[..last];
    } else {
      assert queues[n := s][..last] == queues[..last][n := s];
      PacketsAt(queues[..last], n, s);
    }
  }

  lemma {:induction false} NoPackets(queues: seq<seq<Packet>>)
    ensures Packets(queues) == 0 <==> forall n :: 0 <= n < |queues| ==> queues[n] == []
  {
    if queues != [] {
      NoPackets(queues[..|queues| - 1]);
      assert forall n :: 0 <= n < |queues| ==> queues[n] == if n < |queues| - 1 then queues[..|queues| - 1][n] else queues[|queues| - 1];
    }
  }

  /** No bank is opened. */
  lemma {:induction false} OpenFewer(banks: seq<BankState>, banks': seq<BankState>)
    requires |banks'| == |banks| && forall b :: 0 <= b < |banks| && banks'[b].state.RowActive? ==> banks[b].state.RowActive?
    ensures OpenBanks(banks') <= OpenBanks(banks)
    ensures (exists b :: 0 <= b < |banks| && banks[b].state.RowActive? && !banks'[b].state.RowActive?) ==>
      OpenBanks(banks') < OpenBanks(banks)
  {
    if banks != [] {
      OpenFewer(banks[..|banks| - 1], banks'[..|banks| - 1]);
    }
  }

  /** At most one bank is opened. */
  lemma {:induction false} OpenOneMore(banks: seq<BankState>, banks': seq<BankState>, x: nat)
    requires |banks'| == |banks|
    requires forall b :: 0 <= b < |banks| && b != x && banks'[b].state.RowActive? ==> banks[b].state.RowActive?
    ensures OpenBanks(banks') <= OpenBanks(banks) + 1
  {
    if banks != [] {
      if x == |banks| - 1 {
        OpenFewer(banks[..|banks| - 1], banks'[..|banks| - 1]);
      } else {
        OpenOneMore(banks[..|banks| - 1], banks'[..|banks| - 1], x);
      }
    }
  }

  lemma TableOpens(cfg: Config, p: Packet, banks: seq<BankState>, now: int)
    requires p.bank < |banks| && (p.kind.PRECHARGE? ==> banks[p.bank].state.RowActive?)
    requires p.kind.REFRESH? ==> forall b :: 0 <= b < |banks| ==> !banks[b].state.RowActive?
    ensures
      var banks' := TableAfter(cfg, p, banks, now);
      && OpenBanks(banks') <= OpenBanks(banks) + 1
      && (!p.kind.ACTIVATE? ==> OpenBanks(banks') <= OpenBanks(banks))
      && (p.kind.PRECHARGE? ==> OpenBanks(banks') < OpenBanks(banks))
  {
    hide BankAfter, OpenBanks;
    var banks' := TableAfter(cfg, p, banks, now);
    forall b | 0 <= b < |banks|
      ensures banks'[b].state.RowActive? ==> banks[b].state.RowActive? || (b == p.bank && p.kind.ACTIVATE?)
      ensures b == p.bank && p.kind.PRECHARGE? ==> !banks'[b].state.RowActive?
    {
      OpensOnlyByActivate(cfg, p.kind, banks[b], b == p.bank, p.row, now);
    }
    OpenOneMore(banks, banks', p.bank);
    if !p.kind.ACTIVATE? {
      OpenFewer(banks, banks');
    }
  }

  lemma OpensOnlyByActivate(cfg: Config, kind: PacketKind, c: BankState, mine: bool, row: nat, now: int)
    ensures
      var c' := BankAfter(cfg, kind, c, mine, row, now);
      && (c'.state.RowActive? ==> c.state.RowActive? || (mine && kind.ACTIVATE?))
      && (mine && kind.PRECHARGE? ==> !c'.state.RowActive?)
  {
  }

  /** A command takes a packet out of a queue or closes a bank; only a refresh does neither. */
  lemma IssueEffort(cfg: Config, m: ControllerState, m': ControllerState, pending: nat)
    requires cfg.Valid() && CommandQueue.Shaped(cfg, m.banks, m.queue) && m.cmdBus.None? && Issue(cfg, m) == Ok(m')
    requires m.clock == m.queue.clock
    ensures Effort(m', pending) <= Effort(m, pending)
    ensures m'.cmdBus.Some? && !m'.cmdBus.value.kind.REFRESH? ==> Effort(m', pending) < Effort(m, pending)
    ensures Load(m', pending) <= Load(m, pending)
    ensures m'.cmdBus.Some? && m'.cmdBus.value.kind.IsColumn() ==> Load(m', pending) < Load(m, pending)
    ensures m'.cmdBus.None? || m'.cmdBus.value.kind.REFRESH? ==> m'.queue.queues == m.queue.queues
    ensures m'.queue.refreshWaiting == (m.queue.refreshWaiting && !(m'.cmdBus.Some? && m'.cmdBus.value.kind.REFRESH?))
    ensures m'.cmdBus.Some? && m'.cmdBus.value.kind.REFRESH? ==> m.queue.refreshWaiting
  {
    hide Issue, Choose;
    IssueEffect(cfg, m, m');
    PopQueues(cfg, m.banks, m.queue);
    var aged := m.queue.(window := AgeWindow(m.queue.window));
    var c := Choose(cfg, m.banks, aged);
    match c
    case Nothing =>
    case Send(n, i, _) =>
      PacketsAt(m.queue.queues, n, Removed(cfg, m.queue.queues[n], c));
      TableOpens(cfg, m'.cmdBus.value, m.banks, m.clock);
    case CloseRow(_, _) => TableOpens(cfg, m'.cmdBus.value, m.banks, m.clock);
    case SendRefresh =>
      forall b | 0 <= b < cfg.banks
        ensures !m.banks[b].state.RowActive?
      {
        assert !Blocks(m.banks[b], m.queue.clock);
      }
      TableOpens(cfg, m'.cmdBus.value, m.banks, m.clock);
  }

  lemma SplitEffort(cfg: Config, m: ControllerState, m': ControllerState, pending: nat)
    requires Split(cfg, m) == Ok(m')
    ensures Effort(m', pending) == Effort(m, pending) && Load(m', pending) == Load(m, pending)
  {
    hide Locate;
    var i := FirstSplittable(cfg, m.queue, m.transactions, 0);
    if i < |m.transactions| {
      var t := m.transactions[i];
      var n := QueueIndex(cfg, Locate(cfg, t.address).bank);
      var s := m.queue.queues[n];
      PacketsAt(m.queue.queues, n, s + [ActivateFor(cfg, t)]);
      PacketsAt(m.queue.queues[n := s + [ActivateFor(cfg, t)]], n, s + [ActivateFor(cfg, t)] + [ColumnFor(cfg, t)]);
    }
  }

  /** With an empty queue the oldest transaction is split. */
  lemma SplitFills(cfg: Config, m: ControllerState, m': ControllerState)
    requires cfg.Valid() && Split(cfg, m) == Ok(m') && m.transactions != [] && cfg.cmdQueueDepth >= 2
    requires |m.queue.queues| == QueueCount(cfg) && forall n :: 0 <= n < |m.queue.queues| ==> m.queue.queues[n] == []
    ensures QueueBusy(m'.queue)
  {
    hide Decode;
    assert Splittable(cfg, m.queue, m.transactions[0]);
    var n := QueueIndex(cfg, Locate(cfg, m.transactions[0].address).bank);
    assert m'.queue.queues[n] != [];
  }

  lemma AgedOpen(cfg: Config, banks: seq<BankState>)
    ensures OpenBanks(AgeBanks(cfg, banks)) <= OpenBanks(banks)
  {
    OpenFewer(banks, AgeBanks(cfg, banks));
  }

  /** What an update does to the work that is left. */
  lemma UpdateEffort(cfg: Config, m: ControllerState, r: RankState, now: int, pending: nat)
    requires SystemSafety.RankAhead(cfg, m, r, now) && m.clock == now + 1 && r.clock == now + 1 && m.queue.clock == now + 1
    ensures MemoryController.Update(cfg, m, r).Ok?
    ensures
      var (m', _, out) := MemoryController.Update(cfg, m, r).value;
      var refresh := out.issued.Some? && out.issued.value.kind.REFRESH?;
      && Effort(m', pending) <= Effort(m, pending) && Load(m', pending) <= Load(m, pending)
      && (out.issued.Some? && out.issued.value.kind.IsColumn() ==> Load(m', pending) < Load(m, pending))
      && (out.issued.Some? && !refresh ==> Effort(m', pending) < Effort(m, pending))
      && m'.queue.refreshWaiting == ((m.queue.refreshWaiting || RefreshSchedule.Due(m.refresh)) && !refresh)
      && (refresh ==> m.queue.refreshWaiting || RefreshSchedule.Due(m.refresh)) && (m.powerDown ==> out.issued.None?)
      && (QueueBusy(m.queue) && (out.issued.None? || refresh) ==> QueueBusy(m'.queue))
      && (m.transactions != [] && cfg.cmdQueueDepth >= 2 && (out.issued.None? || refresh) ==> QueueBusy(m'.queue))
  {
    hide MemoryController.Update, ServeBuses, Issue, Split, ReturnRead, AgeBanks, SystemSafety.Sound, Effort, Load, QueueBusy, ManagePower;
    var m4, m5, r5, m6, m7, m8, r8 := UpdatePhases(cfg, m, r, now);
    SoundShape(cfg, m5, r5, now + 1);
    IssueEffort(cfg, m5, m6, pending);
    SleepIsSilent(cfg, m5, r5, now + 1);
    IssueEffect(cfg, m5, m6);
    SplitEffect(cfg, m6, m7);
    SplitEffort(cfg, m6, m7, pending);
    ReturnEffect(m8);
    var (m', r', out) := MemoryController.Update(cfg, m, r).value;
    AgedEffort(cfg, m, m5, pending);
    PowerEffort(cfg, m7, r5, pending);
    SameEffort(m8, m', pending);
    StaysBusy(cfg, m, m6, m7, m');
  }

  /** A sleeping rank is sent nothing. */
  lemma SleepIsSilent(cfg: Config, m: ControllerState, r: RankState, now: int)
    requires SystemSafety.Sound(cfg, m, r, now, now + 1) && CommandQueue.Shaped(cfg, m.banks, m.queue)
    ensures m.powerDown ==> Pop(cfg, m.banks, m.queue).1.None?
  {
    hide Disciplined, Pop, Rel;
    if m.powerDown {
      SleepingPop(cfg, m.banks, m.queue);
    }
  }

  lemma SleepingPop(cfg: Config, banks: seq<BankState>, q: QueueState)
    requires CommandQueue.Shaped(cfg, banks, q) && forall b :: 0 <= b < |banks| ==> banks[b].state.PowerDown?
    ensures Pop(cfg, banks, q).1.None?
  {
    hide Pop, FirstBlocking;
    RoundRobin.PopIdleIff(cfg, banks, q);
  }

  lemma AgedEffort(cfg: Config, m: ControllerState, m': ControllerState, pending: nat)
    requires m'.banks == AgeBanks(cfg, m.banks) && m'.queue.queues == m.queue.queues && m'.transactions == m.transactions
    ensures Effort(m', pending) <= Effort(m, pending) && Load(m', pending) == Load(m, pending)
  {
    AgedOpen(cfg, m.banks);
  }

  lemma PowerEffort(cfg: Config, m: ControllerState, r: RankState, pending: nat)
    requires |m.banks| > 0 && ManagePower(cfg, m, r).Ok?
    requires m.powerDown ==> forall i :: 0 <= i < |m.banks| ==> m.banks[i].state.PowerDown?
    ensures
      var m' := ManagePower(cfg, m, r).value.0;
      Effort(m', pending) <= Effort(m, pending) && Load(m', pending) == Load(m, pending)
  {
    OpenFewer(m.banks, ManagePower(cfg, m, r).value.0.banks);
  }

  lemma SameEffort(m: ControllerState, m': ControllerState, pending: nat)
    requires m'.banks == m.banks && m'.queue.queues == m.queue.queues && m'.transactions == m.transactions
    ensures Effort(m', pending) == Effort(m, pending) && Load(m', pending) == Load(m, pending)
  {
  }

  lemma StaysBusy(cfg: Config, m: ControllerState, m6: ControllerState, m7: ControllerState, m': ControllerState)
    requires Split(cfg, m6) == Ok(m7) && m'.queue.queues == m7.queue.queues && m6.transactions == m.transactions && cfg.Valid()
    requires |m6.queue.queues| == QueueCount(cfg)
    ensures m6.queue.queues == m.queue.queues && QueueBusy(m.queue) ==> QueueBusy(m'.queue)
    ensures m6.queue.queues == m.queue.queues && m.transactions != [] && cfg.cmdQueueDepth >= 2 ==> QueueBusy(m'.queue)
  {
    hide Split;
    SplitAppends(cfg, m6, m7);
    if m6.queue.queues == m.queue.queues {
      if QueueBusy(m.queue) {
        var n :| 0 <= n < |m.queue.queues| && m.queue.queues[n] != [];
        assert m'.queue.queues[n] != [];
      } else if m.transactions != [] && cfg.cmdQueueDepth >= 2 {
        SplitFills(cfg, m6, m7);
        var n :| 0 <= n < |m7.queue.queues| && m7.queue.queues[n] != [];
        assert m'.queue.queues[n] != [];
      }
    }
  }

  // ---- When banks can be activated ----

  predicate NoneOpen(banks: seq<BankState>) {
    forall b :: 0 <= b < |banks| ==> !banks[b].state.RowActive?
  }

  predicate ActivateFrom(banks: seq<BankState>, from: int) {
    forall b :: 0 <= b < |banks| ==> banks[b].nextActivate >= from
  }

  predicate ActivateBy(banks: seq<BankState>, until: int) {
    forall b :: 0 <= b < |banks| ==> banks[b].nextActivate <= until
  }

  lemma PopActivates(cfg: Config, banks: seq<BankState>, q: QueueState)
    requires CommandQueue.Shaped(cfg, banks, q)
    ensures
      var sent := Pop(cfg, banks, q).1;
      && (sent.Some? && sent.value.kind.REFRESH? ==> ActivateBy(banks, q.clock))
      && (sent.Some? && sent.value.kind.ACTIVATE? ==> sent.value.bank < |banks| && banks[sent.value.bank].nextActivate <= q.clock)
      && (NoneOpen(banks) && (q.refreshWaiting || !QueueBusy(q) || forall b :: 0 <= b < |banks| ==> banks[b].nextActivate > q.clock) ==>
            sent.None? || sent.value.kind.REFRESH?)
  {
    hide Choose;
    var aged := q.(window := AgeWindow(q.window));
    ChoiceActivates(cfg, banks, aged);
  }

  lemma ChoiceActivates(cfg: Config, banks: seq<BankState>, q: QueueState)
    requires CommandQueue.Shaped(cfg, banks, q)
    ensures
      var c := Choose(cfg, banks, q);
      && (c.Send? ==> !q.queues[c.queue][c.index].kind.REFRESH?)
      && (c.Send? && q.queues[c.queue][c.index].kind.ACTIVATE? ==>
            var b := q.queues[c.queue][c.index].bank; b < |banks| && banks[b].nextActivate <= q.clock)
      && (NoneOpen(banks) && (q.refreshWaiting || !QueueBusy(q) || forall b :: 0 <= b < |banks| ==> banks[b].nextActivate > q.clock) ==>
            c.Nothing? || c.SendRefresh?)
      && (c.SendRefresh? ==> ActivateBy(banks, q.clock))
  {
    hide FirstEligible, FirstReady, FirstForRow, FirstClosable;
    var c := Choose(cfg, banks, q);
    if c.SendRefresh? {
      assert forall b :: 0 <= b < |banks| ==> !Blocks(banks[b], q.clock);
    }
  }

  lemma TableActivates(cfg: Config, p: Packet, banks: seq<BankState>, now: int, from: int)
    requires ActivateFrom(banks, from)
    ensures
      var banks' := TableAfter(cfg, p, banks, now);
      && (!p.kind.REFRESH? || from <= now + cfg.tRFC ==> ActivateFrom(banks', from))
      && (p.kind.REFRESH? ==> ActivateFrom(banks', now + cfg.tRFC) && (NoneOpen(banks) ==> NoneOpen(banks')))
  {
  }

  lemma AgingActivates(cfg: Config, banks: seq<BankState>, from: int, until: int)
    ensures ActivateFrom(banks, from) ==> ActivateFrom(AgeBanks(cfg, banks), from)
    ensures NoneOpen(banks) ==> NoneOpen(AgeBanks(cfg, banks))
    ensures ActivateBy(AgeBanks(cfg, banks), until) ==> ActivateBy(banks, until)
  {
    hide AgeBank;
    forall b | 0 <= b < |banks|
      ensures AgeBanks(cfg, banks)[b].nextActivate == banks[b].nextActivate
      ensures AgeBanks(cfg, banks)[b].state.RowActive? ==> banks[b].state.RowActive?
    {
      AgedOnly(cfg, banks[b]);
    }
  }

  lemma AgedOnly(cfg: Config, c: BankState)
    ensures AgeBank(cfg, c).nextActivate == c.nextActivate && (AgeBank(cfg, c).state.RowActive? ==> c.state.RowActive?)
  {
  }

  /**
   * A step of cycle clock from banks to banks', with what it sends. If the controller stays awake no bank can be activated
   * sooner than before, and a refresh holds up all of them; with all banks closed nothing but a refresh is sent while one
   * waits, while the queues are empty and until the banks can be activated.
   */
  predicate HoldsActivates(cfg: Config, banks: seq<BankState>, q: QueueState, waiting: bool, sent: Option<Packet>,
                           banks': seq<BankState>, awake: bool, clock: int, from: int)
  {
    var refresh := sent.Some? && sent.value.kind.REFRESH?;
    && (refresh ==> ActivateBy(banks, clock)) && (sent.Some? && sent.value.kind.ACTIVATE? && |banks| > 0 ==> from <= clock)
    && (NoneOpen(banks) && (waiting || !QueueBusy(q) || from > clock) ==> sent.None? || refresh)
    && (NoneOpen(banks) && (sent.None? || refresh) ==> NoneOpen(banks'))
    && (awake && (refresh ==> from <= clock + cfg.tRFC) ==> ActivateFrom(banks', from))
    && (awake && refresh ==> ActivateFrom(banks', clock + cfg.tRFC))
  }

  lemma UpdateActivates(cfg: Config, m: ControllerState, r: RankState, now: int, from: int)
    requires SystemSafety.RankAhead(cfg, m, r, now) && m.clock == now + 1 && r.clock == now + 1 && m.queue.clock == now + 1
    requires ActivateFrom(m.banks, from)
    ensures MemoryController.Update(cfg, m, r).Ok?
    ensures
      var (m', _, out) := MemoryController.Update(cfg, m, r).value;
      HoldsActivates(cfg, m.banks, m.queue, m.queue.refreshWaiting || RefreshSchedule.Due(m.refresh), out.issued, m'.banks,
                     m'.powerDown == m.powerDown, now + 1, from)
  {
    hide MemoryController.Update, ServeBuses, Issue, Split, ReturnRead, AgeBanks, SystemSafety.Sound, ManagePower,
      HoldsActivates, ActivateFrom, RefreshSchedule.Due;
    var m4, m5, r5, m6, m7, m8, r8 := UpdatePhases(cfg, m, r, now);
    SoundShape(cfg, m5, r5, now + 1);
    AgingActivates(cfg, m.banks, from, now + 1);
    IssueActivates(cfg, m5, m6, from);
    IssueEffect(cfg, m5, m6);
    SplitEffect(cfg, m6, m7);
    ReturnEffect(m8);
    AroundIssue(cfg, m, m5, m6, m7, r5, from);
  }

  lemma AroundIssue(cfg: Config, m: ControllerState, m5: ControllerState, m6: ControllerState, m7: ControllerState, r: RankState,
                    from: int)
    requires m5.banks == AgeBanks(cfg, m.banks) && m5.queue.queues == m.queue.queues && m7.banks == m6.banks
    requires HoldsActivates(cfg, m5.banks, m5.queue, m5.queue.refreshWaiting, m6.cmdBus, m6.banks, true, m.clock, from)
    requires |m7.banks| > 0 && ManagePower(cfg, m7, r).Ok?
    requires m7.powerDown ==> forall i :: 0 <= i < |m7.banks| ==> m7.banks[i].state.PowerDown?
    ensures
      var m' := ManagePower(cfg, m7, r).value.0;
      HoldsActivates(cfg, m.banks, m.queue, m5.queue.refreshWaiting, m6.cmdBus, m'.banks, m'.powerDown == m7.powerDown, m.clock, from)
  {
    hide AgeBanks, ManagePower, NoneOpen, ActivateFrom, ActivateBy;
    AgingActivates(cfg, m.banks, from, m.clock);
    PowerActivates(cfg, m7, r);
  }

  lemma IssueActivates(cfg: Config, m: ControllerState, m': ControllerState, from: int)
    requires CommandQueue.Shaped(cfg, m.banks, m.queue) && m.cmdBus.None? && Issue(cfg, m) == Ok(m')
    requires ActivateFrom(m.banks, from) && m.queue.clock == m.clock
    ensures HoldsActivates(cfg, m.banks, m.queue, m.queue.refreshWaiting, m'.cmdBus, m'.banks, true, m.clock, from)
  {
    hide Issue, Pop, TableAfter;
    IssueEffect(cfg, m, m');
    PopActivates(cfg, m.banks, m.queue);
    if m'.cmdBus.Some? {
      TableActivates(cfg, m'.cmdBus.value, m.banks, m.clock, from);
    }
  }

  lemma PowerActivates(cfg: Config, m: ControllerState, r: RankState)
    requires |m.banks| > 0 && ManagePower(cfg, m, r).Ok?
    requires m.powerDown ==> forall i :: 0 <= i < |m.banks| ==> m.banks[i].state.PowerDown?
    ensures
      var m' := ManagePower(cfg, m, r).value.0;
      && (m'.powerDown == m.powerDown ==> m'.banks == m.banks)
      && (NoneOpen(m.banks) ==> NoneOpen(m'.banks))
  {
  }
}
