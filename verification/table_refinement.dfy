/**
 * The controller's bank table against the rank's own. The controller acts on its table one command-bus
 * cycle before the rank sees the command, so the rank's times may be at most one cycle later.
 */
module TableRefinement {
  import opened DramTypes
  import opened Wrappers
  import opened MemoryController
  import CommandQueue
  import Rank

  /** The bank has an auto-precharge under way that the rank has already accounted for. */
  predicate ClosingItself(cfg: Config, c: BankState, now: int) {
    && cfg.rowPolicy.ClosePage?
    && c.state.RowActive? && (c.lastCommand.READ_P? || c.lastCommand.WRITE_P?) && c.countdown > 0
    && c.nextRead >= now + c.countdown && c.nextWrite >= now + c.countdown
  }

  /** What the controller knows of a bank implies what the rank checks; `now` is the last cycle aged in. */
  predicate Rel(cfg: Config, c: BankState, r: BankState, now: int) {
    && r.nextActivate <= c.nextActivate + 1
    && match r.state
       case RowActive =>
         && c.state.RowActive? && c.countdown == 0 && c.openRow == r.openRow
         && r.nextRead <= c.nextRead + 1 && r.nextWrite <= c.nextWrite + 1 && r.nextPrecharge <= c.nextPrecharge + 1
       case Idle =>
         || (c.state.Idle? && c.countdown == 0)
         || (c.state.Precharging? && c.countdown > 0 && c.lastCommand.PRECHARGE?)
         || (c.state.Refreshing? && c.countdown > 0 && c.lastCommand.REFRESH? && c.nextActivate >= now + c.countdown)
         || ClosingItself(cfg, c, now)
       case PowerDown =>
         c.state.PowerDown? && c.countdown == 0 && r.nextPowerUp == c.nextPowerUp
       case _ => false
  }

  lemma AgeKeepsRel(cfg: Config, c: BankState, r: BankState, now: int)
    requires cfg.Valid() && Rel(cfg, c, r, now)
    ensures Rel(cfg, AgeBank(cfg, c), r, now + 1)
  {
  }

  /** The controller's own test of a command against the bank it names (for a refresh: every bank). */
  predicate BankReady(cfg: Config, kind: PacketKind, c: BankState, row: nat, now: int) {
    match kind
    case READ => c.state.RowActive? && now >= c.nextRead && row == c.openRow && cfg.rowPolicy.OpenPage?
    case READ_P => c.state.RowActive? && now >= c.nextRead && row == c.openRow && cfg.rowPolicy.ClosePage?
    case WRITE => c.state.RowActive? && now >= c.nextWrite && row == c.openRow && cfg.rowPolicy.OpenPage?
    case WRITE_P => c.state.RowActive? && now >= c.nextWrite && row == c.openRow && cfg.rowPolicy.ClosePage?
    case ACTIVATE => (c.state.Idle? || c.state.Refreshing?) && now >= c.nextActivate
    case PRECHARGE => c.state.RowActive? && now >= c.nextPrecharge && cfg.rowPolicy.OpenPage?
    case REFRESH => !c.state.RowActive? && c.nextActivate <= now && !c.state.PowerDown?
    case DATA => false
  }

  /** A command that the controller's table allows at `now` is allowed by the rank one cycle later. */
  lemma ReadyMeansAllowed(cfg: Config, kind: PacketKind, c: BankState, r: BankState, row: nat, now: int)
    requires cfg.Valid() && Rel(cfg, c, r, now) && BankReady(cfg, kind, c, row, now)
    ensures Rank.BankAllows(kind, r, row, now + 1)
  {
  }

  /** A bank that may be activated has come to rest. */
  lemma ReadyBankIsIdle(cfg: Config, c: BankState, r: BankState, now: int)
    requires Rel(cfg, c, r, now)
    requires (c.state.Idle? || c.state.Refreshing?) && now >= c.nextActivate
    ensures c.state.Idle? && c.countdown == 0
  {
  }

  /** Both tables apply a legal command; the relation holds again with the rank one cycle ahead. */
  lemma CommandKeepsRel(cfg: Config, kind: PacketKind, c: BankState, r: BankState, mine: bool, row: nat, now: int)
    requires cfg.Valid() && Rel(cfg, c, r, now)
    requires mine || kind.REFRESH? ==> Rank.BankAllows(kind, r, row, now + 1)
    requires kind.ACTIVATE? && mine ==> c.state.Idle?
    requires kind.REFRESH? ==> c.nextActivate <= now
    requires kind.READ_P? || kind.WRITE_P? ==> cfg.rowPolicy.ClosePage?
    ensures Rel(cfg, BankAfter(cfg, kind, c, mine, row, now), Rank.BankAfter(cfg, kind, r, mine, row, now + 1), now)
  {
  }

  predicate PowerAgrees(cfg: Config, m: ControllerState, r: RankState) {
    && |m.banks| == cfg.banks && |r.banks| == cfg.banks
    && m.powerDown == r.poweredDown
    && (forall i :: 0 <= i < cfg.banks ==> (m.banks[i].state.PowerDown? <==> m.powerDown))
    && (m.powerDown ==> forall i :: 0 <= i < cfg.banks ==> m.banks[i].nextPowerUp == m.banks[0].nextPowerUp)
  }

  /** The rank's bank as it will be once the command on the bus, if any, has arrived. */
  function Expected(cfg: Config, m: ControllerState, r: RankState, i: nat, arrive: int): BankState
    requires i < |r.banks|
  {
    if m.cmdBus.None? then r.banks[i]
    else Rank.BankAfter(cfg, m.cmdBus.value.kind, r.banks[i], i == m.cmdBus.value.bank, m.cmdBus.value.row, arrive)
  }

  /** The command on the bus will be accepted when it arrives. */
  predicate Welcome(cfg: Config, m: ControllerState, r: RankState, arrive: int) {
    m.cmdBus.Some? ==>
      && m.cmdCyclesLeft == 1 && !m.cmdBus.value.kind.DATA? && m.cmdBus.value.bank < cfg.banks
      && Rank.Allows(r.(clock := arrive), m.cmdBus.value)
  }

  /** The refinement relation between controller and rank at the end of cycle `now`. */
  predicate Linked(cfg: Config, m: ControllerState, r: RankState, now: int, arrive: int) {
    && PowerAgrees(cfg, m, r)
    && Welcome(cfg, m, r, arrive)
    && (forall i :: 0 <= i < cfg.banks ==> Rel(cfg, m.banks[i], Expected(cfg, m, r, i, arrive), now))
  }

  lemma LinkAges(cfg: Config, m: ControllerState, r: RankState, now: int, arrive: int)
    requires cfg.Valid() && Linked(cfg, m, r, now, arrive)
    ensures Linked(cfg, m.(banks := AgeBanks(cfg, m.banks)), r, now + 1, arrive)
  {
    var m' := m.(banks := AgeBanks(cfg, m.banks));
    forall i | 0 <= i < cfg.banks
      ensures Rel(cfg, m'.banks[i], Expected(cfg, m', r, i, arrive), now + 1)
      ensures m'.banks[i].state.PowerDown? <==> m.powerDown
      ensures m'.banks[i].nextPowerUp == m.banks[i].nextPowerUp
    {
      AgeKeepsRel(cfg, m.banks[i], Expected(cfg, m, r, i, arrive), now);
      assert Expected(cfg, m', r, i, arrive) == Expected(cfg, m, r, i, arrive);
      assert m'.banks[i] == AgeBank(cfg, m.banks[i]);
    }
  }

  lemma LinkDelivers(cfg: Config, m: ControllerState, r: RankState, now: int)
    requires cfg.Valid() && Linked(cfg, m, r, now, r.clock)
    ensures DeliverCommand(cfg, m, r).Ok?
    ensures
      var (m', r') := DeliverCommand(cfg, m, r).value;
      m'.cmdBus.None? && Linked(cfg, m', r', now, r.clock + 1)
  {
    if m.cmdBus.Some? {
      assert r.(clock := r.clock) == r;
      var (m', r') := DeliverCommand(cfg, m, r).value;
      forall i | 0 <= i < cfg.banks
        ensures r'.banks[i] == Expected(cfg, m, r, i, r.clock)
      {
      }
    }
  }

  lemma LinkData(cfg: Config, m: ControllerState, r: RankState, now: int, arrive: int)
    requires cfg.Valid() && Linked(cfg, m, r, now, arrive)
    requires m.dataBus.Some? ==> m.dataBus.value.kind.DATA? && m.dataBus.value.bank < cfg.banks
    ensures DeliverData(cfg, m, r).Ok?
    ensures
      var (m', r', _) := DeliverData(cfg, m, r).value;
      r' == r && Linked(cfg, m', r', now, arrive)
  {
    var (m', r', _) := DeliverData(cfg, m, r).value;
    if m.dataBus.Some? {
      assert Rank.TableAfter(cfg, m.dataBus.value, r.banks, r.clock) == r.banks;
      assert r.(banks := r.banks) == r;
    }
    SameLink(cfg, m, r, m', r', now, arrive);
  }

  /** The relation looks only at the tables, the power flags and the command bus. */
  lemma SameLink(cfg: Config, m: ControllerState, r: RankState, m': ControllerState, r': RankState, now: int, arrive: int)
    requires Linked(cfg, m, r, now, arrive)
    requires m'.banks == m.banks && m'.powerDown == m.powerDown && m'.cmdBus == m.cmdBus && m'.cmdCyclesLeft == m.cmdCyclesLeft
    requires r'.banks == r.banks && r'.poweredDown == r.poweredDown
    ensures Linked(cfg, m', r', now, arrive)
  {
    forall i | 0 <= i < cfg.banks
      ensures Rel(cfg, m'.banks[i], Expected(cfg, m', r', i, arrive), now)
    {
      assert Rel(cfg, m.banks[i], Expected(cfg, m, r, i, arrive), now);
    }
    if m.cmdBus.Some? {
      assert Rank.Allows(r.(clock := arrive), m.cmdBus.value);
    }
  }

  /** The command that goes out is allowed by the controller's table. */
  predicate Ready(cfg: Config, banks: seq<BankState>, p: Packet, now: int) {
    && p.bank < |banks| && !p.kind.DATA?
    && (if p.kind.REFRESH? then forall i :: 0 <= i < |banks| ==> BankReady(cfg, REFRESH, banks[i], p.row, now)
        else BankReady(cfg, p.kind, banks[p.bank], p.row, now))
  }

  /** A ready command will be welcome at the rank, and both tables stay linked after it. */
  lemma LinkIssues(cfg: Config, m: ControllerState, m': ControllerState, r: RankState, p: Packet, now: int)
    requires cfg.Valid() && Linked(cfg, m, r, now, now + 1) && m.cmdBus.None?
    requires Ready(cfg, m.banks, p, now)
    requires m'.banks == TableAfter(cfg, p, m.banks, now) && m'.powerDown == m.powerDown
    requires m'.cmdBus == Some(p) && m'.cmdCyclesLeft == 1
    ensures Linked(cfg, m', r, now, now + 1)
  {
    forall i | 0 <= i < cfg.banks
      ensures Rel(cfg, m'.banks[i], Expected(cfg, m', r, i, now + 1), now)
      ensures i == p.bank || p.kind.REFRESH? ==> Rank.BankAllows(p.kind, r.banks[i], p.row, now + 1)
      ensures m'.banks[i].state.PowerDown? <==> m.powerDown
      ensures m'.banks[i].nextPowerUp == m.banks[i].nextPowerUp
    {
      OneBankIssues(cfg, p, m.banks[i], r.banks[i], i == p.bank, now);
      assert m.banks[i].state.PowerDown? <==> m.powerDown;
    }
  }

  lemma OneBankIssues(cfg: Config, p: Packet, c: BankState, r: BankState, mine: bool, now: int)
    requires cfg.Valid() && Rel(cfg, c, r, now)
    requires mine || p.kind.REFRESH? ==> BankReady(cfg, p.kind, c, p.row, now)
    requires p.kind.READ_P? || p.kind.WRITE_P? ==> cfg.rowPolicy.ClosePage?
    ensures Rel(cfg, BankAfter(cfg, p.kind, c, mine, p.row, now), Rank.BankAfter(cfg, p.kind, r, mine, p.row, now + 1), now)
    ensures mine || p.kind.REFRESH? ==> Rank.BankAllows(p.kind, r, p.row, now + 1)
    ensures BankAfter(cfg, p.kind, c, mine, p.row, now).state.PowerDown? <==> c.state.PowerDown?
    ensures BankAfter(cfg, p.kind, c, mine, p.row, now).nextPowerUp == c.nextPowerUp
  {
    if mine || p.kind.REFRESH? {
      ReadyMeansAllowed(cfg, p.kind, c, r, p.row, now);
      if p.kind.ACTIVATE? {
        ReadyBankIsIdle(cfg, c, r, now);
      }
    }
    CommandKeepsRel(cfg, p.kind, c, r, mine, p.row, now);
  }

  /** A command on the bus has left its bank neither idle nor asleep. */
  predicate Busy(m: ControllerState) {
    m.cmdBus.Some? ==>
      && m.cmdBus.value.bank < |m.banks|
      && !m.banks[m.cmdBus.value.bank].state.Idle? && !m.banks[m.cmdBus.value.bank].state.PowerDown?
  }

  lemma IssueIsBusy(cfg: Config, m: ControllerState, m': ControllerState, p: Packet, now: int)
    requires Ready(cfg, m.banks, p, now)
    requires m'.banks == TableAfter(cfg, p, m.banks, now) && m'.cmdBus == Some(p)
    ensures Busy(m')
  {
    assert p.kind.REFRESH? ==> BankReady(cfg, REFRESH, m.banks[p.bank], p.row, now);
  }

  /** Power management puts both tables to sleep and wakes both, and neither side ever objects. */
  lemma LinkPower(cfg: Config, m: ControllerState, r: RankState, now: int)
    requires cfg.Valid() && Linked(cfg, m, r, now, now + 1) && Busy(m) && m.clock == now && r.clock == now
    ensures ManagePower(cfg, m, r).Ok?
    ensures Linked(cfg, ManagePower(cfg, m, r).value.0, ManagePower(cfg, m, r).value.1, now, now + 1)
  {
    if cfg.useLowPower {
      if CommandQueue.IsEmpty(m.queue) && !r.refreshWaiting {
        if forall i :: 0 <= i < |m.banks| ==> m.banks[i].state.Idle? {
          assert m.cmdBus.None?;
          forall i | 0 <= i < cfg.banks
            ensures r.banks[i].state.Idle?
          {
            assert Rel(cfg, m.banks[i], Expected(cfg, m, r, i, now + 1), now);
          }
        }
      } else if m.clock >= m.banks[0].nextPowerUp && m.powerDown {
        assert m.cmdBus.None?;
        forall i | 0 <= i < cfg.banks
          ensures r.banks[i].state.PowerDown? && r.banks[i].nextPowerUp <= now
        {
          assert Rel(cfg, m.banks[i], Expected(cfg, m, r, i, now + 1), now);
          assert m.banks[i].nextPowerUp == m.banks[0].nextPowerUp;
        }
      }
    }
  }
}
