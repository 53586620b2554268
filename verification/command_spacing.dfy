/** The least distances between any two commands of a run, however far apart their causes. */
module CommandSpacing {
  import opened DramTypes
  import opened Wrappers
  import opened MemoryController
  import opened TableRefinement

  /**
   * The cycles that must pass between command p and a later command of the given kind for the given bank, in the parameters of
   * the device: reads have a latency of AL + CL, writes of one less, and a burst takes BL / 2.
   */
  function MinGap(cfg: Config, p: Packet, kind: PacketKind, bank: nat): int {
    var same, burst := p.bank == bank, cfg.BL / 2;
    match p.kind
    case ACTIVATE =>
      (match kind
       case ACTIVATE => if same then cfg.tRC else cfg.tRRD
       case PRECHARGE => if same then cfg.tRAS else 0
       case REFRESH => cfg.tRC
       case _ => if same && kind.IsColumn() then cfg.tRCD - cfg.AL else 0)
    case PRECHARGE =>
      if kind.REFRESH? || (kind.ACTIVATE? && same) then cfg.tRP else 0
    case REFRESH =>
      if kind.REFRESH? || kind.ACTIVATE? then cfg.tRFC else 0
    case DATA => 0
    case _ =>
      var read := p.kind.READ? || p.kind.READ_P?;
      if kind.READ? || kind.READ_P? then
        if read then Max(cfg.tCCD, burst) else cfg.AL + cfg.CL - 1 + burst + cfg.tWTR
      else if kind.WRITE? || kind.WRITE_P? then
        if read then burst + cfg.tRTRS + 1 else Max(cfg.tCCD, burst)
      else if kind.PRECHARGE? && same then
        (match p.kind
         case READ => cfg.AL + burst + Max(cfg.tRTP - cfg.tCCD, 0)
         case WRITE => cfg.AL + cfg.CL - 1 + burst + cfg.tWR
         case _ => 0)
      else if kind.REFRESH? || (kind.ACTIVATE? && same) then
        (match p.kind
         case READ_P => cfg.AL + cfg.tRTP + cfg.tRP
         case WRITE_P => cfg.AL + cfg.CL - 1 + burst + cfg.tWR + cfg.tRP
         case _ => 0)
      else 0
  }

  /** The cycles from an ACTIVATE to the first column command that can follow it; one command goes out per cycle. */
  function FirstColumn(cfg: Config): (d: int)
    ensures d >= 1 && d >= cfg.ColumnDelay()
  {
    Max(cfg.ColumnDelay(), 1)
  }

  /**
   * The cycles from a column command with auto-precharge to the next ACTIVATE of its bank: the table's own delay and the
   * end of the precharge, unless a refresh cuts the precharge short.
   */
  function Reopening(cfg: Config, autoPre: int, toPre: int): int {
    Max(autoPre, Min(toPre + cfg.tRP, autoPre + cfg.tRFC))
  }

  /**
   * The delay that the table puts on the next ACTIVATE of the bank. With one bank nothing keeps a column command from going
   * out as soon as it can follow its ACTIVATE, so that the rest of the row cycle time is always still ahead.
   */
  function Withheld(cfg: Config, autoPre: int): (w: int)
    ensures w >= autoPre
  {
    if cfg.banks == 1 then Max(autoPre, cfg.tRC - FirstColumn(cfg)) else autoPre
  }

  /** The cycles from a column command with auto-precharge to the next column command of its bank. */
  function ReadReturns(cfg: Config): int {
    Reopening(cfg, Withheld(cfg, cfg.ReadAutoPre()), cfg.ReadToPre()) + FirstColumn(cfg)
  }

  function WriteReturns(cfg: Config): int {
    Reopening(cfg, Withheld(cfg, cfg.WriteAutoPre()), cfg.WriteToPre()) + FirstColumn(cfg)
  }

  /**
   * The only bank in close page, before cycle next: when it is open its column times are those its ACTIVATE has set, and
   * the column command is not overdue; otherwise it takes column commands no later than the next ACTIVATE.
   */
  predicate Single(cfg: Config, c: BankState, next: int) {
    if Live(c) then
      var opened' := c.nextRead - cfg.ColumnDelay();
      c.nextWrite == c.nextRead && c.nextActivate >= opened' + cfg.tRC && next <= opened' + FirstColumn(cfg)
    else
      c.nextRead <= c.nextActivate && c.nextWrite <= c.nextActivate
  }

  /** A command to the only bank, or a cycle without one, keeps this if an open bank is served in time. */
  lemma SingleStep(cfg: Config, c: BankState, sent: Option<Packet>, now: int)
    requires cfg.Valid() && cfg.rowPolicy.ClosePage? && Single(cfg, c, now)
    requires sent.Some? ==> BankReady(cfg, sent.value.kind, c, sent.value.row, now)
    requires sent.Some? && sent.value.kind.ACTIVATE? ==> c.state.Idle? && c.countdown == 0
    requires sent.None? && Live(c) ==> now < Max(c.nextRead, c.nextWrite)
    ensures Single(cfg, if sent.Some? then BankAfter(cfg, sent.value.kind, c, true, sent.value.row, now) else c, now + 1)
  {
  }

  /** In close page a bank must not be able to come back sooner than the turnaround it has to keep. */
  predicate TurnaroundCovered(cfg: Config) {
    cfg.rowPolicy.ClosePage? ==>
      && cfg.ReadToWrite() <= ReadReturns(cfg)
      && cfg.ColumnGap() <= ReadReturns(cfg)
      && cfg.ColumnGap() <= WriteReturns(cfg)
      && cfg.WriteToRead() <= WriteReturns(cfg)
  }

  /** The distance that is kept whatever the parameters: that between two column commands needs their turnaround covered. */
  function KeptGap(cfg: Config, p: Packet, kind: PacketKind, bank: nat): int {
    if p.kind.IsColumn() && kind.IsColumn() && !TurnaroundCovered(cfg) then 0 else MinGap(cfg, p, kind, bank)
  }

  predicate Live(c: BankState) {
    c.state.RowActive? && c.countdown == 0
  }

  /** The earliest ACTIVATE the table can allow on this bank, last aged in cycle base. */
  function EarliestActivate(cfg: Config, c: BankState, base: int): (e: int)
    ensures e >= c.nextActivate
  {
    if c.countdown > 0 && c.lastCommand.PRECHARGE? then
      Max(c.nextActivate, Min(base + c.countdown, c.nextActivate + cfg.tRFC))
    else if c.countdown > 0 && (c.lastCommand.READ_P? || c.lastCommand.WRITE_P?) then
      Max(c.nextActivate, Min(base + c.countdown + cfg.tRP, c.nextActivate + cfg.tRFC))
    else
      c.nextActivate
  }

  /** The earliest column command, if the table allows them from cycle `from`: a closed bank has to be activated first. */
  function EarliestColumn(cfg: Config, c: BankState, from: int, base: int, next: int): int {
    if Live(c) then Max(from, next) else Max(from, Max(EarliestActivate(cfg, c, base), next) + FirstColumn(cfg))
  }

  /**
   * The table remembers, for bank b, every distance it owes to command p of cycle t. It was last aged in cycle base, and
   * next is the first cycle that is still to be served.
   */
  predicate Remembers(cfg: Config, c: BankState, p: Packet, t: int, b: nat, base: int, next: int) {
    && Owes(EarliestColumn(cfg, c, c.nextRead, base, next), t, KeptGap(cfg, p, READ, b))
    && Owes(EarliestColumn(cfg, c, c.nextWrite, base, next), t, KeptGap(cfg, p, WRITE, b))
    && Owes(c.nextActivate, t, KeptGap(cfg, p, ACTIVATE, b))
    && Owes(c.nextPrecharge, t, KeptGap(cfg, p, PRECHARGE, b))
  }

  predicate Owes(next: int, t: int, gap: int) {
    gap > 0 ==> next >= t + gap
  }

  lemma AgeRemembers(cfg: Config, c: BankState, r: BankState, now: int, p: Packet, t: int, b: nat)
    requires cfg.Valid() && Rel(cfg, c, r, now) && Remembers(cfg, c, p, t, b, now, now + 1)
    ensures Remembers(cfg, AgeBank(cfg, c), p, t, b, now + 1, now + 1)
  {
    hide KeptGap;
  }

  lemma PauseRemembers(cfg: Config, c: BankState, now: int, p: Packet, t: int, b: nat)
    requires Remembers(cfg, c, p, t, b, now, now)
    ensures Remembers(cfg, c, p, t, b, now, now + 1)
  {
    hide KeptGap;
  }

  /** No time of the table moves forward from before a command of cycle now to after it. */
  predicate Later(cfg: Config, c: BankState, c': BankState, now: int) {
    && EarliestColumn(cfg, c, c.nextRead, now, now) <= EarliestColumn(cfg, c', c'.nextRead, now, now + 1)
    && EarliestColumn(cfg, c, c.nextWrite, now, now) <= EarliestColumn(cfg, c', c'.nextWrite, now, now + 1)
    && c.nextActivate <= c'.nextActivate && c.nextPrecharge <= c'.nextPrecharge
  }

  lemma LaterRemembers(cfg: Config, c: BankState, c': BankState, now: int, p: Packet, t: int, b: nat)
    requires Remembers(cfg, c, p, t, b, now, now) && Later(cfg, c, c', now)
    ensures Remembers(cfg, c', p, t, b, now, now + 1)
  {
    hide KeptGap, EarliestColumn;
  }

  /** Only a column command that closes its own bank moves times forward. */
  lemma CommandLater(cfg: Config, c: BankState, q: Packet, mine: bool, now: int)
    requires cfg.Valid() && (mine || q.kind.REFRESH? ==> BankReady(cfg, q.kind, c, q.row, now))
    requires mine && (q.kind.IsColumn() || q.kind.PRECHARGE?) ==> Live(c)
    requires mine && q.kind.ACTIVATE? ==> c.state.Idle? && c.countdown == 0
    requires !(mine && (q.kind.READ_P? || q.kind.WRITE_P?))
    ensures Later(cfg, c, BankAfter(cfg, q.kind, c, mine, q.row, now), now)
  {
  }

  /** The cycles from a column command with auto-precharge to the next column command of its bank. */
  function Returns(cfg: Config, kind: PacketKind): int {
    if kind.READ_P? then ReadReturns(cfg) else WriteReturns(cfg)
  }

  lemma AutoPrechargeReturns(cfg: Config, c: BankState, q: Packet, now: int)
    requires cfg.Valid() && Live(c) && (q.kind.READ_P? || q.kind.WRITE_P?) && (cfg.banks == 1 ==> Single(cfg, c, now))
    ensures
      var c' := BankAfter(cfg, q.kind, c, true, q.row, now);
      && EarliestColumn(cfg, c', c'.nextRead, now, now + 1) >= now + Returns(cfg, q.kind)
      && EarliestColumn(cfg, c', c'.nextWrite, now, now + 1) >= now + Returns(cfg, q.kind)
      && c.nextActivate <= c'.nextActivate && c.nextPrecharge <= c'.nextPrecharge
      && now + (if q.kind.READ_P? then cfg.ReadAutoPre() else cfg.WriteAutoPre()) <= c'.nextActivate
  {
  }

  /** What is still owed when a column command closes its bank is paid by the time the bank comes back. */
  lemma ReturnPays(cfg: Config, q: Packet, p: Packet, kind: PacketKind, b: nat)
    requires cfg.Valid() && cfg.rowPolicy.ClosePage? && (q.kind.READ_P? || q.kind.WRITE_P?)
    requires kind.READ? || kind.WRITE?
    ensures KeptGap(cfg, p, kind, b) <= Returns(cfg, q.kind)
      || (kind.READ? && q.kind.READ_P? && p.kind.IsWrite()) || (kind.WRITE? && q.kind.WRITE_P? && p.kind.IsRead())
  {
  }

  /** A column command that closes its bank again leaves the bank behind every turnaround. */
  lemma AutoPrechargeRemembers(cfg: Config, c: BankState, q: Packet, now: int, p: Packet, t: int, b: nat)
    requires cfg.Valid() && t < now && Live(c)
    requires Remembers(cfg, c, p, t, b, now, now)
    requires BankReady(cfg, q.kind, c, q.row, now) && (q.kind.READ_P? || q.kind.WRITE_P?) && (cfg.banks == 1 ==> Single(cfg, c, now))
    ensures Remembers(cfg, BankAfter(cfg, q.kind, c, true, q.row, now), p, t, b, now, now + 1)
  {
    hide BankAfter, KeptGap, Returns;
    AutoPrechargeReturns(cfg, c, q, now);
    ReturnPays(cfg, q, p, READ, b);
    ReturnPays(cfg, q, p, WRITE, b);
  }

  /** A later command does not make the table forget. */
  lemma CommandRemembers(cfg: Config, c: BankState, q: Packet, mine: bool, now: int, p: Packet, t: int, b: nat)
    requires cfg.Valid() && t < now
    requires Remembers(cfg, c, p, t, b, now, now)
    requires mine || q.kind.REFRESH? ==> BankReady(cfg, q.kind, c, q.row, now)
    requires mine && (q.kind.IsColumn() || q.kind.PRECHARGE?) ==> Live(c)
    requires mine && q.kind.ACTIVATE? ==> c.state.Idle? && c.countdown == 0
    requires mine && (q.kind.READ_P? || q.kind.WRITE_P?) && cfg.banks == 1 ==> Single(cfg, c, now)
    ensures Remembers(cfg, BankAfter(cfg, q.kind, c, mine, q.row, now), p, t, b, now, now + 1)
  {
    hide Remembers, Later, BankAfter;
    if mine && (q.kind.READ_P? || q.kind.WRITE_P?) {
      AutoPrechargeRemembers(cfg, c, q, now, p, t, b);
    } else {
      CommandLater(cfg, c, q, mine, now);
      LaterRemembers(cfg, c, BankAfter(cfg, q.kind, c, mine, q.row, now), now, p, t, b);
    }
  }

  /** The table takes note of the command it has just been updated for. */
  lemma NewCommandRemembered(cfg: Config, c: BankState, q: Packet, b: nat, now: int)
    requires cfg.Valid()
    requires b == q.bank || q.kind.REFRESH? ==> BankReady(cfg, q.kind, c, q.row, now)
    requires b == q.bank && q.kind.IsColumn() ==> Live(c)
    requires q.kind.READ_P? || q.kind.WRITE_P? ==> cfg.rowPolicy.ClosePage?
    requires b == q.bank && (q.kind.READ_P? || q.kind.WRITE_P?) && cfg.banks == 1 ==> Single(cfg, c, now)
    ensures Remembers(cfg, BankAfter(cfg, q.kind, c, b == q.bank, q.row, now), q, now, b, now, now + 1)
  {
    if b == q.bank && (q.kind.READ_P? || q.kind.WRITE_P?) {
      AutoPrechargeRemembered(cfg, c, q, now);
    } else if q.kind.IsColumn() {
      ColumnRemembered(cfg, c, q, b, now);
    } else {
      RowCommandRemembered(cfg, c, q, b, now);
    }
  }

  lemma AutoPrechargeRemembered(cfg: Config, c: BankState, q: Packet, now: int)
    requires cfg.Valid() && cfg.rowPolicy.ClosePage? && Live(c) && (q.kind.READ_P? || q.kind.WRITE_P?)
    requires cfg.banks == 1 ==> Single(cfg, c, now)
    ensures Remembers(cfg, BankAfter(cfg, q.kind, c, true, q.row, now), q, now, q.bank, now, now + 1)
  {
    hide BankAfter, Returns, EarliestColumn;
    AutoPrechargeReturns(cfg, c, q, now);
    ReturnPays(cfg, q, q, READ, q.bank);
    ReturnPays(cfg, q, q, WRITE, q.bank);
  }

  lemma ColumnRemembered(cfg: Config, c: BankState, q: Packet, b: nat, now: int)
    requires cfg.Valid() && q.kind.IsColumn() && (b == q.bank ==> Live(c) && (q.kind.READ? || q.kind.WRITE?))
    ensures Remembers(cfg, BankAfter(cfg, q.kind, c, b == q.bank, q.row, now), q, now, b, now, now + 1)
  {
    hide EarliestActivate, TurnaroundCovered;
  }

  lemma RowCommandRemembered(cfg: Config, c: BankState, q: Packet, b: nat, now: int)
    requires cfg.Valid() && !q.kind.IsColumn()
    requires b == q.bank || q.kind.REFRESH? ==> BankReady(cfg, q.kind, c, q.row, now)
    ensures Remembers(cfg, BankAfter(cfg, q.kind, c, b == q.bank, q.row, now), q, now, b, now, now + 1)
  {
    hide EarliestActivate, TurnaroundCovered;
  }

  /** A ready command comes no sooner than the remembered distance. */
  lemma ReadyIsSpaced(cfg: Config, banks: seq<BankState>, q: Packet, now: int, p: Packet, t: int)
    requires cfg.Valid() && Ready(cfg, banks, q, now) && p.bank < |banks| && t < now
    requires forall b :: 0 <= b < |banks| ==> Remembers(cfg, banks[b], p, t, b, now, now)
    requires q.kind.IsColumn() ==> Live(banks[q.bank])
    ensures now - t >= KeptGap(cfg, p, q.kind, q.bank)
  {
    assert Remembers(cfg, banks[q.bank], p, t, q.bank, now, now);
    assert Remembers(cfg, banks[p.bank], p, t, p.bank, now, now);
    if q.kind.REFRESH? {
      assert BankReady(cfg, REFRESH, banks[p.bank], q.row, now);
    }
  }
}
