/** The shared data bus: read bursts driven by the rank and write bursts driven by the controller never overlap. */
module DataBus {
  import opened DramTypes
  import opened Wrappers
  import opened MemoryController
  import opened TableRefinement
  import opened BusTiming
  import opened SystemSafety
  import Rank

  /** A write that may follow a read at the least distance leaves the rank a cycle to let go of the bus. */
  predicate BusHandedOver(cfg: Config) {
    cfg.tRTRS >= 1 || (cfg.rowPolicy.ClosePage? && cfg.banks == 1)
  }

  /**
   * The first cycle in which the bank can be sent a write, by its table and by the steps it still has to go through. It was
   * last aged in cycle base, and next is the first cycle that is still to be served.
   */
  function WriteFrom(c: BankState, base: int, next: int): (w: int)
    ensures w >= c.nextWrite
  {
    Max(c.nextWrite,
        if c.state.RowActive? then (if c.countdown > 0 then base + c.countdown + 2 else next)
        else if c.state.Idle? || c.state.PowerDown? then next + 1
        else Max(next, base + 1) + 1)
  }

  /** x is the first cycle of a burst: of one that waits, or of the one on the bus with `left` cycles to go. */
  predicate Starts(cfg: Config, w: seq<nat>, busy: bool, left: nat, now: int, x: int) {
    || (busy && x == now + left - cfg.Burst())
    || (exists i :: 0 <= i < |w| && x == now + w[i])
  }

  predicate WriteStarts(cfg: Config, m: ControllerState, now: int, x: int) {
    Starts(cfg, m.writeCountdown, m.dataBus.Some?, m.dataCyclesLeft, now, x)
  }

  /** A read on the command bus counts as soon as it is sent. */
  predicate ReadStarts(cfg: Config, m: ControllerState, r: RankState, now: int, arrive: int, y: int) {
    || Starts(cfg, r.readCountdown, r.outgoing.Some?, r.dataCyclesLeft, now, y)
    || (ReadOnBus(m) && y == arrive + cfg.RL())
  }

  predicate Disjoint(cfg: Config, x: int, y: int) {
    x + cfg.Burst() <= y || y + cfg.Burst() <= x
  }

  /** No write burst overlaps a read burst, and no bank may start a write that would. */
  ghost predicate Exclusive(cfg: Config, m: ControllerState, r: RankState, wNow: int, rNow: int, arrive: int, base: int, next: int) {
    && (m.dataBus.Some? ==> m.dataCyclesLeft <= cfg.Burst())
    && (r.outgoing.Some? ==> r.dataCyclesLeft <= cfg.Burst())
    && (forall x, y :: WriteStarts(cfg, m, wNow, x) && ReadStarts(cfg, m, r, rNow, arrive, y) ==> Disjoint(cfg, x, y))
    && (forall b, y :: 0 <= b < |m.banks| && ReadStarts(cfg, m, r, rNow, arrive, y) ==>
          WriteFrom(m.banks[b], base, next) + cfg.WL() >= y + cfg.Burst())
  }

  /** One cycle later the same bursts start at the same times; some may be over. */
  lemma StartsAge(cfg: Config, banks: seq<BankState>, w: seq<nat>, busy: bool, left: nat, latency: int, now: int, x: int)
    requires cfg.BL >= 2 && Flow(cfg, banks, w, busy, left, latency, now)
    ensures
      var left' := if busy then Dec32(left) else left;
      var busy' := busy && left' != 0;
      var aged := DecAll(w);
      if |w| > 0 && aged[0] == 0
      then Starts(cfg, aged[1..], true, cfg.BL / 2, now + 1, x) ==> Starts(cfg, w, busy, left, now, x)
      else Starts(cfg, aged, busy', left', now + 1, x) ==> Starts(cfg, w, busy, left, now, x)
  {
    var left' := if busy then Dec32(left) else left;
    var busy' := busy && left' != 0;
    var aged := DecAll(w);
    if |w| > 0 && aged[0] == 0 {
      if Starts(cfg, aged[1..], true, cfg.BL / 2, now + 1, x) && x != now + 1 {
        var i :| 0 <= i < |aged[1..]| && x == now + 1 + aged[1..][i];
        assert x == now + w[i + 1];
      } else {
        assert now + 1 == now + w[0];
      }
    } else if Starts(cfg, aged, busy', left', now + 1, x) && !(busy' && x == now + 1 + left' - cfg.Burst()) {
      var i :| 0 <= i < |aged| && x == now + 1 + aged[i];
      assert x == now + w[i];
    }
  }

  /** Where the bursts of the two sides stand. */
  datatype View = View(m: ControllerState, r: RankState, wNow: int, rNow: int, arrive: int, base: int, next: int)

  ghost predicate Sub(cfg: Config, v': View, v: View) {
    && (forall x :: WriteStarts(cfg, v'.m, v'.wNow, x) ==> WriteStarts(cfg, v.m, v.wNow, x))
    && (forall y :: ReadStarts(cfg, v'.m, v'.r, v'.rNow, v'.arrive, y) ==> ReadStarts(cfg, v.m, v.r, v.rNow, v.arrive, y))
    && (v'.m.dataBus.Some? ==> v'.m.dataCyclesLeft <= cfg.Burst())
    && (v'.r.outgoing.Some? ==> v'.r.dataCyclesLeft <= cfg.Burst())
    && |v'.m.banks| == |v.m.banks|
    && (forall b :: 0 <= b < |v.m.banks| ==>
          WriteFrom(v'.m.banks[b], v'.base, v'.next) >= WriteFrom(v.m.banks[b], v.base, v.next))
  }

  ghost predicate Apart(cfg: Config, v: View) {
    Exclusive(cfg, v.m, v.r, v.wNow, v.rNow, v.arrive, v.base, v.next)
  }

  /** A view with no new bursts and no earlier writes stays exclusive. */
  lemma SubApart(cfg: Config, v': View, v: View)
    requires Apart(cfg, v) && Sub(cfg, v', v)
    ensures Apart(cfg, v')
  {
    forall b, y | 0 <= b < |v'.m.banks| && ReadStarts(cfg, v'.m, v'.r, v'.rNow, v'.arrive, y)
      ensures WriteFrom(v'.m.banks[b], v'.base, v'.next) + cfg.WL() >= y + cfg.Burst()
    {
      assert ReadStarts(cfg, v.m, v.r, v.rNow, v.arrive, y);
    }
  }

  lemma RankStartsApart(cfg: Config, v: View, m': ControllerState)
    requires cfg.Valid() && ReadPipe(cfg, v.m.banks, v.r, v.rNow) && Apart(cfg, v)
    requires m' == v.m.(finished := m'.finished, transactions := m'.transactions)
    ensures Apart(cfg, v.(m := m', r := Rank.Update(cfg, v.r).0, rNow := v.rNow + 1))
  {
    var v' := v.(m := m', r := Rank.Update(cfg, v.r).0, rNow := v.rNow + 1);
    forall y | ReadStarts(cfg, v'.m, v'.r, v'.rNow, v'.arrive, y)
      ensures ReadStarts(cfg, v.m, v.r, v.rNow, v.arrive, y)
    {
      StartsAge(cfg, v.m.banks, v.r.readCountdown, v.r.outgoing.Some?, v.r.dataCyclesLeft, cfg.RL() + 1, v.rNow, y);
    }
    SubApart(cfg, v', v);
  }

  /** Aging brings no bank closer to its next write. */
  lemma AgedWriteFrom(cfg: Config, c: BankState, r: BankState, now: int)
    requires cfg.Valid() && Rel(cfg, c, r, now)
    ensures WriteFrom(AgeBank(cfg, c), now + 1, now + 1) >= WriteFrom(c, now, now + 1)
  {
  }

  lemma AgedTableApart(cfg: Config, v: View, now: int)
    requires cfg.Valid() && Apart(cfg, v) && Linked(cfg, v.m, v.r, now, now + 1) && v.base == now && v.next == now + 1
    ensures Apart(cfg, v.(m := v.m.(banks := AgeBanks(cfg, v.m.banks)), base := now + 1))
  {
    hide AgeBank, WriteFrom;
    forall b | 0 <= b < |v.m.banks|
      ensures WriteFrom(AgeBanks(cfg, v.m.banks)[b], now + 1, now + 1) >= WriteFrom(v.m.banks[b], now, now + 1)
    {
      AgedWriteFrom(cfg, v.m.banks[b], Expected(cfg, v.m, v.r, b, now + 1), now);
    }
    SubApart(cfg, v.(m := v.m.(banks := AgeBanks(cfg, v.m.banks)), base := now + 1), v);
  }

  lemma DeliveryApart(cfg: Config, v: View)
    requires cfg.Valid() && Apart(cfg, v) && v.arrive == v.rNow
    requires DeliverCommand(cfg, v.m, v.r).Ok? && DeliverCommand(cfg, v.m, v.r).value.0.cmdBus.None?
    ensures Apart(cfg, v.(m := DeliverCommand(cfg, v.m, v.r).value.0, r := DeliverCommand(cfg, v.m, v.r).value.1, arrive := v.arrive + 1))
  {
    var (m', r') := DeliverCommand(cfg, v.m, v.r).value;
    var v' := View(m', r', v.wNow, v.rNow, v.arrive + 1, v.base, v.next);
    forall y | ReadStarts(cfg, v'.m, v'.r, v'.rNow, v'.arrive, y)
      ensures ReadStarts(cfg, v.m, v.r, v.rNow, v.arrive, y)
    {
      var w, w' := v.r.readCountdown, r'.readCountdown;
      if !(r'.outgoing.Some? && y == v.rNow + r'.dataCyclesLeft - cfg.Burst()) {
        var i :| 0 <= i < |w'| && y == v.rNow + w'[i];
        if i < |w| {
          assert y == v.rNow + w[i];
        }
      }
    }
    SubApart(cfg, v', v);
  }

  lemma WritesAgeApart(cfg: Config, v: View)
    requires cfg.Valid() && Apart(cfg, v) && WriteBus(cfg, v.m, v.wNow)
    requires DeliverData(cfg, v.m, v.r).Ok? && SendWriteData(cfg, DeliverData(cfg, v.m, v.r).value.0).Ok?
    requires DeliverData(cfg, v.m, v.r).value.1 == v.r
    ensures Apart(cfg, v.(m := SendWriteData(cfg, DeliverData(cfg, v.m, v.r).value.0).value, wNow := v.wNow + 1))
  {
    hide Rank.Receive, Spaced, AllClear, AllData;
    var v' := v.(m := SendWriteData(cfg, DeliverData(cfg, v.m, v.r).value.0).value, wNow := v.wNow + 1);
    forall x | WriteStarts(cfg, v'.m, v'.wNow, x)
      ensures WriteStarts(cfg, v.m, v.wNow, x)
    {
      StartsAge(cfg, v.m.banks, v.m.writeCountdown, v.m.dataBus.Some?, v.m.dataCyclesLeft, cfg.WL(), v.wNow, x);
    }
    SubApart(cfg, v', v);
  }

  /** Every write burst ends before a read that the table allows now would begin. */
  lemma ReadAfterWrites(cfg: Config, m: ControllerState, now: int, b: nat, x: int)
    requires cfg.Valid() && WriteBus(cfg, m, now) && b < |m.banks| && m.banks[b].nextRead <= now
    requires WriteStarts(cfg, m, now, x)
    ensures x + cfg.Burst() <= now + 1 + cfg.RL()
  {
    var w := m.writeCountdown;
    if m.dataBus.Some? && x == now + m.dataCyclesLeft - cfg.Burst() {
      assert Clears(m.banks[b], cfg.WL(), now + m.dataCyclesLeft);
    } else {
      var i :| 0 <= i < |w| && x == now + w[i];
      assert w[i] <= w[|w| - 1];
      assert Clears(m.banks[b], cfg.WL(), now + w[|w| - 1] + cfg.Burst());
    }
  }

  /** Every read burst ends before a read that the table allows now would begin. */
  lemma ReadAfterReads(cfg: Config, banks: seq<BankState>, r: RankState, now: int, b: nat, y: int)
    requires cfg.Valid() && ReadPipe(cfg, banks, r, now) && b < |banks| && banks[b].nextRead <= now
    requires Starts(cfg, r.readCountdown, r.outgoing.Some?, r.dataCyclesLeft, now, y)
    ensures y + cfg.Burst() <= now + 1 + cfg.RL()
  {
    var w := r.readCountdown;
    if r.outgoing.Some? && y == now + r.dataCyclesLeft - cfg.Burst() {
      assert Clears(banks[b], cfg.RL() + 1, now + r.dataCyclesLeft);
    } else {
      var i :| 0 <= i < |w| && y == now + w[i];
      assert w[i] <= w[|w| - 1];
      assert Clears(banks[b], cfg.RL() + 1, now + w[|w| - 1] + cfg.Burst());
    }
  }

  /** A command other than a read brings no bank closer to its next write, and a read leaves time for its burst. */
  lemma CommandWriteFrom(cfg: Config, c: BankState, p: Packet, b: nat, now: int)
    requires cfg.Valid() && (b == p.bank || p.kind.REFRESH? ==> BankReady(cfg, p.kind, c, p.row, now))
    requires b == p.bank && (p.kind.IsColumn() || p.kind.PRECHARGE?) ==> c.countdown == 0
    requires b == p.bank && p.kind.ACTIVATE? ==> c.state.Idle? && c.countdown == 0
    ensures
      var from := WriteFrom(BankAfter(cfg, p.kind, c, b == p.bank, p.row, now), now, now + 1);
      && (from >= WriteFrom(c, now, now) || (b == p.bank && p.kind.READ_P?))
      && (b == p.bank && p.kind.READ_P? ==> from >= now + cfg.Burst() + 2)
      && (p.kind.IsRead() && b < cfg.banks && p.bank < cfg.banks && BusHandedOver(cfg) ==> from >= now + cfg.Burst() + 2)
  {
  }

  /** What a command adds to the bursts: a write after every read, or a read after every write. */
  lemma IssueApart(cfg: Config, v: View, m': ControllerState, p: Packet)
    requires cfg.Valid() && BusHandedOver(cfg) && Apart(cfg, v) && v.wNow == v.rNow == v.base == v.next && v.arrive == v.rNow + 1
    requires WriteBus(cfg, v.m, v.wNow) && ReadPipe(cfg, v.m.banks, v.r, v.rNow) && |v.m.banks| == cfg.banks
    requires Ready(cfg, v.m.banks, p, v.wNow) && v.m.cmdBus.None?
    requires p.kind.IsColumn() || p.kind.PRECHARGE? ==> v.m.banks[p.bank].countdown == 0
    requires p.kind.ACTIVATE? ==> v.m.banks[p.bank].state.Idle? && v.m.banks[p.bank].countdown == 0
    requires m'.banks == TableAfter(cfg, p, v.m.banks, v.wNow) && m'.cmdBus == Some(p)
    requires m'.dataBus == v.m.dataBus && m'.dataCyclesLeft == v.m.dataCyclesLeft
    requires m'.writeCountdown == if p.kind.IsWrite() then v.m.writeCountdown + [WriteLatency(cfg)] else v.m.writeCountdown
    ensures Apart(cfg, v.(m := m', next := v.next + 1))
  {
    hide WriteFrom, BankAfter;
    var now := v.wNow;
    forall x | WriteStarts(cfg, m', now, x)
      ensures WriteStarts(cfg, v.m, now, x) || (p.kind.IsWrite() && x == now + cfg.WL())
    {
      if !(m'.dataBus.Some? && x == now + m'.dataCyclesLeft - cfg.Burst()) {
        var i :| 0 <= i < |m'.writeCountdown| && x == now + m'.writeCountdown[i];
        assert i < |v.m.writeCountdown| ==> x == now + v.m.writeCountdown[i];
      }
    }
    forall y | ReadStarts(cfg, m', v.r, v.rNow, v.arrive, y)
      ensures ReadStarts(cfg, v.m, v.r, v.rNow, v.arrive, y) || (p.kind.IsRead() && y == now + 1 + cfg.RL())
    {
    }
    forall x, y | WriteStarts(cfg, m', now, x) && ReadStarts(cfg, m', v.r, v.rNow, v.arrive, y)
      ensures Disjoint(cfg, x, y)
    {
      if !ReadStarts(cfg, v.m, v.r, v.rNow, v.arrive, y) {
        ReadAfterWrites(cfg, v.m, now, p.bank, x);
      } else if !WriteStarts(cfg, v.m, now, x) {
        WriteReady(cfg, v.m.banks[p.bank], p, now);
        assert WriteFrom(v.m.banks[p.bank], now, now) + cfg.WL() >= y + cfg.Burst();
      }
    }
    forall b, y | 0 <= b < |m'.banks| && ReadStarts(cfg, m', v.r, v.rNow, v.arrive, y)
      ensures WriteFrom(m'.banks[b], now, now + 1) + cfg.WL() >= y + cfg.Burst()
    {
      CommandWriteFrom(cfg, v.m.banks[b], p, b, now);
      if ReadStarts(cfg, v.m, v.r, v.rNow, v.arrive, y) {
        assert WriteFrom(v.m.banks[b], now, now) + cfg.WL() >= y + cfg.Burst();
        if b == p.bank && p.kind.READ_P? {
          ReadAfterReads(cfg, v.m.banks, v.r, v.rNow, p.bank, y);
        }
      }
    }
  }

  /** A write that goes out now could not have gone out earlier. */
  lemma WriteReady(cfg: Config, c: BankState, p: Packet, now: int)
    requires BankReady(cfg, p.kind, c, p.row, now) && p.kind.IsWrite() && c.countdown == 0
    ensures WriteFrom(c, now, now) == now
  {
  }
}
