/**
 * The two data paths. Write data waits in the controller for the write latency and read data waits in
 * the rank for the read latency; both lists are spaced by at least one burst, and no bank may start a
 * column access that would bring its burst onto the bus before the last one has left it.
 */
module BusTiming {
  import opened DramTypes
  import opened Wrappers
  import opened MemoryController

  predicate Spaced(w: seq<nat>, gap: int) {
    && (forall i :: 0 <= i < |w| ==> w[i] >= 1)
    && (forall i, j :: 0 <= i < j < |w| ==> w[j] >= w[i] + gap)
  }

  /** A column access at the bank's next read or write time, delayed by `latency`, misses everything up to `until`. */
  predicate Clears(b: BankState, latency: int, until: int) {
    b.nextRead + latency >= until && b.nextWrite + latency >= until
  }

  predicate AllClear(banks: seq<BankState>, latency: int, until: int) {
    forall i :: 0 <= i < |banks| ==> Clears(banks[i], latency, until)
  }

  /** Pending countdowns w and a burst with `left` cycles to go, as seen at the end of cycle `now`. */
  predicate Flow(cfg: Config, banks: seq<BankState>, w: seq<nat>, busy: bool, left: nat, latency: int, now: int) {
    && Spaced(w, cfg.Burst())
    && (busy ==> left >= 1 && (forall i :: 0 <= i < |w| ==> w[i] >= left) && AllClear(banks, latency, now + left))
    && (|w| > 0 ==> AllClear(banks, latency, now + w[|w| - 1] + cfg.Burst()))
  }

  predicate AllData(cfg: Config, s: seq<Packet>) {
    forall i :: 0 <= i < |s| ==> s[i].kind.DATA? && s[i].bank < cfg.banks
  }

  predicate IsData(cfg: Config, p: Option<Packet>) {
    p.Some? ==> p.value.kind.DATA? && p.value.bank < cfg.banks
  }

  predicate WriteBus(cfg: Config, m: ControllerState, now: int) {
    && |m.writePackets| == |m.writeCountdown| && AllData(cfg, m.writePackets) && IsData(cfg, m.dataBus)
    && Flow(cfg, m.banks, m.writeCountdown, m.dataBus.Some?, m.dataCyclesLeft, cfg.WL(), now)
  }

  predicate ReadPipe(cfg: Config, banks: seq<BankState>, r: RankState, now: int) {
    && |r.readPackets| == |r.readCountdown| && AllData(cfg, r.readPackets) && IsData(cfg, r.outgoing)
    && Flow(cfg, banks, r.readCountdown, r.outgoing.Some?, r.dataCyclesLeft, cfg.RL() + 1, now)
  }

  /** A read on the command bus that reaches the rank in cycle `arrive` will find its slot free. */
  predicate ReadDue(cfg: Config, banks: seq<BankState>, r: RankState, arrive: int, now: int) {
    && (r.outgoing.Some? ==> arrive + cfg.RL() >= now + r.dataCyclesLeft)
    && (|r.readCountdown| > 0 ==> arrive + cfg.RL() >= now + r.readCountdown[|r.readCountdown| - 1] + cfg.Burst())
    && AllClear(banks, 1, arrive + cfg.Burst())
  }

  lemma SpacedAges(w: seq<nat>, gap: int)
    requires Spaced(w, gap) && gap >= 1 && |w| > 0
    ensures w[0] > 1 ==> Spaced(DecAll(w), gap)
    ensures Spaced(DecAll(w)[1..], gap)
    ensures forall i :: 0 <= i < |w| - 1 ==> DecAll(w)[1..][i] >= w[0] - 1 + gap
  {
    var rest := DecAll(w)[1..];
    assert forall i :: 0 <= i < |rest| ==> rest[i] == w[i + 1] - 1 && w[i + 1] >= w[0] + gap;
  }

  /** The flow after one cycle: counters age, a finished burst leaves and the next one starts. */
  lemma FlowAges(cfg: Config, banks: seq<BankState>, w: seq<nat>, busy: bool, left: nat, latency: int, now: int)
    requires cfg.BL >= 2 && Flow(cfg, banks, w, busy, left, latency, now)
    ensures
      var left' := if busy then Dec32(left) else left;
      var busy' := busy && left' != 0;
      var aged := DecAll(w);
      if |w| > 0 && aged[0] == 0 then !busy' && Flow(cfg, banks, aged[1..], true, cfg.BL / 2, latency, now + 1)
      else Flow(cfg, banks, aged, busy', left', latency, now + 1)
  {
    var left' := if busy then Dec32(left) else left;
    var busy' := busy && left' != 0;
    var aged := DecAll(w);
    if |w| > 0 {
      SpacedAges(w, cfg.Burst());
      assert now + 1 + aged[|w| - 1] == now + w[|w| - 1];
      if aged[0] == 0 {
        assert w[0] == 1;
        assert AllClear(banks, latency, now + 1 + cfg.Burst()) by {
          ClearEarlier(banks, latency, now + w[|w| - 1] + cfg.Burst(), now + 1 + cfg.Burst());
        }
      }
    }
  }

  lemma ClearEarlier(banks: seq<BankState>, latency: int, until: int, until': int)
    requires AllClear(banks, latency, until) && until' <= until
    ensures AllClear(banks, latency, until')
  {
    forall i | 0 <= i < |banks|
      ensures Clears(banks[i], latency, until')
    {
      assert Clears(banks[i], latency, until);
    }
  }

  /** A new burst joins the flow; `banks'` is the table after the column command that causes it. */
  lemma FlowGrows(cfg: Config, banks: seq<BankState>, banks': seq<BankState>, w: seq<nat>, busy: bool, left: nat,
                  latency: int, add: nat, now: int)
    requires cfg.Valid() && Flow(cfg, banks, w, busy, left, latency, now) && |banks'| == |banks|
    requires add >= 1
    requires busy ==> add >= left
    requires |w| > 0 ==> add >= w[|w| - 1] + cfg.Burst()
    requires AllClear(banks', latency, now + add + cfg.Burst())
    ensures Flow(cfg, banks', w + [add], busy, left, latency, now)
  {
    var w' := w + [add];
    forall i, j | 0 <= i < j < |w'|
      ensures w'[j] >= w'[i] + cfg.Burst()
    {
      if j == |w| {
        assert w[i] <= w[|w| - 1];
      }
    }
  }

  lemma FlowTable(cfg: Config, banks: seq<BankState>, banks': seq<BankState>, w: seq<nat>, busy: bool, left: nat, latency: int, now: int)
    requires Flow(cfg, banks, w, busy, left, latency, now)
    requires forall until :: AllClear(banks, latency, until) ==> AllClear(banks', latency, until)
    ensures Flow(cfg, banks', w, busy, left, latency, now)
  {
  }

  /** A legal command never lets a later burst come earlier than the table allowed before. */
  lemma CommandKeepsClear(cfg: Config, p: Packet, banks: seq<BankState>, now: int, latency: int, until: int)
    requires cfg.Valid() && AllClear(banks, latency, until)
    requires p.kind.IsColumn() ==> p.bank < |banks|
    requires p.kind.IsRead() ==> banks[p.bank].nextRead <= now
    requires p.kind.IsWrite() ==> banks[p.bank].nextWrite <= now
    ensures AllClear(TableAfter(cfg, p, banks, now), latency, until)
  {
    forall i | 0 <= i < |banks|
      ensures Clears(TableAfter(cfg, p, banks, now)[i], latency, until)
    {
      assert Clears(banks[i], latency, until);
    }
  }

  /** After a column command every bank keeps a burst away from it. */
  lemma ColumnClears(cfg: Config, p: Packet, banks: seq<BankState>, now: int)
    requires cfg.Valid() && p.kind.IsColumn()
    ensures AllClear(TableAfter(cfg, p, banks, now), 0, now + cfg.Burst())
  {
  }
}
