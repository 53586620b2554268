/** The rank as a judge of its own: which sequences of commands it accepts, whoever sends them. */
module RankGuard {
  import opened DramTypes
  import opened Wrappers
  import opened Rank
  import opened CommandSpacing
  import opened RunReady
  import MemorySystem

  /** The rank after one command slot for each cycle from reset, or the fault that a command has raised. */
  function Fed(cfg: Config, trace: seq<Option<Packet>>): Result<RankState> {
    if trace == [] then Ok(MemorySystem.Reset(cfg).rank)
    else
      var r :- Fed(cfg, trace[..|trace| - 1]);
      var last := trace[|trace| - 1];
      var r' :- if last.Some? then Receive(cfg, r, last.value) else Ok(r);
      Ok(r'.(clock := r'.clock + 1))
  }

  /** The cycle of the last refresh. */
  function LastRefresh(trace: seq<Option<Packet>>): nat {
    if trace == [] then 0
    else
      var t := |trace| - 1;
      if trace[t].Some? && trace[t].value.kind.REFRESH? then t else LastRefresh(trace[..t])
  }

  /** The cycle in which bank b was last activated. */
  function LastActivate(trace: seq<Option<Packet>>, b: nat): nat {
    if trace == [] then 0
    else
      var t := |trace| - 1;
      if trace[t].Some? && trace[t].value.kind.ACTIVATE? && trace[t].value.bank == b then t else LastActivate(trace[..t], b)
  }

  /** In cycle n every command from cycle `from` on is as long ago as a command of this kind for bank b demands. */
  ghost predicate FarSince(cfg: Config, trace: seq<Option<Packet>>, from: nat, kind: PacketKind, b: nat, n: int) {
    forall t :: from <= t < |trace| && trace[t].Some? ==> n - t >= MinGap(cfg, trace[t].value, kind, b)
  }

  /**
   * The commands received so far allow this one. An ACTIVATE must be far enough from all commands since the last refresh, which
   * must itself be over; any other command from those since its bank was opened. A refresh only needs all rows closed.
   */
  ghost predicate Legal(cfg: Config, trace: seq<Option<Packet>>, p: Packet) {
    var n, b := |trace|, p.bank;
    if p.kind.REFRESH? then forall x :: 0 <= x < cfg.banks ==> OpenRow(trace, x).None?
    else
      && b < cfg.banks
      && match p.kind
         case ACTIVATE => OpenRow(trace, b).None? && FarSince(cfg, trace, LastRefresh(trace), ACTIVATE, b, n)
         case PRECHARGE => OpenRow(trace, b).Some? && FarSince(cfg, trace, LastActivate(trace, b), PRECHARGE, b, n)
         case DATA => true
         case _ => OpenRow(trace, b) == Some(p.row) && FarSince(cfg, trace, LastActivate(trace, b), p.kind, b, n)
  }

  // ---- One bank ----

  ghost predicate Judges(cfg: Config, c: BankState, trace: seq<Option<Packet>>, b: nat) {
    && (c.state.Idle? || c.state.RowActive?)
    && (c.state.RowActive? <==> OpenRow(trace, b).Some?) && (c.state.RowActive? ==> OpenRow(trace, b) == Some(c.openRow))
    && (forall n: int :: n >= |trace| ==> (c.nextActivate <= n <==> FarSince(cfg, trace, LastRefresh(trace), ACTIVATE, b, n)))
  }

  /** While the bank is open, this is the time from which it takes commands of the given kind. */
  ghost predicate JudgesKind(cfg: Config, next: int, trace: seq<Option<Packet>>, kind: PacketKind, b: nat) {
    forall n: int :: n >= |trace| ==> (next <= n <==> FarSince(cfg, trace, LastActivate(trace, b), kind, b, n))
  }

  ghost predicate JudgesOpen(cfg: Config, c: BankState, trace: seq<Option<Packet>>, b: nat) {
    c.state.RowActive? ==>
      && JudgesKind(cfg, c.nextRead, trace, READ, b) && JudgesKind(cfg, c.nextWrite, trace, WRITE, b)
      && JudgesKind(cfg, c.nextPrecharge, trace, PRECHARGE, b)
  }

  lemma SinceAfter(cfg: Config, trace: seq<Option<Packet>>, last: Option<Packet>, from: nat, kind: PacketKind, b: nat, n: int)
    ensures from <= |trace| ==>
      (FarSince(cfg, trace + [last], from, kind, b, n) <==>
         FarSince(cfg, trace, from, kind, b, n) && (last.Some? ==> n - |trace| >= MinGap(cfg, last.value, kind, b)))
  {
    hide MinGap;
    var trace' := trace + [last];
    assert trace'[|trace|] == last;
    assert forall t :: 0 <= t < |trace| ==> trace'[t] == trace[t];
  }

  lemma SinceLater(cfg: Config, trace: seq<Option<Packet>>, from: nat, kind: PacketKind, b: nat, n: int, m: int)
    ensures n <= m && FarSince(cfg, trace, from, kind, b, n) ==> FarSince(cfg, trace, from, kind, b, m)
    ensures from >= |trace| ==> FarSince(cfg, trace, from, kind, b, n)
  {
    hide MinGap;
  }

  lemma LastsAfter(trace: seq<Option<Packet>>, last: Option<Packet>, b: nat)
    ensures LastRefresh(trace + [last]) == if last.Some? && last.value.kind.REFRESH? then |trace| else LastRefresh(trace)
    ensures LastActivate(trace + [last], b)
      == if last.Some? && last.value.kind.ACTIVATE? && last.value.bank == b then |trace| else LastActivate(trace, b)
    ensures LastRefresh(trace) <= |trace| && LastActivate(trace, b) <= |trace|
  {
    assert (trace + [last])[..|trace|] == trace;
    LastsInside(trace, b);
  }

  lemma {:induction false} LastsInside(trace: seq<Option<Packet>>, b: nat)
    ensures LastRefresh(trace) <= |trace| && LastActivate(trace, b) <= |trace|
  {
    if trace != [] {
      LastsInside(trace[..|trace| - 1], b);
    }
  }

  lemma JudgesAfter(cfg: Config, c: BankState, q: Packet, trace: seq<Option<Packet>>, b: nat)
    requires cfg.Valid() && Judges(cfg, c, trace, b)
    requires b == q.bank || q.kind.REFRESH? ==> BankAllows(q.kind, c, q.row, |trace|)
    ensures Judges(cfg, BankAfter(cfg, q.kind, c, b == q.bank, q.row, |trace|), trace + [Some(q)], b)
  {
    hide FarSince, OpenRow, LastRefresh, LastActivate;
    var now, from := |trace|, LastRefresh(trace);
    OpenAfter(cfg, trace, Some(q), b);
    LastsAfter(trace, Some(q), b);
    forall n: int
      ensures FarSince(cfg, trace + [Some(q)], from, ACTIVATE, b, n)
        <==> FarSince(cfg, trace, from, ACTIVATE, b, n) && n - now >= MinGap(cfg, q, ACTIVATE, b)
      ensures FarSince(cfg, trace + [Some(q)], now, ACTIVATE, b, n) <==> n - now >= MinGap(cfg, q, ACTIVATE, b)
      ensures n >= now && FarSince(cfg, trace, from, ACTIVATE, b, now) ==> FarSince(cfg, trace, from, ACTIVATE, b, n)
    {
      SinceAfter(cfg, trace, Some(q), from, ACTIVATE, b, n);
      SinceAfter(cfg, trace, Some(q), now, ACTIVATE, b, n);
      SinceLater(cfg, trace, now, ACTIVATE, b, n, n);
      SinceLater(cfg, trace, from, ACTIVATE, b, now, n);
    }
  }

  lemma KindAfter(cfg: Config, next: int, next': int, q: Packet, trace: seq<Option<Packet>>, kind: PacketKind, b: nat)
    requires Follows(cfg, next, next', q, kind, b, |trace|)
    requires !(q.kind.ACTIVATE? && q.bank == b) ==> JudgesKind(cfg, next, trace, kind, b)
    ensures JudgesKind(cfg, next', trace + [Some(q)], kind, b)
  {
    hide FarSince, LastRefresh, LastActivate, MinGap;
    var now, from := |trace|, LastActivate(trace, b);
    LastsAfter(trace, Some(q), b);
    forall n: int
      ensures FarSince(cfg, trace + [Some(q)], from, kind, b, n)
        <==> FarSince(cfg, trace, from, kind, b, n) && n - now >= MinGap(cfg, q, kind, b)
      ensures FarSince(cfg, trace + [Some(q)], now, kind, b, n) <==> n - now >= MinGap(cfg, q, kind, b)
    {
      SinceAfter(cfg, trace, Some(q), from, kind, b, n);
      SinceAfter(cfg, trace, Some(q), now, kind, b, n);
      SinceLater(cfg, trace, now, kind, b, n, n);
    }
  }

  /** The time after a command is the distance it demands, or the later of that and the time before. */
  ghost predicate Follows(cfg: Config, next: int, next': int, q: Packet, kind: PacketKind, b: nat, now: int) {
    var gap := MinGap(cfg, q, kind, b);
    if q.kind.ACTIVATE? && q.bank == b then next' == now + gap else next' == Max(next, now + gap) || (next' == next && gap <= 0)
  }

  lemma ReadFollows(cfg: Config, c: BankState, q: Packet, b: nat, now: int)
    requires cfg.Valid()
    ensures
      var c' := BankAfter(cfg, q.kind, c, b == q.bank, q.row, now);
      c'.state.RowActive? ==> Follows(cfg, c.nextRead, c'.nextRead, q, READ, b, now)
  {
  }

  lemma WriteFollows(cfg: Config, c: BankState, q: Packet, b: nat, now: int)
    requires cfg.Valid()
    ensures
      var c' := BankAfter(cfg, q.kind, c, b == q.bank, q.row, now);
      c'.state.RowActive? ==> Follows(cfg, c.nextWrite, c'.nextWrite, q, WRITE, b, now)
  {
  }

  lemma PrechargeFollows(cfg: Config, c: BankState, q: Packet, b: nat, now: int)
    requires cfg.Valid()
    ensures
      var c' := BankAfter(cfg, q.kind, c, b == q.bank, q.row, now);
      c'.state.RowActive? ==> Follows(cfg, c.nextPrecharge, c'.nextPrecharge, q, PRECHARGE, b, now)
  {
  }

  lemma StaysOpen(cfg: Config, c: BankState, q: Packet, b: nat, now: int)
    ensures
      var c' := BankAfter(cfg, q.kind, c, b == q.bank, q.row, now);
      c'.state.RowActive? && !(q.kind.ACTIVATE? && q.bank == b) ==> c.state.RowActive?
  {
  }

  lemma JudgesOpenAfter(cfg: Config, c: BankState, q: Packet, trace: seq<Option<Packet>>, b: nat)
    requires cfg.Valid() && JudgesOpen(cfg, c, trace, b)
    ensures JudgesOpen(cfg, BankAfter(cfg, q.kind, c, b == q.bank, q.row, |trace|), trace + [Some(q)], b)
  {
    hide JudgesKind, BankAfter, MinGap;
    var c' := BankAfter(cfg, q.kind, c, b == q.bank, q.row, |trace|);
    if c'.state.RowActive? {
      StaysOpen(cfg, c, q, b, |trace|);
      ReadFollows(cfg, c, q, b, |trace|);
      WriteFollows(cfg, c, q, b, |trace|);
      PrechargeFollows(cfg, c, q, b, |trace|);
      KindAfter(cfg, c.nextRead, c'.nextRead, q, trace, READ, b);
      KindAfter(cfg, c.nextWrite, c'.nextWrite, q, trace, WRITE, b);
      KindAfter(cfg, c.nextPrecharge, c'.nextPrecharge, q, trace, PRECHARGE, b);
    }
  }

  lemma JudgesPause(cfg: Config, c: BankState, trace: seq<Option<Packet>>, b: nat)
    requires Judges(cfg, c, trace, b) && JudgesOpen(cfg, c, trace, b)
    ensures Judges(cfg, c, trace + [None], b) && JudgesOpen(cfg, c, trace + [None], b)
  {
    hide FarSince, OpenRow, LastRefresh, LastActivate;
    OpenAfter(cfg, trace, None, b);
    LastsAfter(trace, None, b);
    forall n: int, kind: PacketKind, from: nat
      ensures from <= |trace| ==> (FarSince(cfg, trace + [None], from, kind, b, n) <==> FarSince(cfg, trace, from, kind, b, n))
    {
      SinceAfter(cfg, trace, None, from, kind, b, n);
    }
  }

  // ---- The rank ----

  /** Every bank judges by the trace. */
  ghost predicate Informed(cfg: Config, r: RankState, trace: seq<Option<Packet>>) {
    && |r.banks| == cfg.banks && r.clock == |trace|
    && forall b :: 0 <= b < cfg.banks ==> Judges(cfg, r.banks[b], trace, b) && JudgesOpen(cfg, r.banks[b], trace, b)
  }

  lemma AllowsIffLegal(cfg: Config, r: RankState, trace: seq<Option<Packet>>, p: Packet)
    requires cfg.Valid() && Informed(cfg, r, trace)
    ensures Allows(r, p) <==> Legal(cfg, trace, p)
  {
    hide FarSince, OpenRow, LastRefresh, LastActivate;
    if p.kind.REFRESH? {
      forall x | 0 <= x < cfg.banks
        ensures BankAllows(REFRESH, r.banks[x], p.row, r.clock) <==> OpenRow(trace, x).None?
      {
        assert Judges(cfg, r.banks[x], trace, x);
      }
    } else if p.bank < cfg.banks {
      SameSince(cfg, trace, LastActivate(trace, p.bank), p.bank, |trace|);
      BankIffLegal(cfg, r.banks[p.bank], trace, p);
    }
  }

  lemma BankIffLegal(cfg: Config, c: BankState, trace: seq<Option<Packet>>, p: Packet)
    requires p.bank < cfg.banks && !p.kind.REFRESH? && Judges(cfg, c, trace, p.bank) && JudgesOpen(cfg, c, trace, p.bank)
    ensures BankAllows(p.kind, c, p.row, |trace|) <==> Legal(cfg, trace, p)
  {
    hide FarSince, OpenRow, LastRefresh, LastActivate;
    SameSince(cfg, trace, LastActivate(trace, p.bank), p.bank, |trace|);
  }

  lemma SameSince(cfg: Config, trace: seq<Option<Packet>>, from: nat, b: nat, n: int)
    ensures FarSince(cfg, trace, from, READ_P, b, n) <==> FarSince(cfg, trace, from, READ, b, n)
    ensures FarSince(cfg, trace, from, WRITE_P, b, n) <==> FarSince(cfg, trace, from, WRITE, b, n)
  {
    hide MinGap;
    forall p: Packet
      ensures MinGap(cfg, p, READ_P, b) == MinGap(cfg, p, READ, b)
      ensures MinGap(cfg, p, WRITE_P, b) == MinGap(cfg, p, WRITE, b)
    {
      SameGap(cfg, p, b);
    }
  }

  lemma FedInformed(cfg: Config, r: RankState, trace: seq<Option<Packet>>, last: Option<Packet>)
    requires cfg.Valid() && Informed(cfg, r, trace) && (last.Some? ==> Allows(r, last.value))
    ensures
      var r' := if last.Some? then Receive(cfg, r, last.value) else Ok(r);
      r'.Ok? && Informed(cfg, r'.value.(clock := r'.value.clock + 1), trace + [last])
  {
    hide Judges, JudgesOpen, BankAfter, BankAllows;
    var r' := (if last.Some? then Receive(cfg, r, last.value) else Ok(r)).value;
    forall b | 0 <= b < cfg.banks
      ensures Judges(cfg, r'.banks[b], trace + [last], b) && JudgesOpen(cfg, r'.banks[b], trace + [last], b)
    {
      if last.Some? {
        JudgesAfter(cfg, r.banks[b], last.value, trace, b);
        JudgesOpenAfter(cfg, r.banks[b], last.value, trace, b);
      } else {
        JudgesPause(cfg, r.banks[b], trace, b);
      }
    }
  }

  lemma ResetInformed(cfg: Config)
    requires cfg.Valid()
    ensures Informed(cfg, MemorySystem.Reset(cfg).rank, [])
  {
  }

  /** Each command of the trace was legal when it came. */
  ghost predicate AllLegal(cfg: Config, trace: seq<Option<Packet>>) {
    forall i :: 0 <= i < |trace| && trace[i].Some? ==> Legal(cfg, trace[..i], trace[i].value)
  }

  lemma AllLegalSnoc(cfg: Config, front: seq<Option<Packet>>, last: Option<Packet>)
    ensures AllLegal(cfg, front + [last]) <==> AllLegal(cfg, front) && (last.Some? ==> Legal(cfg, front, last.value))
  {
    hide Legal;
    var trace := front + [last];
    assert trace[..|front|] == front && trace[|front|] == last;
    forall i | 0 <= i < |front|
      ensures trace[..i] == front[..i] && trace[i] == front[i]
    {
    }
  }

  /** The rank accepts a sequence of commands, one a cycle, if and only if each is legal after those before it. */
  lemma {:induction false} AcceptsIff(cfg: Config, trace: seq<Option<Packet>>)
    requires cfg.Valid()
    ensures Fed(cfg, trace).Ok? <==> AllLegal(cfg, trace)
    ensures Fed(cfg, trace).Ok? ==> Informed(cfg, Fed(cfg, trace).value, trace)
  {
    hide Informed, Legal, Receive, Allows;
    if trace == [] {
      ResetInformed(cfg);
    } else {
      var front, last := trace[..|trace| - 1], trace[|trace| - 1];
      assert front + [last] == trace;
      AcceptsIff(cfg, front);
      AllLegalSnoc(cfg, front, last);
      if Fed(cfg, front).Ok? {
        var r := Fed(cfg, front).value;
        if last.Some? {
          AllowsIffLegal(cfg, r, front, last.value);
          Refuses(cfg, r, last.value);
        }
        if last.Some? ==> Allows(r, last.value) {
          FedInformed(cfg, r, front, last);
        }
      }
    }
  }

  lemma Refuses(cfg: Config, r: RankState, p: Packet)
    ensures Receive(cfg, r, p).Ok? <==> Allows(r, p)
  {
  }
}
