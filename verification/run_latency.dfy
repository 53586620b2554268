/** How long data takes: every read is answered and every write completed a fixed number of cycles after its command. */
module RunLatency {
  import opened DramTypes
  import opened Wrappers
  import opened MemoryController
  import opened MemorySystem
  import opened TransactionFlow
  import opened BusTiming
  import opened DataPaths
  import opened Runs
  import opened RunProgress
  import opened RunServed
  import opened RunPower
  import Rank
  import SystemSafety

  // ---- One data path with its packets ----

  /** The packets of a data path: those that wait, how long each still waits, and the one on the bus. */
  datatype Line = Line(packets: seq<Packet>, countdown: seq<nat>, bus: Option<Packet>, left: nat)

  function ReadLine(r: RankState): Line {
    Line(r.readPackets, r.readCountdown, r.outgoing, r.dataCyclesLeft)
  }

  function WriteLine(m: ControllerState): Line {
    Line(m.writePackets, m.writeCountdown, m.dataBus, m.dataCyclesLeft)
  }

  /** One cycle of a path: the packet that leaves the bus, if any, and what remains. */
  function AgeLine(cfg: Config, f: Line): (Line, Option<Packet>)
    requires |f.packets| == |f.countdown|
  {
    var left := if f.bus.Some? then Dec32(f.left) else f.left;
    var done := if f.bus.Some? && left == 0 then f.bus else None;
    var kept := if f.bus.Some? && left == 0 then None else f.bus;
    var aged := DecAll(f.countdown);
    if |aged| > 0 && aged[0] == 0 then (Line(f.packets[1..], aged[1..], Some(f.packets[0]), cfg.BL / 2), done)
    else (Line(f.packets, aged, kept, left), done)
  }

  function JoinLine(f: Line, more: Option<Packet>, latency: nat): Line {
    if more.Some? then f.(packets := f.packets + [more.value], countdown := f.countdown + [latency]) else f
  }

  function DataOf(p: Packet): Packet {
    p.(kind := DATA)
  }

  function ReadData(p: Option<Packet>): Option<Packet> {
    if IsReadPacket(p) then Some(DataOf(p.value)) else None
  }

  function WriteData(p: Option<Packet>): Option<Packet> {
    if IsWritePacket(p) then Some(DataOf(p.value)) else None
  }

  // ---- One cycle ----

  lemma RankAgesLine(cfg: Config, r: RankState)
    requires |r.readPackets| == |r.readCountdown|
    ensures
      var (r', delivered) := Rank.Update(cfg, r);
      ReadLine(r') == AgeLine(cfg, ReadLine(r)).0 && delivered == AgeLine(cfg, ReadLine(r)).1
  {
  }

  lemma CommandJoinsLine(cfg: Config, m: ControllerState, r: RankState)
    requires DeliverCommand(cfg, m, r).Ok? && (m.cmdBus.Some? ==> m.cmdCyclesLeft == 1)
    ensures
      var (m', r') := DeliverCommand(cfg, m, r).value;
      WriteLine(m') == WriteLine(m) && ReadLine(r') == JoinLine(ReadLine(r), ReadData(m.cmdBus), cfg.CL + cfg.AL)
  {
    hide Rank.Allows, Rank.TableAfter;
  }

  lemma WritesAgeLine(cfg: Config, m: ControllerState, r: RankState)
    requires DeliverData(cfg, m, r).Ok? && SendWriteData(cfg, DeliverData(cfg, m, r).value.0).Ok?
    requires |m.writePackets| == |m.writeCountdown|
    ensures
      var (m', _, written) := DeliverData(cfg, m, r).value;
      WriteLine(SendWriteData(cfg, m').value) == AgeLine(cfg, WriteLine(m)).0 && written == AgeLine(cfg, WriteLine(m)).1
  {
    hide Rank.Receive;
  }

  lemma ServedLines(cfg: Config, m: ControllerState, r: RankState, now: int)
    requires SystemSafety.RankAhead(cfg, m, r, now) && r.clock == now + 1
    ensures ServeBuses(cfg, m, r).Ok? && |m.writePackets| == |m.writeCountdown|
    ensures
      var (m', r', written) := ServeBuses(cfg, m, r).value;
      && WriteLine(m') == AgeLine(cfg, WriteLine(m)).0 && written == AgeLine(cfg, WriteLine(m)).1
      && ReadLine(r') == JoinLine(ReadLine(r), ReadData(m.cmdBus), cfg.CL + cfg.AL)
  {
    hide DeliverCommand, DeliverData, SendWriteData, AgeLine, JoinLine, SystemSafety.Sound;
    SystemSafety.CommandArrives(cfg, m, r, now);
    var m1 := m.(banks := AgeBanks(cfg, m.banks));
    var (m2, r2) := DeliverCommand(cfg, m1, r).value;
    SystemSafety.WritesCatchUp(cfg, m2, r2, now + 1);
    CommandJoinsLine(cfg, m1, r);
    WritesAgeLine(cfg, m2, r2);
  }

  /** What comes back is handed on as the answer to a read of its address. */
  lemma AnswerIsDelivered(m: ControllerState, delivered: Option<Packet>)
    requires ReturnRead(m).Ok? && (if delivered.Some? then |m.finished| == 1 && m.finished[0].address == delivered.value.address else m.finished == [])
    ensures
      var answer := ReturnRead(m).value.1;
      if delivered.Some? then answer.Some? && answer.value.address == delivered.value.address else answer.None?
  {
  }

  lemma BeginReturns(cfg: Config, s: System)
    requires Begin(cfg, s).Ok? && s.controller.finished == []
    ensures
      var m, delivered := Begin(cfg, s).value.0, Rank.Update(cfg, s.rank).1;
      if delivered.Some? then |m.finished| == 1 && m.finished[0].address == delivered.value.address else m.finished == []
  {
    hide Rank.Update;
  }

  lemma CycleLines(cfg: Config, s: System)
    requires Steady(cfg, s) && s.controller.finished == []
    ensures MemorySystem.Shaped(cfg, s) && Cycle(cfg, s).Ok?
    ensures |s.rank.readPackets| == |s.rank.readCountdown| && |s.controller.writePackets| == |s.controller.writeCountdown|
    ensures
      var (s', out) := Cycle(cfg, s).value;
      var (aging, answered) := AgeLine(cfg, ReadLine(s.rank));
      var (writes, written) := AgeLine(cfg, WriteLine(s.controller));
      && ReadLine(s'.rank) == JoinLine(aging, ReadData(s.controller.cmdBus), cfg.CL + cfg.AL)
      && WriteLine(s'.controller) == JoinLine(writes, WriteData(out.issued), WriteLatency(cfg))
      && (if answered.Some? then out.returned.Some? && out.returned.value.address == answered.value.address else out.returned.None?)
      && out.written == written && s'.controller.cmdBus == out.issued
  {
    hide Cycle, Begin, MemoryController.Update, ServeBuses, Issue, Split, ManagePower, ReturnRead, AgeLine, JoinLine, SystemSafety.Sound,
      ReadData, WriteData, Clear;
    SteadyShaped(cfg, s);
    LinesPair(cfg, s);
    BeginAhead(cfg, s);
    var (m, r) := Begin(cfg, s).value;
    var now := s.controller.clock - 1;
    RankAgesLine(cfg, s.rank);
    BeginReturns(cfg, s);
    ServedLines(cfg, m, r, now);
    var m4, m5, r5, m6, m7, m8, r8 := UpdatePhases(cfg, m, r, now);
    IssueEffect(cfg, m5, m6);
    IssueJoins(cfg, m5, m6);
    SplitEffect(cfg, m6, m7);
    SystemSafety.PowerEffect(cfg, m7, r5);
    AnswerIsDelivered(m8, Rank.Update(cfg, s.rank).1);
    ReturnEffect(m8);
    CycleParts(cfg, s);
  }

  lemma IssueJoins(cfg: Config, m: ControllerState, m': ControllerState)
    requires m'.dataBus == m.dataBus && m'.dataCyclesLeft == m.dataCyclesLeft
    requires
      if m'.cmdBus.Some? && m'.cmdBus.value.kind.IsWrite()
      then m'.writePackets == m.writePackets + [m'.cmdBus.value.(kind := DATA)] && m'.writeCountdown == m.writeCountdown + [WriteLatency(cfg)]
      else m'.writePackets == m.writePackets && m'.writeCountdown == m.writeCountdown
    ensures WriteLine(m') == JoinLine(WriteLine(m), WriteData(m'.cmdBus), WriteLatency(cfg))
  {
  }

  lemma LinesPair(cfg: Config, s: System)
    requires Steady(cfg, s)
    ensures |s.rank.readPackets| == |s.rank.readCountdown| && |s.controller.writePackets| == |s.controller.writeCountdown|
    ensures Clear(cfg, ReadLine(s.rank)) && Clear(cfg, WriteLine(s.controller))
  {
  }

  /** The waiting packets are spaced by a burst, and the bus is free when the next one needs it. */
  predicate Clear(cfg: Config, f: Line) {
    && |f.packets| == |f.countdown| && Spaced(f.countdown, cfg.Burst())
    && (f.bus.Some? ==> f.left >= 1 && forall i :: 0 <= i < |f.countdown| ==> f.countdown[i] >= f.left)
  }

  // ---- The path and the trace ----

  function Slot(trace: seq<Option<Packet>>, i: int): Option<Packet> {
    if 0 <= i < |trace| then trace[i] else None
  }

  /** The data that goes with a command slot. */
  function Data(read: bool, p: Option<Packet>): Option<Packet> {
    if read then ReadData(p) else WriteData(p)
  }

  predicate Waits(f: Line, c: int) {
    exists k :: 0 <= k < |f.countdown| && f.countdown[k] == c
  }

  /** The path holds the data of the commands in the slots after base up to hi, each waiting as many cycles as it is after base. */
  ghost predicate HoldsWaiting(cfg: Config, f: Line, read: bool, trace: seq<Option<Packet>>, base: int, hi: int) {
    && |f.packets| == |f.countdown|
    && (forall k :: 0 <= k < |f.countdown| ==>
          f.countdown[k] >= 1 && base + f.countdown[k] <= hi && Data(read, Slot(trace, base + f.countdown[k])) == Some(f.packets[k]))
    && (forall i :: base < i <= hi && Data(read, Slot(trace, i)).Some? ==> Waits(f, i - base))
  }

  /** On the bus is the data of a command in the last burst's length of slots up to base. */
  ghost predicate HoldsBus(cfg: Config, f: Line, read: bool, trace: seq<Option<Packet>>, base: int) {
    && (f.bus.Some? ==> 1 <= f.left <= cfg.Burst() && Data(read, Slot(trace, base - cfg.Burst() + f.left)) == f.bus)
    && (forall i :: base - cfg.Burst() < i <= base && Data(read, Slot(trace, i)).Some? ==> f.bus.Some? && f.left == i - base + cfg.Burst())
  }

  ghost predicate Holds(cfg: Config, f: Line, read: bool, trace: seq<Option<Packet>>, base: int, hi: int) {
    HoldsWaiting(cfg, f, read, trace, base, hi) && HoldsBus(cfg, f, read, trace, base)
  }

  lemma AgedWaits(f: Line, f': Line, c: int)
    requires c > 1 && Waits(f, c)
    requires if |f.countdown| > 0 && f.countdown[0] == 1 then f'.countdown == DecAll(f.countdown)[1..] else f'.countdown == DecAll(f.countdown)
    ensures Waits(f', c - 1)
  {
    var k :| 0 <= k < |f.countdown| && f.countdown[k] == c;
    var k' := if f.countdown[0] == 1 then k - 1 else k;
    assert f'.countdown[k'] == c - 1;
  }

  /** Which entry of the path each entry has been before. */
  function Before(f: Line, k: nat): nat {
    if |f.countdown| > 0 && f.countdown[0] == 1 then k + 1 else k
  }

  lemma AgedEntries(cfg: Config, f: Line)
    requires Clear(cfg, f) && cfg.BL >= 2
    ensures
      var aged := AgeLine(cfg, f).0;
      && |aged.packets| == |aged.countdown|
      && (if |f.countdown| > 0 && f.countdown[0] == 1 then aged.countdown == DecAll(f.countdown)[1..] else aged.countdown == DecAll(f.countdown))
      && forall k :: 0 <= k < |aged.countdown| ==>
           var j := Before(f, k);
           j < |f.countdown| && f.countdown[j] == aged.countdown[k] + 1 >= 2 && f.packets[j] == aged.packets[k]
  {
  }

  lemma AgedEntry(cfg: Config, f: Line, read: bool, trace: seq<Option<Packet>>, base: int, hi: int, k: nat)
    requires Clear(cfg, f) && HoldsWaiting(cfg, f, read, trace, base, hi) && cfg.BL >= 2 && k < |AgeLine(cfg, f).0.countdown|
    ensures
      var aged := AgeLine(cfg, f).0;
      && aged.countdown[k] >= 1 && base + 1 + aged.countdown[k] <= hi && k < |aged.packets|
      && Data(read, Slot(trace, base + 1 + aged.countdown[k])) == Some(aged.packets[k])
  {
    hide Data, Slot, Waits, AgeLine, Clear, DecAll;
    AgedEntries(cfg, f);
    var j := Before(f, k);
    assert base + f.countdown[j] == base + 1 + AgeLine(cfg, f).0.countdown[k];
  }

  lemma AgedSlot(cfg: Config, f: Line, read: bool, trace: seq<Option<Packet>>, base: int, hi: int, i: int)
    requires Clear(cfg, f) && HoldsWaiting(cfg, f, read, trace, base, hi) && cfg.BL >= 2
    requires base + 1 < i <= hi && Data(read, Slot(trace, i)).Some?
    ensures Waits(AgeLine(cfg, f).0, i - (base + 1))
  {
    hide Data, Slot, Waits, AgeLine, Clear, DecAll;
    AgedEntries(cfg, f);
    AgedWaits(f, AgeLine(cfg, f).0, i - base);
  }

  lemma WaitingAges(cfg: Config, f: Line, read: bool, trace: seq<Option<Packet>>, base: int, hi: int)
    requires |f.packets| == |f.countdown| && base < hi && Clear(cfg, f) && HoldsWaiting(cfg, f, read, trace, base, hi) && cfg.BL >= 2
    ensures HoldsWaiting(cfg, AgeLine(cfg, f).0, read, trace, base + 1, hi)
  {
    hide HoldsWaiting, Data, Slot, Waits, AgeLine, Clear;
    AgedEntries(cfg, f);
    var aged := AgeLine(cfg, f).0;
    forall i | base + 1 < i <= hi && Data(read, Slot(trace, i)).Some?
      ensures Waits(aged, i - (base + 1))
    {
      AgedSlot(cfg, f, read, trace, base, hi, i);
    }
    forall k | 0 <= k < |aged.countdown|
      ensures aged.countdown[k] >= 1 && base + 1 + aged.countdown[k] <= hi
      ensures Data(read, Slot(trace, base + 1 + aged.countdown[k])) == Some(aged.packets[k])
    {
      AgedEntry(cfg, f, read, trace, base, hi, k);
    }
    WaitingFrom(cfg, aged, read, trace, base + 1, hi);
  }

  lemma WaitingFrom(cfg: Config, f: Line, read: bool, trace: seq<Option<Packet>>, base: int, hi: int)
    requires |f.packets| == |f.countdown|
    requires forall k :: 0 <= k < |f.countdown| ==>
      f.countdown[k] >= 1 && base + f.countdown[k] <= hi && Data(read, Slot(trace, base + f.countdown[k])) == Some(f.packets[k])
    requires forall i :: base < i <= hi && Data(read, Slot(trace, i)).Some? ==> Waits(f, i - base)
    ensures HoldsWaiting(cfg, f, read, trace, base, hi)
  {
  }

  /** What leaves the bus belongs to the command before those that are still on their way. */
  lemma BusAges(cfg: Config, f: Line, read: bool, trace: seq<Option<Packet>>, base: int, hi: int)
    requires base < hi && Clear(cfg, f) && Holds(cfg, f, read, trace, base, hi) && cfg.BL >= 2
    ensures
      var (aged, done) := AgeLine(cfg, f);
      done == Data(read, Slot(trace, base - cfg.Burst() + 1)) && HoldsBus(cfg, aged, read, trace, base + 1)
  {
    hide Data, Slot;
    if Data(read, Slot(trace, base + 1)).Some? {
      assert Waits(f, 1);
      assert f.countdown[0] == 1;
    }
  }

  lemma HoldsJoined(cfg: Config, f: Line, read: bool, trace: seq<Option<Packet>>, base: int, hi: int)
    requires base <= hi && Holds(cfg, f, read, trace, base, hi)
    ensures Holds(cfg, JoinLine(f, Data(read, Slot(trace, hi + 1)), hi + 1 - base), read, trace, base, hi + 1)
  {
    hide Data, Slot, Waits;
    var more := Data(read, Slot(trace, hi + 1));
    var f' := JoinLine(f, more, hi + 1 - base);
    forall i | base < i <= hi + 1 && Data(read, Slot(trace, i)).Some?
      ensures Waits(f', i - base)
    {
      JoinedWaits(f, f', i - base, hi + 1 - base);
    }
  }

  lemma JoinedWaits(f: Line, f': Line, c: int, added: int)
    ensures f.countdown <= f'.countdown && Waits(f, c) ==> Waits(f', c)
    ensures added >= 0 && f'.countdown == f.countdown + [added] ==> Waits(f', added)
  {
    if f.countdown <= f'.countdown && Waits(f, c) {
      var k :| 0 <= k < |f.countdown| && f.countdown[k] == c;
      assert f'.countdown[k] == c;
    }
    if added >= 0 && f'.countdown == f.countdown + [added] {
      assert f'.countdown[|f.countdown|] == added;
    }
  }

  lemma HoldsExtended(cfg: Config, f: Line, read: bool, trace: seq<Option<Packet>>, last: Option<Packet>, base: int, hi: int)
    requires hi < |trace| && base <= hi && Holds(cfg, f, read, trace, base, hi)
    ensures Holds(cfg, f, read, trace + [last], base, hi)
  {
    hide Data, Waits;
    assert forall i :: i <= hi ==> Slot(trace + [last], i) == Slot(trace, i);
  }

  // ---- Runs ----

  /** Both paths of a run, and the command on the bus. */
  ghost predicate Lines(cfg: Config, t: Trail) {
    var n := |t.trace|;
    && t.system.controller.cmdBus == Slot(t.trace, n - 1)
    && Holds(cfg, ReadLine(t.system.rank), true, t.trace, n - 2 - cfg.RL(), n - 2)
    && Holds(cfg, WriteLine(t.system.controller), false, t.trace, n - 1 - cfg.WL(), n - 1)
  }

  lemma ResetLines(cfg: Config)
    requires cfg.Valid()
    ensures Lines(cfg, Trail(Reset(cfg), [], [], [], []))
  {
  }

  lemma TickLines(cfg: Config, t: Trail, t': Trail, out: Output)
    requires cfg.Valid() && Steady(cfg, t.system) && t.system.controller.finished == [] && Lines(cfg, t)
    requires MemorySystem.Shaped(cfg, t.system) && Cycle(cfg, t.system) == Ok((t'.system, out)) && t'.trace == t.trace + [out.issued]
    ensures Lines(cfg, t')
    ensures
      var n := |t.trace|;
      var answered, written := Data(true, Slot(t'.trace, n - 1 - cfg.RL() - cfg.Burst())), Data(false, Slot(t'.trace, n - cfg.WL() - cfg.Burst()));
      && (if answered.Some? then out.returned.Some? && out.returned.value.address == answered.value.address else out.returned.None?)
      && out.written == written
  {
    hide Cycle, Steady, MemorySystem.Shaped, Holds, HoldsBus, AgeLine, JoinLine, Clear;
    var n := |t.trace|;
    var reads', writes' := ReadLine(t.system.rank), WriteLine(t.system.controller);
    LinesPair(cfg, t.system);
    CycleLines(cfg, t.system);
    HoldsExtended(cfg, reads', true, t.trace, out.issued, n - 2 - cfg.RL(), n - 2);
    HoldsExtended(cfg, writes', false, t.trace, out.issued, n - 1 - cfg.WL(), n - 1);
    HoldsAged(cfg, reads', true, t'.trace, n - 2 - cfg.RL(), n - 2);
    HoldsAged(cfg, writes', false, t'.trace, n - 1 - cfg.WL(), n - 1);
    HoldsJoined(cfg, AgeLine(cfg, reads').0, true, t'.trace, n - 1 - cfg.RL(), n - 2);
    HoldsJoined(cfg, AgeLine(cfg, writes').0, false, t'.trace, n - cfg.WL(), n - 1);
    assert Slot(t'.trace, n - 1) == Slot(t.trace, n - 1) && Slot(t'.trace, n) == out.issued;
  }

  lemma HoldsAged(cfg: Config, f: Line, read: bool, trace: seq<Option<Packet>>, base: int, hi: int)
    requires base < hi && Clear(cfg, f) && Holds(cfg, f, read, trace, base, hi) && cfg.BL >= 2
    ensures
      var (aged, done) := AgeLine(cfg, f);
      done == Data(read, Slot(trace, base - cfg.Burst() + 1)) && Holds(cfg, aged, read, trace, base + 1, hi)
  {
    hide Data, Slot, AgeLine, HoldsWaiting, HoldsBus;
    BusAges(cfg, f, read, trace, base, hi);
    WaitingAges(cfg, f, read, trace, base, hi);
  }

  lemma {:induction false} RunLines(cfg: Config, events: seq<Event>)
    requires cfg.Valid()
    ensures Run(cfg, events).Ok? && Lines(cfg, Run(cfg, events).value)
  {
    hide Run, Steady, Cycle, MemorySystem.Shaped, Lines, RunServed.Prompt;
    NoFault(cfg, events);
    if events == [] {
      RunOfNothing(cfg);
      ResetLines(cfg);
    } else {
      var before := events[..|events| - 1];
      RunLines(cfg, before);
      NoFault(cfg, before);
      NothingFinished(cfg, before);
      var t := Run(cfg, before).value;
      match events[|events| - 1]
      case Arrive(tr) =>
        RunArrives(cfg, events, t, tr);
        AddLines(cfg, t, Run(cfg, events).value, tr);
      case Tick =>
        CycleSteady(cfg, t.system);
        RunTicks(cfg, events, t, Cycle(cfg, t.system).value.0, Cycle(cfg, t.system).value.1);
        TickLines(cfg, t, Run(cfg, events).value, Cycle(cfg, t.system).value.1);
    }
  }

  lemma NothingFinished(cfg: Config, events: seq<Event>)
    requires cfg.Valid()
    ensures Run(cfg, events).Ok? && Run(cfg, events).value.system.controller.finished == []
  {
    hide Run;
    RunPrompt(cfg, events);
  }

  lemma AddLines(cfg: Config, t: Trail, t': Trail, tr: Transaction)
    requires Lines(cfg, t) && t'.trace == t.trace && t'.system == Add(cfg, t.system, tr)
    ensures Lines(cfg, t')
  {
    hide Holds;
  }

  // ---- The theorem ----

  /** The command that was sent in cycle n, if any. */
  function SentIn(trace: seq<Option<Packet>>, n: int): Option<Packet> {
    if 0 <= n < |trace| then trace[n] else None
  }

  /**
   * In every run a cycle answers a read exactly if the command of AL + CL + BL / 2 + 1 cycles ago was a read, with one of its
   * address, and completes a write exactly if that of AL + CL - 1 + BL / 2 cycles ago was a write, with its data.
   */
  lemma RunLatencyIs(cfg: Config, events: seq<Event>)
    requires cfg.Valid()
    ensures Run(cfg, events).Ok? && Run(cfg, Ticked(events)).Ok?
    ensures
      var t, t' := Run(cfg, events).value, Run(cfg, Ticked(events)).value;
      var n := |t.trace|;
      var read, write := SentIn(t'.trace, n - (cfg.AL + cfg.CL + cfg.BL / 2 + 1)), SentIn(t'.trace, n - (cfg.AL + cfg.CL - 1 + cfg.BL / 2));
      && |t'.trace| == n + 1
      && (if read.Some? && (read.value.kind.READ? || read.value.kind.READ_P?)
          then exists x: Transaction :: t'.returned == t.returned + [x] && x.address == read.value.address
          else t'.returned == t.returned)
      && (if write.Some? && (write.value.kind.WRITE? || write.value.kind.WRITE_P?)
          then t'.written == t.written + [write.value.(kind := DATA)]
          else t'.written == t.written)
  {
    hide Run, Steady, Cycle, MemorySystem.Shaped, Lines;
    NoFault(cfg, events);
    NoFault(cfg, Ticked(events));
    RunLines(cfg, events);
    NothingFinished(cfg, events);
    var t := Run(cfg, events).value;
    assert Ticked(events)[..|events|] == events;
    CycleSteady(cfg, t.system);
    var (s', out) := Cycle(cfg, t.system).value;
    RunTicks(cfg, Ticked(events), t, s', out);
    TickLines(cfg, t, Run(cfg, Ticked(events)).value, out);
    OneAnswer(t.returned, out.returned);
  }

  lemma OneAnswer(returned: seq<Transaction>, answer: Option<Transaction>)
    ensures if answer.Some? then returned + OptionSeq(answer) == returned + [answer.value] else returned + OptionSeq(answer) == returned
  {
  }
}
