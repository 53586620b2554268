/** The two data paths, read and write: the entries on their way and the burst on the bus. */
module DataPaths {
  import opened DramTypes
  import opened Wrappers
  import opened MemoryController
  import opened MemorySystem
  import opened TransactionFlow
  import opened BusTiming
  import opened Runs
  import Rank
  import SystemSafety

  /** The countdowns of a data path and the burst on the bus, if any. */
  datatype Path = Path(countdown: seq<nat>, busy: bool, left: nat)

  function ReadPath(r: RankState): Path {
    Path(r.readCountdown, r.outgoing.Some?, r.dataCyclesLeft)
  }

  function WritePath(m: ControllerState): Path {
    Path(m.writeCountdown, m.dataBus.Some?, m.dataCyclesLeft)
  }

  function AgePath(cfg: Config, p: Path): Path {
    var left := if p.busy then Dec32(p.left) else p.left;
    var aged := DecAll(p.countdown);
    if |aged| > 0 && aged[0] == 0 then Path(aged[1..], true, cfg.BL / 2) else Path(aged, p.busy && left != 0, left)
  }

  predicate IsReadPacket(p: Option<Packet>) {
    p.Some? && p.value.kind.IsRead()
  }

  predicate IsWritePacket(p: Option<Packet>) {
    p.Some? && p.value.kind.IsWrite()
  }

  function Joined(p: Path, more: bool, latency: nat): Path {
    if more then p.(countdown := p.countdown + [latency]) else p
  }

  lemma CommandJoinsPath(cfg: Config, m: ControllerState, r: RankState)
    requires DeliverCommand(cfg, m, r).Ok? && (m.cmdBus.Some? ==> m.cmdCyclesLeft == 1)
    ensures
      var (m', r') := DeliverCommand(cfg, m, r).value;
      && WritePath(m') == WritePath(m) && |m'.writePackets| == |m.writePackets|
      && ReadPath(r') == Joined(ReadPath(r), IsReadPacket(m.cmdBus), cfg.CL + cfg.AL)
  {
    hide Rank.Allows, Rank.TableAfter, Rank.BankAfter;
  }

  lemma WritesAgePath(cfg: Config, m: ControllerState, r: RankState)
    requires DeliverData(cfg, m, r).Ok? && SendWriteData(cfg, DeliverData(cfg, m, r).value.0).Ok?
    requires |m.writePackets| == |m.writeCountdown|
    ensures WritePath(SendWriteData(cfg, DeliverData(cfg, m, r).value.0).value) == AgePath(cfg, WritePath(m))
  {
    hide Rank.Receive;
  }

  /** What serving the buses does to both paths. */
  lemma ServedPaths(cfg: Config, m: ControllerState, r: RankState, now: int)
    requires SystemSafety.RankAhead(cfg, m, r, now) && r.clock == now + 1
    ensures ServeBuses(cfg, m, r).Ok?
    ensures
      var (m', r', _) := ServeBuses(cfg, m, r).value;
      && WritePath(m') == AgePath(cfg, WritePath(m))
      && ReadPath(r') == Joined(ReadPath(r), IsReadPacket(m.cmdBus), cfg.CL + cfg.AL)
  {
    hide DeliverCommand, DeliverData, SendWriteData, AgePath, Joined, SystemSafety.Sound;
    SystemSafety.CommandArrives(cfg, m, r, now);
    var m1 := m.(banks := AgeBanks(cfg, m.banks));
    var (m2, r2) := DeliverCommand(cfg, m1, r).value;
    SystemSafety.WritesCatchUp(cfg, m2, r2, now + 1);
    CommandJoinsPath(cfg, m1, r);
    WritesAgePath(cfg, m2, r2);
  }

  lemma RankAgesPath(cfg: Config, r: RankState)
    requires |r.readPackets| == |r.readCountdown|
    ensures ReadPath(Rank.Update(cfg, r).0) == AgePath(cfg, ReadPath(r))
  {
  }

  /** What a cycle does to both paths: a read on the command bus and a write just issued join the end. */
  lemma CyclePaths(cfg: Config, s: System)
    requires Steady(cfg, s)
    ensures MemorySystem.Shaped(cfg, s) && Cycle(cfg, s).Ok?
    ensures
      var (s', out) := Cycle(cfg, s).value;
      && ReadPath(s'.rank) == Joined(AgePath(cfg, ReadPath(s.rank)), IsReadPacket(s.controller.cmdBus), cfg.CL + cfg.AL)
      && WritePath(s'.controller)
         == Joined(AgePath(cfg, WritePath(s.controller)), IsWritePacket(out.issued), WriteLatency(cfg))
      && s'.controller.cmdBus == out.issued
  {
    hide Cycle, MemoryController.Update, ServeBuses, Issue, Split, ManagePower, ReturnRead, AgePath, SystemSafety.Sound;
    SteadyShaped(cfg, s);
    BeginAhead(cfg, s);
    var (m, r) := Begin(cfg, s).value;
    var now := s.controller.clock - 1;
    RankAgesPath(cfg, s.rank);
    ServedPaths(cfg, m, r, now);
    var m4, m5, r5, m6, m7, m8, r8 := UpdatePhases(cfg, m, r, now);
    IssueEffect(cfg, m5, m6);
    SplitEffect(cfg, m6, m7);
    SystemSafety.PowerEffect(cfg, m7, r5);
    ReturnEffect(m8);
    CycleParts(cfg, s);
  }

  predicate Quiet(p: Path) {
    p.countdown == [] && !p.busy
  }

  /** The cycles until the path is empty. */
  function Remaining(cfg: Config, p: Path): int {
    if |p.countdown| > 0 then p.countdown[|p.countdown| - 1] + cfg.Burst() else if p.busy then p.left else 0
  }

  predicate Timely(cfg: Config, p: Path) {
    Spaced(p.countdown, cfg.Burst()) && (p.busy ==> p.left >= 1)
  }

  lemma RemainingAges(cfg: Config, p: Path)
    requires cfg.BL >= 2 && Timely(cfg, p)
    ensures Remaining(cfg, AgePath(cfg, p)) <= Max(Remaining(cfg, p) - 1, 0)
    ensures Remaining(cfg, p) >= 0 && (Remaining(cfg, p) == 0 <==> Quiet(p))
  {
  }

  /** No entry has longer to go than its latency, and no burst longer than its length. */
  predicate Within(cfg: Config, p: Path, latency: nat) {
    (forall i :: 0 <= i < |p.countdown| ==> p.countdown[i] <= latency) && (p.busy ==> p.left <= cfg.Burst())
  }

  lemma WithinAges(cfg: Config, p: Path, latency: nat, more: bool)
    requires Timely(cfg, p) && Within(cfg, p, latency)
    ensures Within(cfg, Joined(AgePath(cfg, p), more, latency), latency)
  {
  }

  lemma SteadyTimely(cfg: Config, s: System)
    requires Steady(cfg, s)
    ensures Timely(cfg, ReadPath(s.rank)) && Timely(cfg, WritePath(s.controller))
  {
  }
}
