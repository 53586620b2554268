/** What holds in every run of the memory system. */
module Runs {
  import opened DramTypes
  import opened Wrappers
  import opened MemoryController
  import opened MemorySystem
  import opened SystemSafety
  import opened Collecting
  import opened ReadConservation
  import opened QueueDiscipline
  import opened TableRefinement
  import opened BusTiming
  import Rank

  /** The invariant between two events. */
  ghost predicate Steady(cfg: Config, s: System) {
    && Sound(cfg, s.controller, s.rank, s.controller.clock - 1, s.controller.clock)
    && s.rank.clock == s.controller.clock && s.controller.queue.clock == s.controller.clock
  }

  lemma ResetSteady(cfg: Config)
    requires cfg.Valid()
    ensures Steady(cfg, Reset(cfg))
  {
    hide Linked, Disciplined, Conserved, WriteBus, ReadPipe;
    ResetLinked(cfg);
    ResetDisciplined(cfg);
    ResetConserved(cfg);
  }

  lemma ResetLinked(cfg: Config)
    requires cfg.Valid()
    ensures
      var s := Reset(cfg);
      Linked(cfg, s.controller, s.rank, -1, 0) && WriteBus(cfg, s.controller, -1) && ReadPipe(cfg, s.controller.banks, s.rank, -1)
  {
  }

  lemma ResetDisciplined(cfg: Config)
    requires cfg.Valid()
    ensures Disciplined(cfg, Reset(cfg).controller.banks, Reset(cfg).controller.queue)
  {
  }

  lemma ResetConserved(cfg: Config)
    ensures Conserved(cfg, Reset(cfg).controller, Reset(cfg).rank)
  {
    var s := Reset(cfg);
    forall a: nat
      ensures Collect(s.controller.pendingReads, WaitingAt(a)) == Flight(cfg, s.controller, s.rank, a)
    {
    }
  }

  /** The invariant does not look at the transactions that wait to be split. */
  lemma WaitingRoom(cfg: Config, m: ControllerState, m': ControllerState, r: RankState)
    requires m' == m.(transactions := m'.transactions)
    ensures forall now, arrive :: Sound(cfg, m, r, now, arrive) ==> Sound(cfg, m', r, now, arrive)
    ensures forall now :: RankAhead(cfg, m, r, now) ==> RankAhead(cfg, m', r, now)
  {
    forall now, arrive | Linked(cfg, m, r, now, arrive)
      ensures Linked(cfg, m', r, now, arrive)
    {
      SameLink(cfg, m, r, m', r, now, arrive);
    }
    assert forall a: nat :: Flight(cfg, m', r, a) == Flight(cfg, m, r, a);
  }

  lemma AddSteady(cfg: Config, s: System, t: Transaction)
    requires Steady(cfg, s)
    ensures Steady(cfg, Add(cfg, s, t))
  {
    if WillAccept(cfg, s.controller) {
      WaitingRoom(cfg, s.controller, Accept(cfg, s.controller, t), s.rank);
    }
  }

  /** The state with which the controller's update of a cycle begins. */
  lemma BeginAhead(cfg: Config, s: System)
    requires Steady(cfg, s)
    ensures Begin(cfg, s).Ok?
    ensures
      var (m, r) := Begin(cfg, s).value;
      && RankAhead(cfg, m, r, s.controller.clock - 1)
      && m.clock == s.controller.clock && r.clock == m.clock && m.queue.clock == m.clock
  {
    RankStarts(cfg, s.controller, s.rank, s.controller.clock - 1);
    var (r, delivered) := Rank.Update(cfg, s.rank);
    var m1 := (if delivered.Some? then ReceiveData(s.controller, delivered.value) else Ok(s.controller)).value;
    WaitingRoom(cfg, m1, Begin(cfg, s).value.0, r);
  }

  lemma SteadyShaped(cfg: Config, s: System)
    requires Steady(cfg, s)
    ensures Shaped(cfg, s)
  {
  }

  /** A cycle is the controller's update between two steps of the clock. */
  lemma CycleParts(cfg: Config, s: System)
    requires Shaped(cfg, s) && Begin(cfg, s).Ok?
    requires MemoryController.Update(cfg, Begin(cfg, s).value.0, Begin(cfg, s).value.1).Ok?
    ensures Cycle(cfg, s).Ok?
    ensures
      var (m', r', out) := MemoryController.Update(cfg, Begin(cfg, s).value.0, Begin(cfg, s).value.1).value;
      && Cycle(cfg, s).value.1 == out
      && Cycle(cfg, s).value.0.controller == m'.(clock := m'.clock + 1)
      && Cycle(cfg, s).value.0.rank == r'.(clock := r'.clock + 1)
      && Cycle(cfg, s).value.0.pending == (if Admitted(cfg, s).Some? then s.pending[1..] else s.pending)
  {
    hide MemoryController.Update;
  }

  /** One cycle from a steady state raises no fault and ends in a steady state. */
  lemma CycleSteady(cfg: Config, s: System)
    requires Steady(cfg, s)
    ensures Shaped(cfg, s) && Cycle(cfg, s).Ok?
    ensures Steady(cfg, Cycle(cfg, s).value.0) && Cycle(cfg, s).value.0.controller.clock == s.controller.clock + 1
  {
    SteadyShaped(cfg, s);
    BeginAhead(cfg, s);
    var (m, r) := Begin(cfg, s).value;
    UpdateSound(cfg, m, r, s.controller.clock - 1);
    CycleParts(cfg, s);
    var (m', r', out) := MemoryController.Update(cfg, m, r).value;
    ClocksStep(cfg, m', r', s.controller.clock);
  }

  lemma ClocksStep(cfg: Config, m: ControllerState, r: RankState, now: int)
    requires Sound(cfg, m, r, now, now + 1)
    ensures Sound(cfg, m.(clock := m.clock + 1), r.(clock := r.clock + 1), now, now + 1)
  {
    var m', r' := m.(clock := m.clock + 1), r.(clock := r.clock + 1);
    SameLink(cfg, m, r, m', r', now, now + 1);
    assert forall a: nat :: Flight(cfg, m', r', a) == Flight(cfg, m, r, a);
  }

  /** A run whose last event is a tick. */
  lemma RunTicks(cfg: Config, events: seq<Event>, t: Trail, s': System, out: Output)
    requires |events| > 0 && events[|events| - 1].Tick? && Run(cfg, events[..|events| - 1]) == Ok(t)
    requires Shaped(cfg, t.system) && Cycle(cfg, t.system) == Ok((s', out))
    ensures Run(cfg, events)
         == Ok(Trail(s', t.trace + [out.issued], t.accepted + OptionSeq(Admitted(cfg, t.system)),
                     t.returned + OptionSeq(out.returned), t.written + OptionSeq(out.written)))
  {
  }

  /** A run whose last event is a request. */
  lemma RunArrives(cfg: Config, events: seq<Event>, t: Trail, tr: Transaction)
    requires |events| > 0 && events[|events| - 1] == Arrive(tr) && Run(cfg, events[..|events| - 1]) == Ok(t)
    ensures Run(cfg, events)
         == Ok(t.(system := Add(cfg, t.system, tr),
                  accepted := if WillAccept(cfg, t.system.controller) then t.accepted + [tr] else t.accepted))
  {
  }

  /**
   * In every run from reset, under every sequence of requests and ticks, no fault is ever raised: the rank
   * accepts every command, power-down and power-up, the buses never collide, no queue overflows and every
   * read that comes back finds its transaction.
   */
  lemma {:induction false} NoFault(cfg: Config, events: seq<Event>)
    requires cfg.Valid()
    ensures Run(cfg, events).Ok?
    ensures Steady(cfg, Run(cfg, events).value.system)
    ensures Run(cfg, events).value.system.controller.clock == |Run(cfg, events).value.trace|
  {
    if events == [] {
      ResetSteady(cfg);
    } else {
      NoFault(cfg, events[..|events| - 1]);
      var t := Run(cfg, events[..|events| - 1]).value;
      match events[|events| - 1]
      case Arrive(tr) => AddSteady(cfg, t.system, tr);
      case Tick => CycleSteady(cfg, t.system);
    }
  }
}
