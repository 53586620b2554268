/** The memory system: one rank and its controller, stepped in a fixed order. */
module MemorySystem {
  import opened DramTypes
  import opened Wrappers
  import opened MemoryController
  import CommandQueue
  import RefreshSchedule
  import Rank

  datatype System = System(rank: RankState, controller: ControllerState, pending: seq<Transaction>)

  datatype Event = Arrive(transaction: Transaction) | Tick

  function Reset(cfg: Config): System
  {
    var banks := seq(cfg.banks, _ => RESET_BANK);
    System(
      Rank.RankState(banks, false, false, [], [], None, 0, 0),
      ControllerState(
        banks,
        CommandQueue.QueueState(seq(CommandQueue.QueueCount(cfg), _ => []), [], seq(cfg.banks, _ => 0), 0, 0, false, true, 0),
        None, 0, None, 0, [], [], RefreshSchedule.Initial(1, cfg.refreshCycles), false, [], [], [], 0),
      [])
  }

  /** A request from outside goes to the controller if it has room, otherwise to the overflow queue. */
  function Add(cfg: Config, s: System, t: Transaction): System {
    if WillAccept(cfg, s.controller) then s.(controller := Accept(cfg, s.controller, t))
    else s.(pending := s.pending + [t])
  }

  predicate Shaped(cfg: Config, s: System) {
    CommandQueue.Shaped(cfg, s.controller.banks, s.controller.queue) && RefreshShaped(s.controller.refresh)
  }

  /** The transaction that a cycle takes over from the overflow queue, if any. */
  function Admitted(cfg: Config, s: System): Option<Transaction> {
    if |s.pending| > 0 && WillAccept(cfg, s.controller) then Some(s.pending[0]) else None
  }

  /** The start of a cycle: the rank moves its data on and one overflow transaction is admitted. */
  function Begin(cfg: Config, s: System): (res: Result<(ControllerState, RankState)>)
    ensures res.Ok? ==>
              var m := res.value.0;
              && m == s.controller.(finished := m.finished, transactions := m.transactions)
              && m.transactions == s.controller.transactions + OptionSeq(Admitted(cfg, s))
              && res.value.1 == Rank.Update(cfg, s.rank).0
  {
    var (r, delivered) := Rank.Update(cfg, s.rank);
    var m :- if delivered.Some? then ReceiveData(s.controller, delivered.value) else Ok(s.controller);
    Ok((if |s.pending| > 0 && WillAccept(cfg, m) then Accept(cfg, m, s.pending[0]) else m, r))
  }

  /** One clock cycle. */
  function Cycle(cfg: Config, s: System): Result<(System, Output)>
    requires Shaped(cfg, s)
  {
    var (m, r) :- Begin(cfg, s);
    var (m', r', output) :- MemoryController.Update(cfg, m, r);
    Ok((System(r'.(clock := r'.clock + 1), m'.(clock := m'.clock + 1),
               if Admitted(cfg, s).Some? then s.pending[1..] else s.pending), output))
  }

  /** A run so far: where it stands and what could be observed of it. */
  datatype Trail = Trail(
    system: System,
    trace: seq<Option<Packet>>,
    accepted: seq<Transaction>,
    returned: seq<Transaction>,
    written: seq<Packet>)

  /** One event; a table index out of range would end the run like any other fault. */
  function Advance(cfg: Config, t: Trail, e: Event): Result<Trail> {
    match e
    case Arrive(tr) =>
      Ok(t.(system := Add(cfg, t.system, tr),
            accepted := if WillAccept(cfg, t.system.controller) then t.accepted + [tr] else t.accepted))
    case Tick =>
      if !Shaped(cfg, t.system) then Err(IndexOutOfRange)
      else
        var (s', out) :- Cycle(cfg, t.system);
        Ok(Trail(s', t.trace + [out.issued], t.accepted + OptionSeq(Admitted(cfg, t.system)),
                 t.returned + OptionSeq(out.returned), t.written + OptionSeq(out.written)))
  }

  /** A whole run from reset, in the order of its events. */
  function Run(cfg: Config, events: seq<Event>): Result<Trail> {
    if events == [] then Ok(Trail(Reset(cfg), [], [], [], []))
    else
      var t :- Run(cfg, events[..|events| - 1]);
      Advance(cfg, t, events[|events| - 1])
  }
}
