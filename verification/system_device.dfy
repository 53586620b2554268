/** The memory system as the simulator has it, with the run invariant as its object invariant. */
module SystemDevice {
  import opened DramTypes
  import opened Wrappers
  import opened Spec = MemorySystem
  import opened RankDevice
  import opened ControllerDevice
  import opened LinkedDeque
  import opened Runs
  import MemoryController
  import SystemSafety
  import CommandQueue
  import Rank

  class MemorySystemObject {
    const cfg: Config
    const rank: RankObject
    const controller: MemoryControllerObject
    const pendingTransactions: Deque<Transaction>

    predicate Wired() {
      controller.Wired() && controller.cfg == cfg && controller.rank == rank && rank.cfg == cfg
    }

    ghost function State(): System
      reads rank, rank.bankStates, controller, controller.bankStates, controller.commandQueue, pendingTransactions
    {
      System(rank.State(), controller.State(), pendingTransactions.Contents())
    }

    /** The object invariant: everything that holds between two events of a run. */
    ghost predicate Valid()
      reads rank, rank.bankStates, controller, controller.bankStates, controller.commandQueue,
            pendingTransactions, pendingTransactions.nodes
    {
      Wired() && pendingTransactions.Valid() && Steady(cfg, State())
    }

    constructor (cfg: Config)
      requires cfg.Valid()
      ensures this.cfg == cfg && Valid() && State() == Reset(cfg)
    {
      this.cfg := cfg;
      var r := new RankObject(cfg);
      rank := r;
      controller := new MemoryControllerObject(cfg, r);
      pendingTransactions := new Deque<Transaction>();
      new;
      assert State() == Reset(cfg);
      ResetSteady(cfg);
    }

    /** A request from outside; it is never refused. */
    method AddTransaction(isWrite: bool, address: nat, callback: int)
      requires Valid()
      modifies controller`transactionQueue, pendingTransactions, pendingTransactions.nodes
      ensures Valid() && State() == Add(cfg, old(State()), Transaction(isWrite, address, callback))
    {
      var t := Transaction(isWrite, address, callback);
      AddSteady(cfg, State(), t);
      if |controller.transactionQueue| < cfg.transQueueDepth {
        var accepted := controller.AddTransaction(t);
      } else {
        pendingTransactions.PushBack(t);
      }
      assert State() == Add(cfg, old(State()), t);
    }

    /** One transaction moves from the overflow queue to the controller if there is room. */
    method AdmitPending()
      requires pendingTransactions.Valid() && controller.cfg == cfg
      modifies controller`transactionQueue, pendingTransactions, pendingTransactions.nodes
      ensures pendingTransactions.Valid()
      ensures
        var admit := |old(pendingTransactions.Contents())| > 0 && MemoryController.WillAccept(cfg, old(controller.State()));
        && controller.State()
           == (if admit then MemoryController.Accept(cfg, old(controller.State()), old(pendingTransactions.Contents())[0])
               else old(controller.State()))
        && pendingTransactions.Contents()
           == (if admit then old(pendingTransactions.Contents())[1..] else old(pendingTransactions.Contents()))
    {
      if pendingTransactions.count > 0 && |controller.transactionQueue| < cfg.transQueueDepth {
        var t := pendingTransactions.PeekFront();
        var accepted := controller.AddTransaction(t.value);
        var popped := pendingTransactions.PopFront();
      }
    }

    /** The first part of a cycle, up to the controller's own update. */
    method BeginCycle() returns (fault: Option<Fault>)
      requires Wired() && pendingTransactions.Valid() && |rank.readReturnPacket| == |rank.readReturnCountdown|
      modifies rank, controller, pendingTransactions, pendingTransactions.nodes
      ensures pendingTransactions.Valid()
      ensures match Begin(cfg, old(State()))
              case Ok(v) =>
                && fault.None? && controller.State() == v.0 && rank.State() == v.1
                && pendingTransactions.Contents()
                   == (if Admitted(cfg, old(State())).Some? then old(State()).pending[1..] else old(State()).pending)
              case Err(f) => fault == Some(f)
    {
      hide Rank.Update;
      var delivered := rank.Update();
      if delivered.Some? {
        fault := controller.ReceiveFromBus(delivered.value);
        if fault.Some? {
          return;
        }
      }
      AdmitPending();
      return None;
    }

    /** The second part of a cycle: the controller's update and the step of the clocks. */
    method FinishCycle() returns (fault: Option<Fault>, output: MemoryController.Output)
      requires Wired() && controller.InRange()
      modifies rank, rank.bankStates, controller, controller.bankStates, controller.commandQueue
      ensures match MemoryController.Update(cfg, old(controller.State()), old(rank.State()))
              case Ok(v) =>
                && fault.None? && output == v.2
                && controller.State() == v.0.(clock := v.0.clock + 1) && rank.State() == v.1.(clock := v.1.clock + 1)
              case Err(f) => fault == Some(f)
    {
      hide MemoryController.Update;
      fault, output := controller.Update();
      rank.Step();
      controller.Step();
    }

    /** One clock cycle: no fault can be raised, and the new state is that of the cycle. */
    method Update() returns (fault: Option<Fault>, output: MemoryController.Output)
      requires Valid()
      modifies rank, rank.bankStates, controller, controller.bankStates, controller.commandQueue,
               pendingTransactions, pendingTransactions.nodes
      ensures Valid() && fault.None?
      ensures Shaped(cfg, old(State())) && Cycle(cfg, old(State())) == Ok((State(), output))
    {
      hide Steady, Begin, MemoryController.Update, Cycle, SystemSafety.RankAhead, SystemSafety.Sound;
      ghost var s := State();
      CycleSteady(cfg, s);
      BeginAhead(cfg, s);
      BeginReady(cfg, s);
      fault := BeginCycle();
      ghost var m, r := controller.State(), rank.State();
      SystemSafety.UpdateSound(cfg, m, r, s.controller.clock - 1);
      fault, output := FinishCycle();
      CycleIs(cfg, s, State(), output);
    }
  }

  /** What the steps of a cycle need of the state in order to stay in range. */
  lemma BeginReady(cfg: Config, s: System)
    requires Steady(cfg, s) && Begin(cfg, s).Ok?
    ensures |s.rank.readPackets| == |s.rank.readCountdown|
    ensures
      var m := Begin(cfg, s).value.0;
      && cfg.Valid() && Shaped(cfg, s) && |m.writePackets| == |m.writeCountdown|
      && CommandQueue.Shaped(cfg, m.banks, m.queue) && MemoryController.RefreshShaped(m.refresh)
      && (m.cmdBus.Some? ==> m.cmdBus.value.bank < cfg.banks)
      && (m.dataBus.Some? ==> m.dataBus.value.bank < cfg.banks)
  {
  }

  lemma CycleIs(cfg: Config, s: System, s': System, output: MemoryController.Output)
    requires Shaped(cfg, s) && Begin(cfg, s).Ok?
    requires
      var (m, r) := Begin(cfg, s).value;
      && MemoryController.Update(cfg, m, r).Ok?
      && var (m', r', out) := MemoryController.Update(cfg, m, r).value;
      && s'.controller == m'.(clock := m'.clock + 1) && s'.rank == r'.(clock := r'.clock + 1) && output == out
      && s'.pending == (if Admitted(cfg, s).Some? then s.pending[1..] else s.pending)
    ensures Cycle(cfg, s) == Ok((s', output))
  {
    hide MemoryController.Update, Begin, Cycle, Shaped;
    CycleParts(cfg, s);
  }
}
