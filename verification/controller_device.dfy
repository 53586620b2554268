/** The memory controller as the simulator has it: one object that drives the queue and the rank. */
module ControllerDevice {
  import opened DramTypes
  import opened Wrappers
  import opened Spec = MemoryController
  import opened RankDevice
  import opened QueueDevice
  import opened RefreshSchedule
  import CommandQueue
  import Rank
  import opened AddressMapping

  class MemoryControllerObject {
    const cfg: Config
    const bankStates: array<BankState>
    const commandQueue: CommandQueueObject
    const rank: RankObject
    var outgoingCmdPacket: Option<Packet>
    var cmdCyclesLeft: nat
    var outgoingDataPacket: Option<Packet>
    var dataCyclesLeft: nat
    var writeDataToSend: seq<Packet>
    var writeDataCountdown: seq<nat>
    var refreshCountdown: seq<nat>
    var refreshRank: nat
    var powerDown: bool
    var transactionQueue: seq<Transaction>
    var pendingReadTransactions: seq<Transaction>
    var returnTransaction: seq<Transaction>
    var currentClockCycle: int

    /** Queue and controller share one table, the rank has its own. */
    predicate Wired() {
      && commandQueue.cfg == cfg && commandQueue.bankStates == bankStates && bankStates.Length == cfg.banks
      && rank.cfg == cfg && rank.bankStates != bankStates && rank.bankStates.Length == cfg.banks
    }

    function State(): ControllerState
      reads this, bankStates, commandQueue
    {
      ControllerState(bankStates[..], commandQueue.State(), outgoingCmdPacket, cmdCyclesLeft, outgoingDataPacket, dataCyclesLeft,
                      writeDataToSend, writeDataCountdown, RefreshState(refreshCountdown, refreshRank), powerDown,
                      transactionQueue, pendingReadTransactions, returnTransaction, currentClockCycle)
    }

    constructor (cfg: Config, rank: RankObject)
      requires rank.cfg == cfg && rank.bankStates.Length == cfg.banks
      ensures Wired() && this.cfg == cfg && this.rank == rank && fresh(bankStates) && fresh(commandQueue)
      ensures State() == ControllerState(
                seq(cfg.banks, _ => RESET_BANK),
                CommandQueue.QueueState(seq(CommandQueue.QueueCount(cfg), _ => []), [], seq(cfg.banks, _ => 0), 0, 0, false, true, 0),
                None, 0, None, 0, [], [], Initial(1, cfg.refreshCycles), false, [], [], [], 0)
    {
      this.cfg, this.rank := cfg, rank;
      var table := new BankState[cfg.banks](_ => RESET_BANK);
      bankStates := table;
      commandQueue := new CommandQueueObject(cfg, table);
      outgoingCmdPacket, cmdCyclesLeft, outgoingDataPacket, dataCyclesLeft := None, 0, None, 0;
      writeDataToSend, writeDataCountdown := [], [];
      refreshCountdown, refreshRank := Initial(1, cfg.refreshCycles).countdown, 0;
      powerDown := false;
      transactionQueue, pendingReadTransactions, returnTransaction := [], [], [];
      currentClockCycle := 0;
      new;
      assert bankStates[..] == seq(cfg.banks, _ => RESET_BANK);
    }

    method AddTransaction(t: Transaction) returns (accepted: bool)
      modifies this`transactionQueue
      ensures accepted <==> WillAccept(cfg, old(State()))
      ensures State() == if accepted then Accept(cfg, old(State()), t) else old(State())
    {
      accepted := |transactionQueue| < cfg.transQueueDepth;
      if accepted {
        transactionQueue := transactionQueue + [t];
      }
    }

    method ReceiveFromBus(p: Packet) returns (fault: Option<Fault>)
      modifies this`returnTransaction
      ensures match ReceiveData(old(State()), p)
              case Ok(m) => fault.None? && State() == m
              case Err(f) => fault == Some(f)
    {
      if p.kind != DATA {
        return Some(NotData);
      }
      returnTransaction := returnTransaction + [Transaction(false, p.address, p.callback)];
      return None;
    }

    /** Count every bank's pending state change down. */
    method AgeBankStates()
      modifies bankStates
      ensures bankStates[..] == AgeBanks(cfg, old(bankStates[..]))
    {
      for j := 0 to bankStates.Length
        invariant forall k :: 0 <= k < bankStates.Length ==>
          bankStates[k] == if k < j then AgeBank(cfg, old(bankStates[k])) else old(bankStates[k])
      {
        if bankStates[j].countdown > 0 {
          bankStates[j] := bankStates[j].(countdown := bankStates[j].countdown - 1);
          if bankStates[j].countdown == 0 {
            match bankStates[j].lastCommand {
              case WRITE_P => bankStates[j] := bankStates[j].(state := Precharging, lastCommand := PRECHARGE, countdown := cfg.tRP);
              case READ_P => bankStates[j] := bankStates[j].(state := Precharging, lastCommand := PRECHARGE, countdown := cfg.tRP);
              case REFRESH => bankStates[j] := bankStates[j].(state := Idle);
              case PRECHARGE => bankStates[j] := bankStates[j].(state := Idle);
              case _ =>
            }
          }
        }
      }
    }

    method DriveCommandBus() returns (fault: Option<Fault>)
      requires Wired() && (outgoingCmdPacket.Some? ==> outgoingCmdPacket.value.bank < cfg.banks)
      modifies this`outgoingCmdPacket, this`cmdCyclesLeft, rank, rank.bankStates
      ensures match DeliverCommand(cfg, old(State()), old(rank.State()))
              case Ok(v) => fault.None? && State() == v.0 && rank.State() == v.1
              case Err(f) => fault == Some(f)
    {
      if outgoingCmdPacket.Some? {
        cmdCyclesLeft := Dec32(cmdCyclesLeft);
        if cmdCyclesLeft == 0 {
          fault := rank.ReceiveFromBus(outgoingCmdPacket.value);
          outgoingCmdPacket := None;
          return;
        }
      }
      return None;
    }

    method DriveDataBus() returns (fault: Option<Fault>, written: Option<Packet>)
      requires Wired() && (outgoingDataPacket.Some? ==> outgoingDataPacket.value.bank < cfg.banks)
      modifies this`outgoingDataPacket, this`dataCyclesLeft, rank, rank.bankStates
      ensures match DeliverData(cfg, old(State()), old(rank.State()))
              case Ok(v) => fault.None? && State() == v.0 && rank.State() == v.1 && written == v.2
              case Err(f) => fault == Some(f)
    {
      written := None;
      if outgoingDataPacket.Some? {
        dataCyclesLeft := Dec32(dataCyclesLeft);
        if dataCyclesLeft == 0 {
          written := outgoingDataPacket;
          fault := rank.ReceiveFromBus(outgoingDataPacket.value);
          outgoingDataPacket := None;
          return;
        }
      }
      fault := None;
    }

    /** Write data whose latency has passed goes on the bus. */
    method StartWriteBurst() returns (fault: Option<Fault>)
      requires |writeDataToSend| == |writeDataCountdown|
      modifies this`writeDataCountdown, this`writeDataToSend, this`outgoingDataPacket, this`dataCyclesLeft
      ensures match SendWriteData(cfg, old(State()))
              case Ok(m) => fault.None? && State() == m
              case Err(f) => fault == Some(f)
    {
      var before := writeDataCountdown;
      for i := 0 to |writeDataCountdown|
        invariant State() == old(State()).(writeCountdown := writeDataCountdown)
        invariant |writeDataCountdown| == |before|
        invariant forall k :: 0 <= k < |before| ==> writeDataCountdown[k] == if k < i then Dec32(before[k]) else before[k]
      {
        writeDataCountdown := writeDataCountdown[i := Dec32(writeDataCountdown[i])];
      }
      assert writeDataCountdown == DecAll(before);
      if |writeDataCountdown| > 0 && writeDataCountdown[0] == 0 {
        if outgoingDataPacket.Some? {
          return Some(DataBusCollision);
        }
        outgoingDataPacket := Some(writeDataToSend[0]);
        dataCyclesLeft := cfg.BL / 2;
        writeDataCountdown := writeDataCountdown[1..];
        writeDataToSend := writeDataToSend[1..];
      }
      return None;
    }

    method AskForRefresh()
      requires RefreshShaped(State().refresh)
      modifies this`refreshCountdown, this`refreshRank, commandQueue`refreshWaiting, rank`refreshWaiting
      ensures (State(), rank.State()) == RequestRefresh(cfg, old(State()), old(rank.State()))
    {
      if refreshCountdown[refreshRank] == 0 {
        commandQueue.NeedRefresh();
        rank.refreshWaiting := true;
        refreshCountdown := refreshCountdown[refreshRank := cfg.refreshCycles];
        refreshRank := refreshRank + 1;
        if refreshRank == |refreshCountdown| {
          refreshRank := 0;
        }
      } else if powerDown && refreshCountdown[refreshRank] <= cfg.tXP {
        rank.refreshWaiting := true;
      }
    }

    /** All banks of the rank learn the times of the next column accesses, as far as the command demands it. */
    method DelayColumns(read: int, write: int)
      modifies bankStates
      ensures forall k :: 0 <= k < bankStates.Length ==> bankStates[k] == Rank.AfterColumn(old(bankStates[k]), read, write)
    {
      for j := 0 to bankStates.Length
        invariant forall k :: 0 <= k < j ==> bankStates[k] == Rank.AfterColumn(old(bankStates[k]), read, write)
        invariant forall k :: j <= k < bankStates.Length ==> bankStates[k] == old(bankStates[k])
      {
        bankStates[j] := bankStates[j].(nextRead := Max(read, bankStates[j].nextRead), nextWrite := Max(write, bankStates[j].nextWrite));
      }
    }

    method RecordRead(p: Packet)
      requires p.kind.IsRead() && p.bank < bankStates.Length
      modifies bankStates
      ensures bankStates[..] == TableAfter(cfg, p, old(bankStates[..]), currentClockCycle)
    {
      var t, b := currentClockCycle, bankStates[p.bank];
      if p.kind == READ_P {
        bankStates[p.bank] := b.(nextActivate := Max(t + cfg.ReadAutoPre(), b.nextActivate), lastCommand := READ_P, countdown := cfg.ReadToPre());
      } else {
        bankStates[p.bank] := b.(nextPrecharge := Max(t + cfg.ReadToPre(), b.nextPrecharge), lastCommand := READ);
      }
      DelayColumns(t + cfg.ColumnGap(), t + cfg.ReadToWrite());
      if p.kind == READ_P {
        // no column access may slip in before the auto-precharge has changed the state
        bankStates[p.bank] := bankStates[p.bank].(nextRead := bankStates[p.bank].nextActivate, nextWrite := bankStates[p.bank].nextActivate);
      }
    }

    method RecordWrite(p: Packet)
      requires p.kind.IsWrite() && p.bank < bankStates.Length
      modifies bankStates
      ensures bankStates[..] == TableAfter(cfg, p, old(bankStates[..]), currentClockCycle)
    {
      var t, b := currentClockCycle, bankStates[p.bank];
      if p.kind == WRITE_P {
        bankStates[p.bank] := b.(nextActivate := Max(t + cfg.WriteAutoPre(), b.nextActivate), lastCommand := WRITE_P, countdown := cfg.WriteToPre());
      } else {
        bankStates[p.bank] := b.(nextPrecharge := Max(t + cfg.WriteToPre(), b.nextPrecharge), lastCommand := WRITE);
      }
      DelayColumns(t + cfg.WriteToRead(), t + cfg.ColumnGap());
      if p.kind == WRITE_P {
        bankStates[p.bank] := bankStates[p.bank].(nextRead := bankStates[p.bank].nextActivate, nextWrite := bankStates[p.bank].nextActivate);
      }
    }

    method RecordActivate(p: Packet)
      requires p.kind.ACTIVATE? && p.bank < bankStates.Length
      modifies bankStates
      ensures bankStates[..] == TableAfter(cfg, p, old(bankStates[..]), currentClockCycle)
    {
      var t, b := currentClockCycle, bankStates[p.bank];
      bankStates[p.bank] := b.(
        state := RowActive, lastCommand := ACTIVATE, openRow := p.row,
        nextActivate := Max(t + cfg.tRC, b.nextActivate), nextPrecharge := Max(t + cfg.tRAS, b.nextPrecharge),
        nextRead := Max(t + cfg.ColumnDelay(), b.nextRead), nextWrite := Max(t + cfg.ColumnDelay(), b.nextWrite));
      for i := 0 to bankStates.Length
        invariant forall k :: 0 <= k < bankStates.Length ==>
          bankStates[k] == if k < i || k == p.bank then Spec.BankAfter(cfg, ACTIVATE, old(bankStates[k]), k == p.bank, p.row, t)
                           else old(bankStates[k])
      {
        if i != p.bank {
          bankStates[i] := bankStates[i].(nextActivate := Max(t + cfg.tRRD, bankStates[i].nextActivate));
        }
      }
    }

    method RecordRefresh(p: Packet)
      requires p.kind.REFRESH?
      modifies bankStates
      ensures bankStates[..] == TableAfter(cfg, p, old(bankStates[..]), currentClockCycle)
    {
      for i := 0 to bankStates.Length
        invariant forall k :: 0 <= k < bankStates.Length ==>
          bankStates[k] == if k < i then Spec.BankAfter(cfg, REFRESH, old(bankStates[k]), k == p.bank, p.row, currentClockCycle)
                           else old(bankStates[k])
      {
        bankStates[i] := bankStates[i].(nextActivate := currentClockCycle + cfg.tRFC, state := Refreshing, lastCommand := REFRESH, countdown := cfg.tRFC);
      }
    }

    /** The optimistic table takes note of the command that has just been popped. */
    method Record(p: Packet)
      requires p.bank < bankStates.Length && !p.kind.DATA?
      modifies bankStates
      ensures bankStates[..] == TableAfter(cfg, p, old(bankStates[..]), currentClockCycle)
    {
      match p.kind {
        case READ => RecordRead(p);
        case READ_P => RecordRead(p);
        case WRITE => RecordWrite(p);
        case WRITE_P => RecordWrite(p);
        case ACTIVATE => RecordActivate(p);
        case PRECHARGE =>
          var b := bankStates[p.bank];
          bankStates[p.bank] := b.(state := Precharging, lastCommand := PRECHARGE, countdown := cfg.tRP,
                                   nextActivate := Max(currentClockCycle + cfg.tRP, b.nextActivate));
        case REFRESH => RecordRefresh(p);
      }
    }

    method IssueCommand() returns (fault: Option<Fault>)
      requires Wired() && commandQueue.Shaped()
      modifies this, commandQueue, bankStates
      ensures |commandQueue.queues| == old(|commandQueue.queues|)
      ensures match Issue(cfg, old(State()))
              case Ok(m) => fault.None? && State() == m
              case Err(f) => fault == Some(f)
    {
      hide CommandQueue.Pop;
      PoppedBank(cfg, bankStates[..], commandQueue.State());
      var popped := commandQueue.Pop();
      if popped.None? {
        return None;
      }
      var p := popped.value;
      if p.kind == DATA {
        return Some(UnexpectedCommand);
      }
      if p.kind.IsWrite() {
        writeDataToSend := writeDataToSend + [p.(kind := DATA)];
        writeDataCountdown := writeDataCountdown + [WriteLatency(cfg)];
      }
      Record(p);
      if outgoingCmdPacket.Some? {
        return Some(CommandBusCollision);
      }
      outgoingCmdPacket := Some(p);
      cmdCyclesLeft := cfg.tCMD;
      return None;
    }

    /** The first transaction whose queue has room becomes two commands. */
    method SplitTransaction() returns (fault: Option<Fault>)
      requires Wired() && cfg.Valid() && |commandQueue.queues| == CommandQueue.QueueCount(cfg)
      modifies this`transactionQueue, this`pendingReadTransactions, commandQueue
      ensures match Split(cfg, old(State()))
              case Ok(m) => fault.None? && State() == m
              case Err(f) => fault == Some(f)
    {
      hide Decode, CommandQueue.Shaped;
      var i := FindSplittable();
      if i < |transactionQueue| {
        var t := transactionQueue[i];
        transactionQueue := RemoveAt(transactionQueue, i);
        fault := commandQueue.Enqueue(ActivateFor(cfg, t));
        if fault.Some? {
          return;
        }
        fault := commandQueue.Enqueue(ColumnFor(cfg, t));
        if fault.Some? {
          return;
        }
        if !t.isWrite {
          pendingReadTransactions := pendingReadTransactions + [t];
        }
      }
      return None;
    }

    /** The search of that loop: the oldest transaction whose command queue has room for two packets. */
    method FindSplittable() returns (i: nat)
      requires Wired() && cfg.Valid() && |commandQueue.queues| == CommandQueue.QueueCount(cfg)
      ensures i == FirstSplittable(cfg, State().queue, transactionQueue, 0)
    {
      hide Decode, CommandQueue.Shaped;
      i := 0;
      while i < |transactionQueue|
        invariant i <= |transactionQueue|
        invariant FirstSplittable(cfg, State().queue, transactionQueue, 0) == FirstSplittable(cfg, State().queue, transactionQueue, i)
      {
        var room := commandQueue.HasRoomFor(2, Locate(cfg, transactionQueue[i].address).bank);
        if room {
          return;
        }
        i := i + 1;
      }
    }

    method AllIdle() returns (idle: bool)
      ensures idle <==> forall i :: 0 <= i < bankStates.Length ==> bankStates[i].state.Idle?
    {
      for j := 0 to bankStates.Length
        invariant forall k :: 0 <= k < j ==> bankStates[k].state.Idle?
      {
        if bankStates[j].state != Idle {
          return false;
        }
      }
      return true;
    }

    method SleepBanks()
      modifies bankStates
      ensures forall k :: 0 <= k < bankStates.Length ==> bankStates[k] == Rank.PowerDownBank(cfg, old(bankStates[k]), currentClockCycle)
    {
      for j := 0 to bankStates.Length
        invariant forall k :: 0 <= k < bankStates.Length ==>
          bankStates[k] == if k < j then Rank.PowerDownBank(cfg, old(bankStates[k]), currentClockCycle) else old(bankStates[k])
      {
        bankStates[j] := bankStates[j].(state := PowerDown, nextPowerUp := currentClockCycle + cfg.tCKE);
      }
    }

    method WakeBanks()
      modifies bankStates
      ensures forall k :: 0 <= k < bankStates.Length ==> bankStates[k] == Rank.PowerUpBank(cfg, old(bankStates[k]), currentClockCycle)
    {
      for j := 0 to bankStates.Length
        invariant forall k :: 0 <= k < bankStates.Length ==>
          bankStates[k] == if k < j then Rank.PowerUpBank(cfg, old(bankStates[k]), currentClockCycle) else old(bankStates[k])
      {
        bankStates[j] := bankStates[j].(state := Idle, nextActivate := currentClockCycle + cfg.tXP);
      }
    }

    /** Low-power mode: sleep when there is nothing to do, wake when there is and it is allowed. */
    method SwitchPower() returns (fault: Option<Fault>)
      requires Wired() && bankStates.Length > 0
      modifies this`powerDown, bankStates, rank, rank.bankStates
      ensures match ManagePower(cfg, old(State()), old(rank.State()))
              case Ok(v) => fault.None? && State() == v.0 && rank.State() == v.1
              case Err(f) => fault == Some(f)
    {
      fault := None;
      if cfg.useLowPower {
        var empty := commandQueue.IsEmpty();
        if empty && !rank.refreshWaiting {
          var idle := AllIdle();
          if idle {
            fault := GoToSleep();
          }
        } else if currentClockCycle >= bankStates[0].nextPowerUp && powerDown {
          fault := WakeUp();
        }
      }
    }

    method GoToSleep() returns (fault: Option<Fault>)
      requires Wired()
      modifies this`powerDown, bankStates, rank, rank.bankStates
      ensures match Rank.PowerDownRank(cfg, old(rank.State()))
              case Ok(r) =>
                && fault.None? && rank.State() == r
                && State() == old(State()).(powerDown := true,
                     banks := Rank.MapBanks(old(State()).banks, b => Rank.PowerDownBank(cfg, b, old(State()).clock)))
              case Err(f) => fault == Some(f)
    {
      hide Rank.PowerDownRank;
      powerDown := true;
      fault := rank.PowerDown();
      SleepBanks();
    }

    method WakeUp() returns (fault: Option<Fault>)
      requires Wired()
      modifies this`powerDown, bankStates, rank, rank.bankStates
      ensures match Rank.PowerUp(cfg, old(rank.State()))
              case Ok(r) =>
                && fault.None? && rank.State() == r
                && State() == old(State()).(powerDown := false,
                     banks := Rank.MapBanks(old(State()).banks, b => Rank.PowerUpBank(cfg, b, old(State()).clock)))
              case Err(f) => fault == Some(f)
    {
      hide Rank.PowerUp;
      powerDown := false;
      fault := rank.PowerUp();
      WakeBanks();
    }

    /** Matches the oldest finished read with the first pending transaction of its address. */
    method AnswerRead() returns (fault: Option<Fault>, answered: Option<Transaction>)
      modifies this`pendingReadTransactions, this`returnTransaction
      ensures match ReturnRead(old(State()))
              case Ok(v) => fault.None? && State() == v.0 && answered == v.1
              case Err(f) => fault == Some(f)
    {
      fault, answered := None, None;
      if |returnTransaction| > 0 {
        var address := returnTransaction[0].address;
        var i := 0;
        while i < |pendingReadTransactions| && pendingReadTransactions[i].address != address
          invariant i <= |pendingReadTransactions|
          invariant State() == old(State())
          invariant FirstPending(pendingReadTransactions, address, 0) == FirstPending(pendingReadTransactions, address, i)
        {
          i := i + 1;
        }
        if i == |pendingReadTransactions| {
          fault := Some(NoMatchingRead);
          return;
        }
        answered := Some(pendingReadTransactions[i]);
        pendingReadTransactions := RemoveAt(pendingReadTransactions, i);
        returnTransaction := returnTransaction[1..];
      }
    }

    method CountRefreshDown()
      modifies this`refreshCountdown
      ensures refreshCountdown == DecAll(old(refreshCountdown))
    {
      var before := refreshCountdown;
      for i := 0 to |refreshCountdown|
        invariant |refreshCountdown| == |before|
        invariant forall k :: 0 <= k < |before| ==> refreshCountdown[k] == if k < i then Dec32(before[k]) else before[k]
      {
        refreshCountdown := refreshCountdown[i := Dec32(refreshCountdown[i])];
      }
    }

    /** Every index the update uses is in range. */
    ghost predicate InRange()
      reads this, bankStates, commandQueue
    {
      && Wired() && cfg.Valid()
      && commandQueue.Shaped() && RefreshShaped(RefreshState(refreshCountdown, refreshRank))
      && (outgoingCmdPacket.Some? ==> outgoingCmdPacket.value.bank < cfg.banks)
      && (outgoingDataPacket.Some? ==> outgoingDataPacket.value.bank < cfg.banks)
      && |writeDataToSend| == |writeDataCountdown|
    }

    /** First half of an update. */
    method ServeBothBuses() returns (fault: Option<Fault>, written: Option<Packet>)
      requires InRange()
      modifies this`outgoingCmdPacket, this`cmdCyclesLeft, this`outgoingDataPacket, this`dataCyclesLeft,
               this`writeDataCountdown, this`writeDataToSend, bankStates, rank, rank.bankStates
      ensures match ServeBuses(cfg, old(State()), old(rank.State()))
              case Ok(v) => fault.None? && State() == v.0 && rank.State() == v.1 && written == v.2
              case Err(f) => fault == Some(f)
    {
      hide DeliverCommand, DeliverData, SendWriteData, AgeBanks;
      written := None;
      AgeBankStates();
      assert State() == old(State()).(banks := AgeBanks(cfg, old(State()).banks));
      fault := DriveCommandBus();
      if fault.Some? {
        return;
      }
      fault, written := DriveDataBus();
      if fault.Some? {
        return;
      }
      fault := StartWriteBurst();
    }

    /** Second half of an update. */
    method Conclude() returns (fault: Option<Fault>, answered: Option<Transaction>)
      requires Wired() && cfg.Valid() && |commandQueue.queues| == CommandQueue.QueueCount(cfg)
      modifies this, commandQueue, bankStates, rank, rank.bankStates
      ensures match Settle(cfg, old(State()), old(rank.State()))
              case Ok(v) => fault.None? && State() == v.0 && rank.State() == v.1 && answered == v.2
              case Err(f) => fault == Some(f)
    {
      hide Split, ManagePower, ReturnRead;
      answered := None;
      fault := SplitTransaction();
      if fault.Some? {
        return;
      }
      fault := SwitchPower();
      if fault.Some? {
        return;
      }
      fault, answered := AnswerRead();
      if fault.Some? {
        return;
      }
      CountRefreshDown();
      commandQueue.Step();
    }

    /** One update of the controller. */
    method Update() returns (fault: Option<Fault>, output: Output)
      requires InRange()
      modifies this, commandQueue, bankStates, rank, rank.bankStates
      ensures match Spec.Update(cfg, old(State()), old(rank.State()))
              case Ok(v) => fault.None? && State() == v.0 && rank.State() == v.1 && output == v.2
              case Err(f) => fault == Some(f)
    {
      hide ServeBuses, Issue, Settle, AgeBanks;
      output := Output(None, None, None);
      var written, answered;
      fault, written := ServeBothBuses();
      if fault.Some? {
        return;
      }
      AskForRefresh();
      CommandQueue.SameShape(cfg, old(State()).banks, old(State()).queue, State().banks, State().queue);
      var free := outgoingCmdPacket.None?;
      fault := IssueCommand();
      if fault.Some? {
        return;
      }
      output := Output(if free then outgoingCmdPacket else None, written, None);
      fault, answered := Conclude();
      output := output.(returned := answered);
    }

    method Step()
      modifies this`currentClockCycle
      ensures currentClockCycle == old(currentClockCycle) + 1
    {
      currentClockCycle := currentClockCycle + 1;
    }
  }

  lemma PoppedBank(cfg: Config, banks: seq<BankState>, q: CommandQueue.QueueState)
    requires CommandQueue.Shaped(cfg, banks, q)
    ensures
      var (q', sent) := CommandQueue.Pop(cfg, banks, q);
      |q'.queues| == |q.queues| && (sent.Some? ==> sent.value.bank < cfg.banks)
  {
    CommandQueue.PopQueues(cfg, banks, q);
  }
}
