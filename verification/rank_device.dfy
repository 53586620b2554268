/** The rank as the simulator has it: an object whose bank table and pipeline are updated in place. */
module RankDevice {
  import opened DramTypes
  import opened Wrappers
  import Spec = Rank

  class RankObject {
    const cfg: Config
    const bankStates: array<BankState>
    var isPowerDown: bool
    var refreshWaiting: bool
    var readReturnPacket: seq<Packet>
    var readReturnCountdown: seq<nat>
    var outgoingDataPacket: Option<Packet>
    var dataCyclesLeft: nat
    var currentClockCycle: int

    /** The value of the object. */
    function State(): Spec.RankState
      reads this, bankStates
    {
      Spec.RankState(bankStates[..], isPowerDown, refreshWaiting, readReturnPacket, readReturnCountdown,
                     outgoingDataPacket, dataCyclesLeft, currentClockCycle)
    }

    constructor (cfg: Config)
      ensures this.cfg == cfg && fresh(bankStates) && bankStates.Length == cfg.banks
      ensures State() == Spec.RankState(seq(cfg.banks, _ => RESET_BANK), false, false, [], [], None, 0, 0)
    {
      this.cfg := cfg;
      bankStates := new BankState[cfg.banks](_ => RESET_BANK);
      isPowerDown, refreshWaiting := false, false;
      readReturnPacket, readReturnCountdown := [], [];
      outgoingDataPacket, dataCyclesLeft, currentClockCycle := None, 0, 0;
      new;
      assert bankStates[..] == seq(cfg.banks, _ => RESET_BANK);
    }

    /** Every bank learns the times of the next column accesses. */
    method DelayColumns(read: int, write: int)
      modifies bankStates
      ensures forall k :: 0 <= k < bankStates.Length ==> bankStates[k] == Spec.AfterColumn(old(bankStates[k]), read, write)
    {
      for i := 0 to bankStates.Length
        invariant forall k :: 0 <= k < i ==> bankStates[k] == Spec.AfterColumn(old(bankStates[k]), read, write)
        invariant forall k :: i <= k < bankStates.Length ==> bankStates[k] == old(bankStates[k])
      {
        bankStates[i] := bankStates[i].(nextRead := Max(bankStates[i].nextRead, read), nextWrite := Max(bankStates[i].nextWrite, write));
      }
    }

    method ReceiveColumn(p: Packet)
      requires p.kind.IsColumn() && p.bank < bankStates.Length
      modifies bankStates
      ensures bankStates[..] == Spec.TableAfter(cfg, p, old(bankStates[..]), currentClockCycle)
    {
      var b := bankStates[p.bank];
      match p.kind {
        case READ =>
          bankStates[p.bank] := b.(nextPrecharge := Max(b.nextPrecharge, currentClockCycle + cfg.ReadToPre()));
        case READ_P =>
          bankStates[p.bank] := b.(state := Idle, nextActivate := Max(b.nextActivate, currentClockCycle + cfg.ReadAutoPre()));
        case WRITE =>
          bankStates[p.bank] := b.(nextPrecharge := Max(b.nextPrecharge, currentClockCycle + cfg.WriteToPre()));
        case WRITE_P =>
          bankStates[p.bank] := b.(state := Idle, nextActivate := Max(b.nextActivate, currentClockCycle + cfg.WriteAutoPre()));
      }
      if p.kind.IsRead() {
        DelayColumns(currentClockCycle + cfg.ColumnGap(), currentClockCycle + cfg.ReadToWrite());
      } else {
        DelayColumns(currentClockCycle + cfg.WriteToRead(), currentClockCycle + cfg.ColumnGap());
      }
    }

    method ReceiveActivate(p: Packet)
      requires p.kind.ACTIVATE? && p.bank < bankStates.Length
      modifies bankStates
      ensures bankStates[..] == Spec.TableAfter(cfg, p, old(bankStates[..]), currentClockCycle)
    {
      var t := currentClockCycle;
      bankStates[p.bank] := bankStates[p.bank].(
        state := RowActive, nextActivate := t + cfg.tRC, openRow := p.row,
        nextWrite := t + cfg.ColumnDelay(), nextRead := t + cfg.ColumnDelay(), nextPrecharge := t + cfg.tRAS);
      for i := 0 to bankStates.Length
        invariant forall k :: 0 <= k < bankStates.Length ==>
          bankStates[k] == if k < i || k == p.bank then Spec.BankAfter(cfg, ACTIVATE, old(bankStates[k]), k == p.bank, p.row, t)
                           else old(bankStates[k])
      {
        if i != p.bank {
          bankStates[i] := bankStates[i].(nextActivate := Max(bankStates[i].nextActivate, t + cfg.tRRD));
        }
      }
    }

    /** A refresh is refused as soon as a bank is found that is not idle. */
    method ReceiveRefresh(p: Packet) returns (fault: Option<Fault>)
      requires p.kind.REFRESH?
      modifies bankStates
      ensures if Spec.Allows(old(State()), p)
              then fault.None? && bankStates[..] == Spec.TableAfter(cfg, p, old(bankStates[..]), currentClockCycle)
              else fault == Some(IllegalRefresh)
    {
      for i := 0 to bankStates.Length
        invariant forall k :: 0 <= k < i ==>
          old(bankStates[k]).state.Idle? && bankStates[k] == old(bankStates[k]).(nextActivate := currentClockCycle + cfg.tRFC)
        invariant forall k :: i <= k < bankStates.Length ==> bankStates[k] == old(bankStates[k])
      {
        if !bankStates[i].state.Idle? {
          assert !Spec.BankAllows(REFRESH, old(State()).banks[i], p.row, currentClockCycle);
          return Some(IllegalRefresh);
        }
        bankStates[i] := bankStates[i].(nextActivate := currentClockCycle + cfg.tRFC);
      }
      return None;
    }

    /** A packet from the controller; a packet that is not allowed ends the simulation. */
    method ReceiveFromBus(p: Packet) returns (fault: Option<Fault>)
      requires p.bank < bankStates.Length
      modifies this, bankStates
      ensures match Spec.Receive(cfg, old(State()), p)
              case Ok(r) => fault.None? && State() == r
              case Err(f) => fault == Some(f)
    {
      if p.kind.REFRESH? {
        fault := ReceiveRefresh(p);
        refreshWaiting := false;
        return;
      }
      var b := bankStates[p.bank];
      match p.kind {
        case READ =>
          if b.state != RowActive || currentClockCycle < b.nextRead || p.row != b.openRow {
            return Some(IllegalRead);
          }
          ReceiveColumn(p);
        case READ_P =>
          if b.state != RowActive || currentClockCycle < b.nextRead || p.row != b.openRow {
            return Some(IllegalRead);
          }
          ReceiveColumn(p);
        case WRITE =>
          if b.state != RowActive || currentClockCycle < b.nextWrite || p.row != b.openRow {
            return Some(IllegalWrite);
          }
          ReceiveColumn(p);
        case WRITE_P =>
          if b.state != RowActive || currentClockCycle < b.nextWrite || p.row != b.openRow {
            return Some(IllegalWrite);
          }
          ReceiveColumn(p);
        case ACTIVATE =>
          if b.state != Idle || currentClockCycle < b.nextActivate {
            return Some(IllegalActivate);
          }
          ReceiveActivate(p);
        case PRECHARGE =>
          if b.state != RowActive || currentClockCycle < b.nextPrecharge {
            return Some(IllegalPrecharge);
          }
          bankStates[p.bank] := b.(state := Idle, nextActivate := Max(b.nextActivate, currentClockCycle + cfg.tRP));
        case DATA =>
        case REFRESH =>
      }
      assert bankStates[..] == Spec.TableAfter(cfg, p, old(bankStates[..]), currentClockCycle);
      if p.kind.IsRead() {
        readReturnPacket := readReturnPacket + [p.(kind := DATA)];
        readReturnCountdown := readReturnCountdown + [cfg.CL + cfg.AL];
      }
      return None;
    }

    /** Start of a cycle; the packet that leaves the data bus is handed to the controller by the caller. */
    method Update() returns (delivered: Option<Packet>)
      requires |readReturnPacket| == |readReturnCountdown|
      modifies this
      ensures (State(), delivered) == Spec.Update(cfg, old(State()))
    {
      delivered := None;
      if outgoingDataPacket.Some? {
        dataCyclesLeft := Dec32(dataCyclesLeft);
        if dataCyclesLeft == 0 {
          delivered := outgoingDataPacket;
          outgoingDataPacket := None;
        }
      }
      DecrementReturns();
      if |readReturnCountdown| > 0 && readReturnCountdown[0] == 0 {
        outgoingDataPacket := Some(readReturnPacket[0]);
        dataCyclesLeft := cfg.BL / 2;
        readReturnPacket := readReturnPacket[1..];
        readReturnCountdown := readReturnCountdown[1..];
      }
    }

    method DecrementReturns()
      modifies this`readReturnCountdown
      ensures readReturnCountdown == DecAll(old(readReturnCountdown))
    {
      var before := readReturnCountdown;
      for i := 0 to |readReturnCountdown|
        invariant |readReturnCountdown| == |before|
        invariant forall k :: 0 <= k < |before| ==> readReturnCountdown[k] == if k < i then Dec32(before[k]) else before[k]
      {
        readReturnCountdown := readReturnCountdown[i := Dec32(readReturnCountdown[i])];
      }
    }

    method PowerUp() returns (fault: Option<Fault>)
      modifies this, bankStates
      ensures match Spec.PowerUp(cfg, old(State()))
              case Ok(r) => fault.None? && State() == r
              case Err(f) => fault == Some(f)
    {
      if !isPowerDown {
        return Some(IllegalPowerUp);
      }
      isPowerDown := false;
      for i := 0 to bankStates.Length
        invariant forall k :: 0 <= k < i ==>
          old(bankStates[k]).nextPowerUp <= currentClockCycle && bankStates[k] == Spec.PowerUpBank(cfg, old(bankStates[k]), currentClockCycle)
        invariant forall k :: i <= k < bankStates.Length ==> bankStates[k] == old(bankStates[k])
        invariant State() == old(State()).(banks := bankStates[..], poweredDown := false)
      {
        if bankStates[i].nextPowerUp > currentClockCycle {
          assert old(State()).banks[i].nextPowerUp > old(State()).clock;
          return Some(IllegalPowerUp);
        }
        bankStates[i] := bankStates[i].(nextActivate := currentClockCycle + cfg.tXP, state := Idle);
      }
      return None;
    }

    method PowerDown() returns (fault: Option<Fault>)
      modifies this, bankStates
      ensures match Spec.PowerDownRank(cfg, old(State()))
              case Ok(r) => fault.None? && State() == r
              case Err(f) => fault == Some(f)
    {
      for i := 0 to bankStates.Length
        invariant forall k :: 0 <= k < i ==>
          old(bankStates[k]).state.Idle? && bankStates[k] == Spec.PowerDownBank(cfg, old(bankStates[k]), currentClockCycle)
        invariant forall k :: i <= k < bankStates.Length ==> bankStates[k] == old(bankStates[k])
        invariant State() == old(State()).(banks := bankStates[..])
      {
        if !bankStates[i].state.Idle? {
          assert !old(State()).banks[i].state.Idle?;
          return Some(IllegalPowerDown);
        }
        bankStates[i] := bankStates[i].(nextPowerUp := currentClockCycle + cfg.tCKE, state := CurrentBankState.PowerDown);
      }
      isPowerDown := true;
      return None;
    }

    method Step()
      modifies this`currentClockCycle
      ensures currentClockCycle == old(currentClockCycle) + 1
    {
      currentClockCycle := currentClockCycle + 1;
    }
  }
}
