/** The command queue as the simulator has it: lists, counters and pointers updated in place. */
module QueueDevice {
  import opened DramTypes
  import opened Wrappers
  import opened Spec = CommandQueue
  import RefreshSchedule
  import RoundRobin

  class CommandQueueObject {
    const cfg: Config
    /** Shared with the memory controller, which updates it. */
    const bankStates: array<BankState>
    var queues: seq<seq<Packet>>
    var tFAWCountdown: seq<nat>
    var rowAccessCounters: seq<nat>
    var nextBank: nat
    var nextBankPRE: nat
    var refreshWaiting: bool
    var sendAct: bool
    var currentClockCycle: int

    function State(): QueueState
      reads this
    {
      QueueState(queues, tFAWCountdown, rowAccessCounters, nextBank, nextBankPRE, refreshWaiting, sendAct, currentClockCycle)
    }

    ghost predicate Shaped()
      reads this, bankStates
    {
      Spec.Shaped(cfg, bankStates[..], State())
    }

    constructor (cfg: Config, bankStates: array<BankState>)
      ensures this.cfg == cfg && this.bankStates == bankStates
      ensures State() == QueueState(seq(QueueCount(cfg), _ => []), [], seq(cfg.banks, _ => 0), 0, 0, false, true, 0)
    {
      this.cfg, this.bankStates := cfg, bankStates;
      queues := seq(QueueCount(cfg), _ => []);
      tFAWCountdown, rowAccessCounters := [], seq(cfg.banks, _ => 0);
      nextBank, nextBankPRE := 0, 0;
      refreshWaiting, sendAct, currentClockCycle := false, true, 0;
    }

    method Enqueue(p: Packet) returns (fault: Option<Fault>)
      requires QueueIndex(cfg, p.bank) < |queues|
      modifies this`queues
      ensures match Spec.Enqueue(cfg, old(State()), p)
              case Ok(q) => fault.None? && State() == q
              case Err(f) => fault == Some(f)
    {
      var i := QueueIndex(cfg, p.bank);
      queues := queues[i := queues[i] + [p]];
      if |queues[i]| > cfg.cmdQueueDepth {
        return Some(QueueOverflow);
      }
      return None;
    }

    method HasRoomFor(count: nat, bank: nat) returns (room: bool)
      requires QueueIndex(cfg, bank) < |queues|
      ensures room <==> HasRoom(cfg, State(), count, bank)
    {
      room := cfg.cmdQueueDepth - |queues[QueueIndex(cfg, bank)]| >= count;
    }

    method IsEmpty() returns (empty: bool)
      ensures empty <==> Spec.IsEmpty(State())
    {
      for i := 0 to |queues|
        invariant forall k :: 0 <= k < i ==> |queues[k]| == 0
      {
        if |queues[i]| > 0 {
          return false;
        }
      }
      return true;
    }

    method NeedRefresh()
      modifies this`refreshWaiting
      ensures refreshWaiting
    {
      refreshWaiting := true;
    }

    method Step()
      modifies this`currentClockCycle
      ensures currentClockCycle == old(currentClockCycle) + 1
    {
      currentClockCycle := currentClockCycle + 1;
    }

    method IsIssuable(p: Packet) returns (issuable: bool)
      requires p.bank < bankStates.Length && p.bank < |rowAccessCounters|
      ensures issuable <==> Issuable(cfg, bankStates[..], State(), p)
    {
      var b := bankStates[p.bank];
      match p.kind {
        case ACTIVATE =>
          return (b.state == Idle || b.state == Refreshing) && currentClockCycle >= b.nextActivate && |tFAWCountdown| < 4;
        case WRITE =>
          return b.state == RowActive && currentClockCycle >= b.nextWrite && p.row == b.openRow && rowAccessCounters[p.bank] < cfg.totalRowAccesses;
        case WRITE_P =>
          return b.state == RowActive && currentClockCycle >= b.nextWrite && p.row == b.openRow && rowAccessCounters[p.bank] < cfg.totalRowAccesses;
        case READ =>
          return b.state == RowActive && currentClockCycle >= b.nextRead && p.row == b.openRow && rowAccessCounters[p.bank] < cfg.totalRowAccesses;
        case READ_P =>
          return b.state == RowActive && currentClockCycle >= b.nextRead && p.row == b.openRow && rowAccessCounters[p.bank] < cfg.totalRowAccesses;
        case PRECHARGE =>
          return b.state == RowActive && currentClockCycle >= b.nextPrecharge;
        case REFRESH => return false;
        case DATA => return false;
      }
    }

    /** The counters of the activation window age; the head is the smallest and leaves at zero. */
    method AgeActivations()
      modifies this`tFAWCountdown
      ensures tFAWCountdown == AgeWindow(old(tFAWCountdown))
    {
      var before := tFAWCountdown;
      for j := 0 to |tFAWCountdown|
        invariant |tFAWCountdown| == |before|
        invariant forall k :: 0 <= k < |before| ==> tFAWCountdown[k] == if k < j then Dec32(before[k]) else before[k]
      {
        tFAWCountdown := tFAWCountdown[j := Dec32(tFAWCountdown[j])];
      }
      assert tFAWCountdown == DecAll(before);
      if |tFAWCountdown| > 0 && tFAWCountdown[0] == 0 {
        tFAWCountdown := tFAWCountdown[1..];
      }
    }

    /** The first queued command for a bank and row. */
    method FindForRow(s: seq<Packet>, bank: nat, row: nat) returns (j: nat)
      ensures j == FirstForRow(s, bank, row, 0)
    {
      j := 0;
      while j < |s| && !(s[j].bank == bank && s[j].row == row)
        invariant j <= |s|
        invariant FirstForRow(s, bank, row, 0) == FirstForRow(s, bank, row, j)
      {
        j := j + 1;
      }
    }

    /** The refresh logic: looks for an open bank, then for what may still be sent to it. */
    method FindRefresh() returns (c: Choice)
      requires Shaped()
      ensures c == RefreshChoice(cfg, bankStates[..], State())
    {
      var b := 0;
      while b < bankStates.Length && !(bankStates[b].state == RowActive || bankStates[b].nextActivate > currentClockCycle)
        invariant b <= bankStates.Length
        invariant FirstBlocking(bankStates[..], currentClockCycle, 0) == FirstBlocking(bankStates[..], currentClockCycle, b)
      {
        b := b + 1;
      }
      if b == bankStates.Length {
        return if bankStates[0].state == PowerDown then Nothing else SendRefresh;
      }
      if bankStates[b].state != RowActive {
        return Nothing;
      }
      var s := queues[QueueIndex(cfg, b)];
      var j := FindForRow(s, b, bankStates[b].openRow);
      if j < |s| && s[j].kind != ACTIVATE {
        var issuable := IsIssuable(s[j]);
        return if issuable then Send(QueueIndex(cfg, b), j, false) else Nothing;
      }
      if cfg.rowPolicy == OpenPage && currentClockCycle >= bankStates[b].nextPrecharge {
        return CloseRow(b, false);
      }
      return Nothing;
    }

    /** Is there an earlier column access to the row of position i? */
    method HasDependency(s: seq<Packet>, i: nat) returns (found: bool)
      requires i < |s|
      ensures found <==> Depends(s, i)
    {
      for j := 0 to i
        invariant forall k :: 0 <= k < j ==> s[k].kind.ACTIVATE? || !ForRow(s[k], s[i].bank, s[i].row)
      {
        if s[j].kind != ACTIVATE && s[j].bank == s[i].bank && s[j].row == s[i].row {
          assert ForRow(s[j], s[i].bank, s[i].row);
          return true;
        }
      }
      return false;
    }

    method IsEligible(s: seq<Packet>, i: nat) returns (eligible: bool)
      requires Shaped() && i < |s| && forall k :: 0 <= k < |s| ==> s[k].bank < cfg.banks
      ensures eligible <==> Eligible(cfg, bankStates[..], State(), s, i)
    {
      eligible := IsIssuable(s[i]);
      if eligible {
        if cfg.rowPolicy == OpenPage {
          var dependency := HasDependency(s, i);
          eligible := !dependency;
        } else if cfg.queuing == PerRank {
          eligible := !(i > 0 && s[i - 1].kind == ACTIVATE && s[i - 1].address == s[i].address);
        } else {
          eligible := i == 0;
        }
      }
    }

    /** Search from the beginning of one queue for the first command that may go. */
    method FindEligible(n: nat) returns (i: nat)
      requires Shaped() && n < |queues|
      ensures i == FirstEligible(cfg, bankStates[..], State(), queues[n], 0)
    {
      i := 0;
      if cfg.rowPolicy == ClosePage && cfg.queuing == PerRankPerBank {
        // if the front cannot be sent, nothing behind it can go instead
        if |queues[n]| > 0 {
          var issuable := IsIssuable(queues[n][0]);
          i := if issuable then 0 else |queues[n]|;
        }
        return;
      }
      while i < |queues[n]|
        invariant i <= |queues[n]|
        invariant FirstEligible(cfg, bankStates[..], State(), queues[n], 0) == FirstEligible(cfg, bankStates[..], State(), queues[n], i)
      {
        var eligible := IsEligible(queues[n], i);
        if eligible {
          return;
        }
        i := i + 1;
      }
    }

    /** nextRankAndBank with one rank, where both policies take the same step. */
    function NextInTurn(bank: nat): nat
    {
      RoundRobin.NextRankAndBank(RoundRobin.RankThenBank, 1, cfg.banks, 0, bank).1
    }

    lemma TurnAdvances(start: nat, k: nat)
      requires start < cfg.banks
      ensures Turn(cfg, start, 0) == start
      ensures NextInTurn(Turn(cfg, start, k)) == Turn(cfg, start, k + 1)
      ensures Turn(cfg, start, cfg.banks) == start
    {
      RoundRobin.SingleRankTurn(cfg, RoundRobin.RankThenBank, Turn(cfg, start, k));
      var x := start + k;
      assert x == cfg.banks * (x / cfg.banks) + x % cfg.banks;
      if x % cfg.banks + 1 < cfg.banks {
        RefreshSchedule.Remainder(x / cfg.banks, x % cfg.banks + 1, cfg.banks);
      } else {
        assert x + 1 == cfg.banks * (x / cfg.banks + 1) + 0;
        RefreshSchedule.Remainder(x / cfg.banks + 1, 0, cfg.banks);
      }
      RefreshSchedule.Remainder(0, start, cfg.banks);
      RefreshSchedule.Remainder(1, start, cfg.banks);
    }

    /** Round robin over the queues; the pointer stops at the queue that is served and otherwise comes back around. */
    method FindInQueues() returns (c: Choice)
      requires Shaped()
      modifies this`nextBank
      ensures c == QueueChoice(cfg, bankStates[..], old(State()))
      ensures nextBank == if c.Send? && cfg.queuing.PerRankPerBank? then c.queue else old(nextBank)
    {
      if refreshWaiting {
        return Nothing;
      }
      if cfg.queuing == PerRank {
        var i := FindEligible(0);
        return if i < |queues[0]| then Send(0, i, true) else Nothing;
      }
      ghost var q := State();
      var starting := nextBank;
      TurnAdvances(starting, 0);
      ghost var k := 0;
      while true
        invariant 0 <= k < cfg.banks
        invariant nextBank == Turn(cfg, starting, k)
        invariant State() == q.(nextBank := nextBank)
        invariant FirstReady(cfg, bankStates[..], q, 0) == FirstReady(cfg, bankStates[..], q, k)
        decreases cfg.banks - k
      {
        var i := FindEligible(nextBank);
        SamePosition(nextBank, q);
        if i < |queues[nextBank]| {
          return Send(nextBank, i, true);
        }
        TurnAdvances(starting, k);
        nextBank := NextInTurn(nextBank);
        k := k + 1;
        if nextBank == starting {
          TurnReturns(starting, k);
          return Nothing;
        }
        TurnAdvances(starting, k);
      }
    }

    lemma TurnReturns(start: nat, k: nat)
      requires start < cfg.banks && 0 < k <= cfg.banks && Turn(cfg, start, k) == start
      ensures k == cfg.banks
    {
      if start + k < cfg.banks {
        RefreshSchedule.Remainder(0, start + k, cfg.banks);
      } else {
        RefreshSchedule.Remainder(1, start + k - cfg.banks, cfg.banks);
      }
    }

    /** Where the search stands in a queue does not depend on the round-robin pointer. */
    lemma SamePosition(n: nat, q: QueueState)
      requires Shaped() && n < |queues| && State() == q.(nextBank := nextBank)
      ensures Spec.Shaped(cfg, bankStates[..], q.(nextBank := 0))
      ensures FirstEligible(cfg, bankStates[..], State(), queues[n], 0) == FirstEligible(cfg, bankStates[..], q, q.queues[n], 0)
    {
      assert forall i :: 0 <= i < |queues[n]| ==>
        (Eligible(cfg, bankStates[..], State(), queues[n], i) <==> Eligible(cfg, bankStates[..], q, q.queues[n], i));
    }

    /** Open page, nothing to send: look in turn for an open bank that no queued command wants. */
    method FindRowToClose() returns (c: Choice)
      requires Shaped()
      modifies this`nextBankPRE
      ensures c == PrechargeChoice(cfg, bankStates[..], old(State()))
      ensures nextBankPRE == if c.CloseRow? then c.bank else old(nextBankPRE)
    {
      ghost var q := State();
      var starting := nextBankPRE;
      TurnAdvances(starting, 0);
      ghost var k := 0;
      while true
        invariant 0 <= k < cfg.banks
        invariant nextBankPRE == Turn(cfg, starting, k)
        invariant State() == q.(nextBankPre := nextBankPRE)
        invariant FirstClosable(cfg, bankStates[..], q, 0) == FirstClosable(cfg, bankStates[..], q, k)
        decreases cfg.banks - k
      {
        var b := nextBankPRE;
        if bankStates[b].state == RowActive {
          var s := queues[QueueIndex(cfg, b)];
          var j := FindForRow(s, b, bankStates[b].openRow);
          if j == |s| || rowAccessCounters[b] == cfg.totalRowAccesses {
            if currentClockCycle >= bankStates[b].nextPrecharge {
              return CloseRow(b, true);
            }
          }
        }
        TurnAdvances(starting, k);
        nextBankPRE := NextInTurn(nextBankPRE);
        k := k + 1;
        if nextBankPRE == starting {
          TurnReturns(starting, k);
          return Nothing;
        }
      }
    }

    /** Takes the chosen packet out of the queue and updates counters and flags. */
    method Take(c: Choice) returns (packet: Packet)
      requires !c.Nothing?
      requires c.Send? ==> c.queue < |queues| && c.index < |queues[c.queue]| && queues[c.queue][c.index].bank < |rowAccessCounters|
      requires c.CloseRow? ==> c.bank < |rowAccessCounters|
      modifies this`queues, this`rowAccessCounters, this`refreshWaiting
      ensures packet == Chosen(cfg, old(State()), c)
      ensures State() == Taken(cfg, old(State()), c).(nextBank := nextBank, nextBankPre := nextBankPRE)
    {
      match c {
        case Send(n, i, searched) =>
          packet := queues[n][i];
          if searched && cfg.rowPolicy == OpenPage && i > 0 && queues[n][i - 1].kind == ACTIVATE {
            rowAccessCounters := rowAccessCounters[packet.bank := rowAccessCounters[packet.bank] + 1];
            queues := queues[n := RemovePairAt(queues[n], i)];
          } else {
            queues := queues[n := RemoveAt(queues[n], i)];
          }
        case CloseRow(b, _) =>
          rowAccessCounters := rowAccessCounters[b := 0];
          packet := PrechargePacket(b);
        case SendRefresh =>
          packet := REFRESH_PACKET;
          refreshWaiting := false;
      }
    }

    /** Refresh first, then data packets, then (open page) rows to close. */
    method Decide() returns (c: Choice)
      requires Shaped()
      modifies this`nextBank, this`nextBankPRE
      ensures c == Choose(cfg, bankStates[..], old(State()))
      ensures nextBank == if c.Send? && c.searched && cfg.queuing.PerRankPerBank? then c.queue else old(nextBank)
      ensures nextBankPRE == if c.CloseRow? && c.searched then c.bank else old(nextBankPRE)
    {
      c := Nothing;
      if refreshWaiting {
        c := FindRefresh();
      }
      if c == Nothing {
        c := FindInQueues();
        if c == Nothing && cfg.rowPolicy == OpenPage {
          c := FindRowToClose();
        }
      }
    }

    /** The posted-CAS flag, the round-robin step and the activation window. */
    method Finish(kind: PacketKind)
      requires nextBank < cfg.banks
      modifies this`sendAct, this`nextBank, this`tFAWCountdown
      ensures State() == Finished(cfg, old(State()), kind)
    {
      if cfg.AL > 0 && sendAct {
        sendAct := false;
      } else {
        sendAct := true;
        TurnAdvances(nextBank, 0);
        nextBank := NextInTurn(nextBank);
      }
      if kind == ACTIVATE {
        tFAWCountdown := tFAWCountdown + [cfg.tFAW];
      }
    }

    /** One call of pop. */
    method Pop() returns (packet: Option<Packet>)
      requires Shaped()
      modifies this
      ensures (State(), packet) == Spec.Pop(cfg, bankStates[..], old(State()))
    {
      hide Choose, Finished, Turn;
      AgeActivations();
      ghost var aged := State();
      assert aged == old(State()).(window := AgeWindow(old(State()).window));
      SameShape(cfg, bankStates[..], old(State()), bankStates[..], aged);
      var c := Decide();
      if c == Nothing {
        return None;
      }
      assert State() == aged.(nextBank := nextBank, nextBankPre := nextBankPRE);
      var p := Take(c);
      assert State() == Taken(cfg, aged, c);
      Finish(p.kind);
      return Some(p);
    }
  }
}
