/** Order and conservation over whole runs. */
module RunOrder {
  import opened DramTypes
  import opened Wrappers
  import opened MemoryController
  import opened MemorySystem
  import opened TransactionFlow
  import opened Collecting
  import opened ReadConservation
  import opened Runs
  import QueueFlow

  /** The column command of one row in a slot of the command trace. */
  function SlotColumn(bank: nat, row: nat): Option<Packet> -> Option<Transaction> {
    (o: Option<Packet>) => if o.Some? then ColumnOf(bank, row)(o.value) else None
  }

  /** The write data that a slot of the command trace announces. */
  function SlotWrite(): Option<Packet> -> Option<Packet> {
    (o: Option<Packet>) => if o.Some? && o.value.kind.IsWrite() then Some(o.value.(kind := DATA)) else None
  }

  lemma CycleLine(cfg: Config, s: System, bank: nat, row: nat)
    requires Steady(cfg, s)
    ensures Shaped(cfg, s) && Cycle(cfg, s).Ok?
    ensures
      var (s', out) := Cycle(cfg, s).value;
      Line(cfg, s.controller, bank, row) + Collect(OptionSeq(Admitted(cfg, s)), WantsRow(cfg, bank, row))
      == CollectOption(out.issued, ColumnOf(bank, row)) + Line(cfg, s'.controller, bank, row)
  {
    CycleSteady(cfg, s);
    BeginAhead(cfg, s);
    var (m, r) := Begin(cfg, s).value;
    UpdateLine(cfg, m, r, s.controller.clock - 1, bank, row);
    CycleParts(cfg, s);
    var f := WantsRow(cfg, bank, row);
    CollectConcat(s.controller.transactions, OptionSeq(Admitted(cfg, s)), f);
    Regroup(Collect(QueueFlow.QueueAt(cfg, m.queue, bank), ColumnOf(bank, row)), Collect(s.controller.transactions, f),
            Collect(OptionSeq(Admitted(cfg, s)), f));
    var (m', r', out) := MemoryController.Update(cfg, m, r).value;
    assert Line(cfg, m'.(clock := m'.clock + 1), bank, row) == Line(cfg, m', bank, row);
  }

  lemma CycleReads(cfg: Config, s: System, a: nat)
    requires Steady(cfg, s)
    ensures Shaped(cfg, s) && Cycle(cfg, s).Ok?
    ensures
      var (s', out) := Cycle(cfg, s).value;
      Unanswered(s.controller, a) + Collect(OptionSeq(Admitted(cfg, s)), ReadOf(a))
      == CollectOption(out.returned, WaitingAt(a)) + Unanswered(s'.controller, a)
  {
    CycleSteady(cfg, s);
    BeginAhead(cfg, s);
    var (m, r) := Begin(cfg, s).value;
    UpdateReads(cfg, m, r, s.controller.clock - 1, a);
    CycleParts(cfg, s);
    CollectConcat(s.controller.transactions, OptionSeq(Admitted(cfg, s)), ReadOf(a));
    Regroup(Collect(s.controller.pendingReads, WaitingAt(a)), Collect(s.controller.transactions, ReadOf(a)),
            Collect(OptionSeq(Admitted(cfg, s)), ReadOf(a)));
    var (m', r', out) := MemoryController.Update(cfg, m, r).value;
    assert Unanswered(m'.(clock := m'.clock + 1), a) == Unanswered(m', a);
  }

  lemma CycleWrites(cfg: Config, s: System)
    requires Steady(cfg, s)
    ensures Shaped(cfg, s) && Cycle(cfg, s).Ok?
    ensures
      var (s', out) := Cycle(cfg, s).value;
      Unwritten(s.controller) + WriteOf(out.issued) == OptionSeq(out.written) + Unwritten(s'.controller)
  {
    CycleSteady(cfg, s);
    BeginAhead(cfg, s);
    var (m, r) := Begin(cfg, s).value;
    UpdateWrites(cfg, m, r, s.controller.clock - 1);
    CycleParts(cfg, s);
    assert Unwritten(m) == Unwritten(s.controller);
  }

  /** a + b == c and b + x == y + b' give (a + y) + b' == c + x. */
  lemma Carry<T>(a: seq<T>, b: seq<T>, c: seq<T>, x: seq<T>, y: seq<T>, b': seq<T>)
    requires a + b == c && b + x == y + b'
    ensures (a + y) + b' == c + x
  {
    Regroup(a, b, x);
    Regroup(a, y, b');
  }

  /**
   * Per row, commands issue in the order in which the controller accepted their transactions: what has been
   * issued, followed by what is queued and what waits to be split, is exactly what has been accepted.
   */
  lemma {:induction false} RowOrder(cfg: Config, events: seq<Event>, bank: nat, row: nat)
    requires cfg.Valid()
    ensures Run(cfg, events).Ok?
    ensures
      var t := Run(cfg, events).value;
      Collect(t.trace, SlotColumn(bank, row)) + Line(cfg, t.system.controller, bank, row)
      == Collect(t.accepted, WantsRow(cfg, bank, row))
  {
    hide Cycle, Steady, Advance;
    var f := WantsRow(cfg, bank, row);
    if events != [] {
      var before := events[..|events| - 1];
      RowOrder(cfg, before, bank, row);
      NoFault(cfg, before);
      var t := Run(cfg, before).value;
      match events[|events| - 1]
      case Arrive(tr) =>
        RunArrives(cfg, events, t, tr);
        if WillAccept(cfg, t.system.controller) {
          CollectAppend(t.accepted, tr, f);
          CollectAppend(t.system.controller.transactions, tr, f);
          Regroup(Collect(QueueFlow.QueueAt(cfg, t.system.controller.queue, bank), ColumnOf(bank, row)),
                  Collect(t.system.controller.transactions, f), CollectOption(Some(tr), f));
          Regroup(Collect(t.trace, SlotColumn(bank, row)), Line(cfg, t.system.controller, bank, row), CollectOption(Some(tr), f));
        }
      case Tick =>
        CycleLine(cfg, t.system, bank, row);
        var (s', out) := Cycle(cfg, t.system).value;
        RunTicks(cfg, events, t, s', out);
        var admitted := OptionSeq(Admitted(cfg, t.system));
        CollectAppend(t.trace, out.issued, SlotColumn(bank, row));
        CollectConcat(t.accepted, admitted, f);
        Carry(Collect(t.trace, SlotColumn(bank, row)), Line(cfg, t.system.controller, bank, row), Collect(t.accepted, f),
              Collect(admitted, f), CollectOption(out.issued, ColumnOf(bank, row)), Line(cfg, s'.controller, bank, row));
    }
  }

  /**
   * Per address, reads are answered in the order in which they were accepted, each with its own callback and
   * at most once: the answers, followed by the reads still open, are exactly the reads accepted.
   */
  lemma {:induction false} ReadOrder(cfg: Config, events: seq<Event>, a: nat)
    requires cfg.Valid()
    ensures Run(cfg, events).Ok?
    ensures
      var t := Run(cfg, events).value;
      Collect(t.returned, WaitingAt(a)) + Unanswered(t.system.controller, a) == Collect(t.accepted, ReadOf(a))
  {
    hide Cycle, Steady, Advance;
    if events != [] {
      var before := events[..|events| - 1];
      ReadOrder(cfg, before, a);
      NoFault(cfg, before);
      var t := Run(cfg, before).value;
      match events[|events| - 1]
      case Arrive(tr) =>
        RunArrives(cfg, events, t, tr);
        if WillAccept(cfg, t.system.controller) {
          CollectAppend(t.accepted, tr, ReadOf(a));
          CollectAppend(t.system.controller.transactions, tr, ReadOf(a));
          Regroup(Collect(t.system.controller.pendingReads, WaitingAt(a)), Collect(t.system.controller.transactions, ReadOf(a)),
                  CollectOption(Some(tr), ReadOf(a)));
          Regroup(Collect(t.returned, WaitingAt(a)), Unanswered(t.system.controller, a), CollectOption(Some(tr), ReadOf(a)));
        }
      case Tick =>
        CycleReads(cfg, t.system, a);
        var (s', out) := Cycle(cfg, t.system).value;
        RunTicks(cfg, events, t, s', out);
        var admitted := OptionSeq(Admitted(cfg, t.system));
        CollectConcat(t.returned, OptionSeq(out.returned), WaitingAt(a));
        CollectAppend([], if out.returned.Some? then out.returned.value else Transaction(false, 0, 0), WaitingAt(a));
        assert Collect(OptionSeq(out.returned), WaitingAt(a)) == CollectOption(out.returned, WaitingAt(a)) by {
          if out.returned.Some? {
            assert [] + [out.returned.value] == OptionSeq(out.returned);
          }
        }
        CollectConcat(t.accepted, admitted, ReadOf(a));
        Carry(Collect(t.returned, WaitingAt(a)), Unanswered(t.system.controller, a), Collect(t.accepted, ReadOf(a)),
              Collect(admitted, ReadOf(a)), CollectOption(out.returned, WaitingAt(a)), Unanswered(s'.controller, a));
    }
  }

  /** Writes are completed in the order of their commands, each exactly once. */
  lemma {:induction false} WriteOrder(cfg: Config, events: seq<Event>)
    requires cfg.Valid()
    ensures Run(cfg, events).Ok?
    ensures
      var t := Run(cfg, events).value;
      t.written + Unwritten(t.system.controller) == Collect(t.trace, SlotWrite())
  {
    hide Cycle, Steady, Advance;
    if events != [] {
      var before := events[..|events| - 1];
      WriteOrder(cfg, before);
      NoFault(cfg, before);
      var t := Run(cfg, before).value;
      match events[|events| - 1]
      case Arrive(tr) => RunArrives(cfg, events, t, tr);
      case Tick =>
        CycleWrites(cfg, t.system);
        var (s', out) := Cycle(cfg, t.system).value;
        RunTicks(cfg, events, t, s', out);
        CollectAppend(t.trace, out.issued, SlotWrite());
        Carry(t.written, Unwritten(t.system.controller), Collect(t.trace, SlotWrite()),
              WriteOf(out.issued), OptionSeq(out.written), Unwritten(s'.controller));
    }
  }
}
