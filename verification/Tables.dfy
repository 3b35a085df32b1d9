/** Which breakpoints there are, read off the user's operations alone: the k-th
    breakpoint set has id k, and stays until that id is removed. */
module Tables {
  import opened Types
  import opened Plugin
  import opened Backend
  import opened Session
  import opened Agreement

  /** How many breakpoints have been set; a line of 0 sets none. */
  function CountSet(ops: seq<Op>): nat {
    if ops == [] then 0
    else
      var n := |ops| - 1;
      CountSet(ops[..n]) + if ops[n].SetBreakpoint? && ops[n].line != 0 then 1 else 0
  }

  /** Id `id` was given to a breakpoint at the line, and has not been removed
      since. */
  predicate Outstanding(ops: seq<Op>, id: int, line: int)
    decreases |ops|
  {
    ops != [] &&
    var n := |ops| - 1;
    match ops[n]
    case SetBreakpoint(l) =>
      if l != 0 && id == CountSet(ops[..n]) + 1 then line == l else Outstanding(ops[..n], id, line)
    case RemoveBreakpoint(gone) => id != gone && Outstanding(ops[..n], id, line)
    case _ => Outstanding(ops[..n], id, line)
  }

  ghost predicate InUse(ops: seq<Op>, line: int) {
    exists id: u64 :: Outstanding(ops, id, line)
  }

  /** What an operation does to the debugger's table. */
  lemma OperationOnTable(o: Oclgrind, w: World, op: Op)
    requires Ready(w) && Lawful(w.b, op)
    ensures var v, had := Perform(o, w, op).b, w.b.breakpoints;
      match op
      case SetBreakpoint(line) =>
        if line == 0 then v.breakpoints == had && v.nextId == w.b.nextId
        else v.breakpoints == had[w.b.nextId := line as u64] && v.nextId == w.b.nextId + 1
      case RemoveBreakpoint(id) => v.breakpoints == had - {id} && v.nextId == w.b.nextId
      case _ => v.breakpoints == had && v.nextId == w.b.nextId
  {
    hide Handle, Selectable, SelectedItem, FreshIds, TablesAgree, Attends;
    match op
    case Launch =>
      if w.sim.host == Absent {
        LaunchIsSound(o, w);
      }
    case SetBreakpoint(line) =>
      if line > 0 && w.b.halted {
        SetIsSound(o, w, line);
      }
    case RemoveBreakpoint(id) =>
      if id in w.b.breakpoints && w.b.halted {
        RemoveIsSound(o, w, id);
      }
      assert Erased(w.b.breakpoints, id) == w.b.breakpoints - {id};
    case Resume =>
      if w.b.halted {
        ResumeHandled(o, w.sim.p);
        Resumes(o, w, "continue");
      }
    case Step(over, target) =>
      if w.b.halted {
        StepIsSound(o, w, over, target);
        SelectIsSound(o, w, target);
      }
    case Select(target) =>
      if w.b.halted {
        SelectIsSound(o, w, target);
      }
    case Read(address, length) =>
      if w.b.halted && length > 0 {
        AskIsSound(o, w, op);
      }
    case Evaluate(name) =>
      if w.b.halted && w.b.attached && name != "" {
        AskIsSound(o, w, op);
      }
    case Detach =>
  }

  /** Over every lawful run the debugger's table is exactly the outstanding
      breakpoints, and the next id counts the breakpoints set. */
  lemma {:induction false} TableIsOutstanding(o: Oclgrind, trace: seq<Event>, ops: seq<Op>, id: u64, line: u64)
    requires LawfulRun(o, Start(trace), ops)
    ensures var b := Run(o, Start(trace), ops).b;
      && b.nextId == CountSet(ops) + 1
      && (id in b.breakpoints && b.breakpoints[id] == line <==> Outstanding(ops, id, line))
    decreases |ops|
  {
    hide Perform, Lawful, Ready;
    if ops != [] {
      var k := |ops| - 1;
      TablesAgreeOverRuns(o, trace, ops[..k]);
      TableIsOutstanding(o, trace, ops[..k], id, line);
      OperationOnTable(o, Run(o, Start(trace), ops[..k]), ops[k]);
    }
  }

  /** Whenever the program is halted, the plugin's table is the outstanding
      breakpoints too, and armed are exactly their lines. */
  lemma ArmedIsOutstanding(o: Oclgrind, trace: seq<Event>, ops: seq<Op>)
    requires LawfulRun(o, Start(trace), ops)
    ensures var w := Run(o, Start(trace), ops);
      w.b.halted ==>
        && (forall id: u64, line: u64 :: id in w.sim.p.ids && w.sim.p.ids[id] == line <==> Outstanding(ops, id, line))
        && (forall line: u64 :: line in w.sim.p.lines <==> InUse(ops, line))
  {
    hide Run, LawfulRun;
    TablesAgreeOverRuns(o, trace, ops);
    var w := Run(o, Start(trace), ops);
    forall id: u64, line: u64
      ensures id in w.b.breakpoints && w.b.breakpoints[id] == line <==> Outstanding(ops, id, line)
    {
      TableIsOutstanding(o, trace, ops, id, line);
    }
    if w.b.halted {
      forall line: u64 ensures line in w.sim.p.lines <==> InUse(ops, line) {
        ArmedIff(w, line);
        if line in w.sim.p.lines {
          var id: u64 :| id in w.sim.p.ids && w.sim.p.ids[id] == line;
          assert Outstanding(ops, id, line);
        }
      }
    }
  }

  lemma ArmedIff(w: World, line: u64)
    requires Ready(w) && w.b.halted
    ensures line in w.sim.p.lines <==> exists id: u64 :: id in w.sim.p.ids && w.sim.p.ids[id] == line
  {
    assert line in w.sim.p.lines <==> Uses(w.sim.p.ids, line);
  }

  /** A breakpoint set is answered with its id, whether or not the program is
      halted; a line of 0 is refused. */
  lemma SetIsAnswered(o: Oclgrind, trace: seq<Event>, ops: seq<Op>, line: u32)
    requires LawfulRun(o, Start(trace), ops + [SetBreakpoint(line)])
    ensures var r := Run(o, Start(trace), ops + [SetBreakpoint(line)]).result;
      r.Id? && r.id == if line == 0 then 0 else CountSet(ops) + 1
  {
    hide Perform, Ready;
    var all := ops + [SetBreakpoint(line)];
    assert all[..|ops|] == ops;
    TablesAgreeOverRuns(o, trace, ops);
    TableIsOutstanding(o, trace, ops, 0, 0);
    SetAnswer(o, Run(o, Start(trace), ops), line);
  }

  lemma SetAnswer(o: Oclgrind, w: World, line: u32)
    requires Ready(w) && Lawful(w.b, SetBreakpoint(line))
    ensures Perform(o, w, SetBreakpoint(line)).result == Id(if line == 0 then 0 else w.b.nextId)
  {
    hide Handle, TablesAgree, Attends;
    if line > 0 && w.b.halted {
      SetIsSound(o, w, line);
    }
  }
}
