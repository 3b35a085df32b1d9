/** Where a step stops. The plugin knows the stepped work-item by its index alone
    and keeps stepping when a kernel ends, so a step stops in place exactly when
    its work-item has somewhere to stop before the kernel is over. */
module Steps {
  import opened Types
  import opened Plugin
  import opened Backend
  import opened Session
  import opened Agreement
  import opened Halts

  /** The last halt of a run. */
  function LastHalt(sim: Sim): Halt
    requires sim.log != []
  {
    sim.log[|sim.log| - 1]
  }

  /** Stepping a work-item that can be selected stops at an instruction of that
      index, and for a step over at a call depth no greater than when the step
      began; or the program runs to its end. Stepping one that cannot be selected
      moves nothing. */
  lemma StepStopsAtIndex(o: Oclgrind, w: World, over: bool, target: Size3)
    requires Ready(w) && w.b.halted
    ensures var v := Perform(o, w, Step(over, target)); var can := Selectable(o, w.sim.p, target);
      && (!can ==> v.sim == w.sim.(p := v.sim.p) && v.b.notified == w.b.notified && v.b.halted)
      && (can && v.b.halted ==>
            var item := SelectedItem(o, w.sim.p, target);
            && |v.sim.log| == |w.sim.log| + 1
            && LastHalt(v.sim).item.index == item.index
            && (over ==> LastHalt(v.sim).item.depth <= item.depth)
            && v.b.notified == w.b.notified + [Seen(LastHalt(v.sim))])
      && (can && !v.b.halted ==> v.sim.host == Exited && v.sim.trace == [] && v.b.notified == w.b.notified)
  {
    hide Handle, Selectable, SelectedItem, RunOn, Perform, TablesAgree;
    var op := Step(over, target);
    OperationKeepsAgreement(o, w, op);
    OperationEffect(o, w, op);
    if Resumed(o, w, op).Some? {
      var sim := w.sim.(p := Resumed(o, w, op).value);
      RunOnKeeps(sim);
      RunOnHaltsRight(sim);
    }
  }

  /** Event i of what is to come is a place for the step to stop in its own kernel
      invocation: a located instruction of the stepped work-item, before the
      kernel ends, at another line than its last halt, and for a step over no
      deeper than the step began. */
  predicate Reachable(lastLine: map<u64, u64>, trace: seq<Event>, item: WorkItem, over: bool, i: int)
    requires 0 <= i < |trace|
  {
    var e := trace[i];
    && e.Instruction? && e.item.index == item.index && e.line != 0 && NoBoundary(trace, 0, i)
    && Lookup(lastLine, item.index) != Some(e.line as u64)
    && (over ==> e.item.depth <= item.depth)
  }

  /** In the kernel invocation now running no other work-item has this one's
      index. */
  predicate IndexIsItsOwn(trace: seq<Event>, item: WorkItem) {
    forall i | 0 <= i < |trace| && NoBoundary(trace, 0, i) && trace[i].Instruction? ::
      trace[i].item.index == item.index ==>
        trace[i].item.global == item.global && trace[i].item.local == item.local && trace[i].item.group == item.group
  }

  /** The halt came in the kernel invocation the step began in. */
  predicate InPlace(trace: seq<Event>, h: Halt) {
    0 <= At(trace, h) < |trace| && NoBoundary(trace, 0, At(trace, h))
  }

  ghost predicate CanStop(lastLine: map<u64, u64>, trace: seq<Event>, item: WorkItem, over: bool) {
    exists i | 0 <= i < |trace| :: Reachable(lastLine, trace, item, over, i)
  }

  /** The halt is at the first such instruction. */
  predicate StopsFirst(lastLine: map<u64, u64>, trace: seq<Event>, item: WorkItem, over: bool, h: Halt) {
    var at := At(trace, h);
    && 0 <= at < |trace| && trace[at] == Instruction(h.item, h.line)
    && Reachable(lastLine, trace, item, over, at)
    && forall i | 0 <= i < at :: !Reachable(lastLine, trace, item, over, i)
  }

  lemma ReachableDeserves(p: State, item: WorkItem, over: bool, trace: seq<Event>, i: int)
    requires 0 <= i < |trace|
    ensures Reachable(p.lastLine, trace, item, over, i) <==>
      NoBoundary(trace, 0, i) && Deserves(SteppingFrom(p, over, item), trace, i)
  {
  }

  lemma RunOnStopsInPlaceIff(p: State, sim: Sim, item: WorkItem, over: bool)
    requires sim.p == SteppingFrom(p, over, item)
    ensures var r := RunOn(sim); r.host == Serving ==> r.log != []
    ensures var r := RunOn(sim);
      r.host == Serving && InPlace(sim.trace, LastHalt(r)) <==> CanStop(p.lastLine, sim.trace, item, over)
    ensures var r := RunOn(sim);
      r.host == Serving && InPlace(sim.trace, LastHalt(r)) ==>
        StopsFirst(p.lastLine, sim.trace, item, over, LastHalt(r))
  {
    hide RunOn, Deserves, Reachable, NoBoundary;
    RunOnHaltsFirst(sim);
    var r := RunOn(sim);
    forall i | 0 <= i < |sim.trace|
      ensures Reachable(p.lastLine, sim.trace, item, over, i) <==>
        NoBoundary(sim.trace, 0, i) && Deserves(sim.p, sim.trace, i)
    {
      ReachableDeserves(p, item, over, sim.trace, i);
    }
    if CanStop(p.lastLine, sim.trace, item, over) {
      var i :| 0 <= i < |sim.trace| && Reachable(p.lastLine, sim.trace, item, over, i);
      assert Deserves(sim.p, sim.trace, i);
      assert r.host == Serving;
      NoBoundarySooner(sim.trace, At(sim.trace, LastHalt(r)), i);
    }
  }

  lemma NoBoundarySooner(trace: seq<Event>, i: int, j: int)
    requires 0 <= i <= j <= |trace| && NoBoundary(trace, 0, j)
    ensures NoBoundary(trace, 0, i)
  {
  }

  /** The exact condition for a step to stop in place: there is somewhere to stop
      before the kernel is over. Then it stops at the first such instruction, and
      if no other work-item of the invocation has the index, in the very
      work-item that was selected. */
  lemma StepStopsInPlaceIff(o: Oclgrind, w: World, over: bool, target: Size3)
    requires Ready(w) && w.b.halted && Selectable(o, w.sim.p, target)
    ensures var v := Perform(o, w, Step(over, target)); var item := SelectedItem(o, w.sim.p, target);
      var trace, last := w.sim.trace, w.sim.p.lastLine;
      && (v.b.halted ==> v.sim.log != [])
      && (v.b.halted && InPlace(trace, LastHalt(v.sim)) <==> CanStop(last, trace, item, over))
      && (v.b.halted && InPlace(trace, LastHalt(v.sim)) ==>
            && StopsFirst(last, trace, item, over, LastHalt(v.sim))
            && (IndexIsItsOwn(trace, item) ==> LastHalt(v.sim).item.global == target))
  {
    hide Handle, RunOn, Perform, TablesAgree, Selectable, CanStop, StopsFirst, InPlace, IndexIsItsOwn;
    var op := Step(over, target);
    var item := SelectedItem(o, w.sim.p, target);
    OperationKeepsAgreement(o, w, op);
    OperationEffect(o, w, op);
    var v := Perform(o, w, op);
    RunOnStopsInPlaceIff(w.sim.p, w.sim.(p := SteppingFrom(w.sim.p, over, item)), item, over);
    if v.b.halted && InPlace(w.sim.trace, LastHalt(v.sim)) && IndexIsItsOwn(w.sim.trace, item) {
      OwnIndexIsTarget(w.sim.p.lastLine, w.sim.trace, item, over, LastHalt(v.sim));
    }
  }

  lemma OwnIndexIsTarget(lastLine: map<u64, u64>, trace: seq<Event>, item: WorkItem, over: bool, h: Halt)
    requires StopsFirst(lastLine, trace, item, over, h) && IndexIsItsOwn(trace, item)
    ensures h.item.global == item.global && h.item.local == item.local && h.item.group == item.group
  {
  }

  // ---- A step that does not stop in place ----

  const Stepped := WorkItem(5, 1, Size3(1, 1, 0), Size3(1, 1, 0), Size3(0, 0, 0))
  const Namesake := WorkItem(5, 1, Size3(5, 0, 0), Size3(5, 0, 0), Size3(0, 0, 0))

  /** Work-item (1, 1, 0) of a 4 by 4 kernel ends on the line it halted on; in the
      next kernel, 8 by 1, index 5 is work-item (5, 0, 0). */
  const TwoKernels := [
    KernelBegin(Size3(4, 4, 1)), Instruction(Stepped, 2), KernelEnd,
    KernelBegin(Size3(8, 1, 1)), Instruction(Namesake, 3)]

  const BreakRunStep := [SetBreakpoint(2), Launch, Resume, Step(false, Size3(1, 1, 0))]

  lemma SetIsSilent(o: Oclgrind, trace: seq<Event>, line: u32)
    requires line > 0
    ensures var w := Perform(o, Start(trace), SetBreakpoint(line));
      && Ready(w) && w.sim == Start(trace).sim && w.b.breakpoints == map[1 := line as u64] && w.b.notified == []
  {
    hide Handle, Deliver;
  }

  /** Two events, the second of which halts. */
  lemma RunOnTwo(sim: Sim)
    requires |sim.trace| >= 2 && !Observe(sim.p, sim.trace[0]).1
    requires Observe(Observe(sim.p, sim.trace[0]).0, sim.trace[1]).1
    ensures var e := sim.trace[1]; var rest := sim.trace[2..];
      RunOn(sim) == Sim(Observe(Observe(sim.p, sim.trace[0]).0, e).0, rest, Serving,
                        sim.log + [Halt(e.item, e.line, |rest|)])
  {
    hide Observe;
    assert sim.trace[1..][1..] == sim.trace[2..];
  }

  lemma RunOnSkips(sim: Sim)
    requires sim.trace != [] && !Observe(sim.p, sim.trace[0]).1
    ensures RunOn(sim) == RunOn(sim.(p := Observe(sim.p, sim.trace[0]).0, trace := sim.trace[1..]))
  {
    hide Observe;
  }

  lemma RunsToBreakpoint(o: Oclgrind, w: World)
    requires Ready(w) && w.b.halted && w.sim.trace == TwoKernels && w.sim.p.lines == {2} && w.sim.log == []
    requires w.b.notified == []
    ensures var v := Perform(o, w, Resume);
      && Ready(v) && v.b.halted && v.sim.trace == TwoKernels[2..] && v.sim.p.kernel == Some(Size3(4, 4, 1))
      && v.sim.log == [Halt(Stepped, 2, 3)] && v.b.notified == [Seen(v.sim.log[0])]
  {
    hide Perform, Handle;
    OperationKeepsAgreement(o, w, Resume);
    OperationEffect(o, w, Resume);
    var sim := w.sim.(p := Resumed(o, w, Resume).value);
    RunOnTwo(sim);
    assert RunOn(sim).log == [] + [Halt(Stepped, 2, 3)];
    assert [] + [Seen(Halt(Stepped, 2, 3))] == [Seen(Halt(Stepped, 2, 3))];
  }

  lemma RunsToNamesake(sim: Sim)
    requires sim.trace == TwoKernels[2..] && sim.p.mode == StepIn && sim.p.stepIndex == 5
    ensures var r := RunOn(sim); r.host == Serving && r.log == sim.log + [Halt(Namesake, 3, 0)]
  {
    hide RunOn;
    RunOnSkips(sim);
    var next := sim.(p := Observe(sim.p, KernelEnd).0, trace := sim.trace[1..]);
    assert next.trace == [KernelBegin(Size3(8, 1, 1)), Instruction(Namesake, 3)];
    RunOnTwo(next);
  }

  lemma StepsToNamesake(o: Oclgrind, w: World)
    requires Ready(w) && w.b.halted && w.sim.trace == TwoKernels[2..] && w.sim.p.kernel == Some(Size3(4, 4, 1))
    requires forall k :: o.switchTo(k, Size3(1, 1, 0)) == Some(Stepped)
    ensures var v := Perform(o, w, Step(false, Size3(1, 1, 0)));
      && v.b.halted && v.sim.log == w.sim.log + [Halt(Namesake, 3, 0)]
      && v.b.notified == w.b.notified + [Seen(Halt(Namesake, 3, 0))]
  {
    hide Perform, Handle, RunOn, Seen;
    var op := Step(false, Size3(1, 1, 0));
    OperationKeepsAgreement(o, w, op);
    OperationEffect(o, w, op);
    hide FreshIds, TablesAgree, Attends;
    assert SelectedItem(o, w.sim.p, Size3(1, 1, 0)) == Stepped;
    RunsToNamesake(w.sim.(p := SteppingFrom(w.sim.p, false, Stepped)));
  }

  lemma FourOperations(o: Oclgrind, w: World, ops: seq<Op>)
    requires |ops| == 4 && Lawful(w.b, ops[0])
    requires !ops[1].SetBreakpoint? && !ops[1].Evaluate? && !ops[2].SetBreakpoint? && !ops[2].Evaluate?
    requires !ops[3].SetBreakpoint? && !ops[3].Evaluate?
    ensures LawfulRun(o, w, ops)
    ensures Run(o, w, ops) == Perform(o, Perform(o, Perform(o, Perform(o, w, ops[0]), ops[1]), ops[2]), ops[3])
  {
    hide Perform;
    assert ops[..0] == [] && ops[..4] == ops;
    forall k | 0 <= k < 4
      ensures ops[..k + 1][..k] == ops[..k] && Run(o, w, ops[..k + 1]) == Perform(o, Run(o, w, ops[..k]), ops[k])
      ensures LawfulRun(o, w, ops[..k + 1]) <==> LawfulRun(o, w, ops[..k]) && Lawful(Run(o, w, ops[..k]).b, ops[k])
    {
      assert ops[..k + 1][..k] == ops[..k];
    }
    assert Run(o, w, ops[..0]) == w && LawfulRun(o, w, ops[..0]);
    assert LawfulRun(o, w, ops[..0 + 1]) && LawfulRun(o, w, ops[..1 + 1]) && LawfulRun(o, w, ops[..2 + 1]);
  }

  /** Break, resume, step: the step ends in another kernel's work-item, with other
      coordinates than those stepped. */
  lemma StepLeavesKernel(o: Oclgrind)
    requires forall k :: o.switchTo(k, Size3(1, 1, 0)) == Some(Stepped)
    ensures LawfulRun(o, Start(TwoKernels), BreakRunStep)
    ensures var w := Run(o, Start(TwoKernels), BreakRunStep);
      w.b.halted && |w.b.notified| == 2
      && w.b.notified[0].global == Size3(1, 1, 0) && w.b.notified[1].global == Size3(5, 0, 0)
  {
    hide Perform, Handle, Run, LawfulRun;
    FourOperations(o, Start(TwoKernels), BreakRunStep);
    var w1 := Perform(o, Start(TwoKernels), SetBreakpoint(2));
    SetIsSilent(o, TwoKernels, 2);
    var w2 := Perform(o, w1, Launch);
    LaunchIsSound(o, w1);
    OneIdArmed(w2.sim.p);
    var w3 := Perform(o, w2, Resume);
    RunsToBreakpoint(o, w2);
    StepsToNamesake(o, w3);
  }

  lemma OneIdArmed(p: State)
    requires p.ids == map[1 := 2] && forall line :: line in p.lines <==> Uses(p.ids, line)
    ensures p.lines == {2}
  {
    assert p.ids[1] == 2;
  }
}
