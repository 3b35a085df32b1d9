/** What every operation keeps: the two breakpoint tables agree, the debugger
    believes itself halted exactly when the plugin is, and no conversation can
    go wrong half-way. */
module Agreement {
  import opened Types
  import opened Text
  import opened Channel
  import opened Plugin
  import opened Backend
  import opened Session

  /** Every answer fits on one line, whatever Oclgrind printed. */
  lemma AnswersOneLine(o: Oclgrind, sim: Sim, command: string)
    ensures var got := Answer(o, sim, command).1; got.Some? ==> OneLine(got.value)
  {
    hide Handle, StopLine, RunOn;
  }

  /** What commands other than resumes leave alone in the plugin. */
  predicate SameRun(p: State, q: State) {
    p.lastLine == q.lastLine && p.mode == q.mode && p.stepIndex == q.stepIndex && p.stepDepth == q.stepDepth &&
    p.kernel == q.kernel
  }

  /** A halt as the debugger reports it. */
  function Seen(h: Halt): OCLWorkItem {
    OCLWorkItem(h.item.global, h.item.local, h.item.group, h.line)
  }

  /** What the stop callback is told after running on. */
  function Told(sim: Sim): seq<OCLWorkItem> {
    if sim.host == Serving && sim.log != [] then [Seen(sim.log[|sim.log| - 1])] else []
  }

  // ---- Resuming ----

  /** Interpreting leaves the breakpoint tables alone and logs at most one halt,
      the one it stops for. */
  lemma {:induction false} RunOnKeeps(sim: Sim)
    ensures var r := RunOn(sim);
      && r.p.ids == sim.p.ids && r.p.lines == sim.p.lines && r.p.mode == sim.p.mode
      && r.p.stepIndex == sim.p.stepIndex && r.p.stepDepth == sim.p.stepDepth && r.p.served == sim.p.served
      && (r.host == Exited ==> r.trace == [] && r.log == sim.log)
      && (r.host == Serving ==>
            |r.log| == |sim.log| + 1 && r.log[..|sim.log|] == sim.log && r.p.current == Some(r.log[|sim.log|].item))
    decreases |sim.trace|
  {
    hide ShouldHalt;
    if sim.trace != [] {
      var (q, halts) := Observe(sim.p, sim.trace[0]);
      if !halts {
        RunOnKeeps(sim.(p := q, trace := sim.trace[1..]));
      }
    }
  }

  /** A stop line tells the debugger exactly which work-item halted where: all
      ten fields survive printing and parsing. */
  lemma StopIsRead(b: Debugger, item: WorkItem, line: u32)
    ensures var seen := OCLWorkItem(item.global, item.local, item.group, line);
      StoppedAt(b, StopLine(item, line)) ==
        b.(stopLine := line, stopped := Some(seen), attached := true, halted := true, notified := b.notified + [seen])
  {
    hide Tail, Numbers, AfterWords, FirstWord;
    var args := [line] + Coords(item.global) + Coords(item.local) + Coords(item.group);
    MessageNumbers("stopped", args);
    assert |args| == 10;
    assert Low32(line) == line;
  }

  /** A stop line of any ten or more numbers: the first is the line, cut to 32 bits,
      and the next nine the coordinates. */
  lemma StopFieldsAreRead(b: Debugger, args: seq<u64>)
    requires |args| >= 10
    ensures var c := StoppedAt(b, "stopped" + Tail(args));
      && c.halted && c.attached && c.stopLine == args[0] % 0x1_0000_0000
      && c.stopped == Some(OCLWorkItem(Size3(args[1], args[2], args[3]), Size3(args[4], args[5], args[6]),
                                       Size3(args[7], args[8], args[9]), args[0] % 0x1_0000_0000))
      && c.notified == b.notified + [c.stopped.value]
  {
    hide Tail, Numbers, AfterWords, FirstWord;
    MessageNumbers("stopped", args);
  }

  /** The lines as they are on the wire: words and decimal numbers, each after one
      blank. */
  lemma WireFormat(id: u64, n: u64, at: Size3, over: bool, name: string, item: WorkItem, where: u32)
    ensures BreakCommand(id, n) == "break" + (" " + Dec(id) + (" " + Dec(n)))
    ensures DeleteCommand(id) == "delete" + (" " + Dec(id))
    ensures SelectCommand(at) == "select" + Numbers3(at)
    ensures ReadCommand(id, n) == "read" + (" " + Dec(id) + (" " + Dec(n)))
    ensures StepCommand(over) == if over then "step over" else "step in"
    ensures PrintCommand(name) == "print " + name
    ensures StopLine(item, where) ==
      "stopped" + (" " + Dec(where) + (Numbers3(item.global) + (Numbers3(item.local) + Numbers3(item.group))))
  {
    hide Dec, Tail;
    NothingTails();
    TailOne(n);
    TailOne(id);
    TailMore(id, [n]);
    assert [id] + [n] == [id, n];
    TailThree(at, []);
    assert Coords(at) + [] == Coords(at);
    var group, rest := Coords(item.group), Coords(item.local) + Coords(item.group);
    TailThree(item.group, []);
    assert group + [] == group;
    TailThree(item.local, group);
    TailThree(item.global, rest);
    TailMore(where, Coords(item.global) + rest);
    assert [where] + Coords(item.global) + Coords(item.local) + Coords(item.group)
      == [where] + (Coords(item.global) + rest);
    assert Numbers3(at) + "" == Numbers3(at) && Numbers3(item.group) + "" == Numbers3(item.group);
  }

  function Numbers3(s: Size3): string { " " + Dec(s.x) + " " + Dec(s.y) + " " + Dec(s.z) }

  lemma TailOne(n: u64)
    ensures Tail([n]) == " " + Dec(n)
  {
    hide Dec;
    assert [n][1..] == [];
    assert " " + Dec(n) + "" == " " + Dec(n);
  }

  lemma TailMore(n: u64, rest: seq<u64>)
    ensures Tail([n] + rest) == " " + Dec(n) + Tail(rest)
  {
    hide Dec;
    assert ([n] + rest)[1..] == rest;
  }

  lemma TailThree(s: Size3, rest: seq<u64>)
    ensures Tail(Coords(s) + rest) == Numbers3(s) + Tail(rest)
  {
    hide Dec, Tail;
    TailMore(s.z, rest);
    TailMore(s.y, [s.z] + rest);
    TailMore(s.x, [s.y] + ([s.z] + rest));
    assert Coords(s) + rest == [s.x] + ([s.y] + ([s.z] + rest));
    var x, y, z := " " + Dec(s.x), " " + Dec(s.y), " " + Dec(s.z);
    assert x + (y + (z + Tail(rest))) == (x + y + z) + Tail(rest);
    assert x + y + z == Numbers3(s);
  }

  lemma NothingTails()
    ensures Tail([]) == ""
  {
  }

  /** The answer to a select, of any six or more numbers: the local id, then the
      group. */
  lemma SelectFieldsAreRead(b: Debugger, target: Size3, args: seq<u64>)
    requires |args| >= 6
    ensures SelectedFrom(b, target, Some("ok" + Tail(args))) ==
      Some(OCLWorkItem(target, Size3(args[0], args[1], args[2]), Size3(args[3], args[4], args[5]), b.stopLine))
  {
    hide Tail, FirstWord, Fields;
    OkIsRead(args);
  }

  /** Whatever resumes the plugin ends well: with the debugger told of the stop,
      or with both ends closed. */
  lemma Resumes(o: Oclgrind, w: World, command: string)
    requires Ready(w) && w.b.halted && OneLine(command)
    requires Handle(o, w.sim.p, command).1.Go?
    requires var q := Handle(o, w.sim.p, command).0; q.ids == w.sim.p.ids && q.lines == w.sim.p.lines
    ensures var act := ResumeWith(w.b, command, Nothing); var v := Settle(o, w.sim, act);
      && Sound(o, w.sim, act) && Ready(v)
      && v.sim == RunOn(w.sim.(p := Handle(o, w.sim.p, command).0))
      && v.b.notified == w.b.notified + Told(v.sim)
      && v.b.breakpoints == w.b.breakpoints && v.b.nextId == w.b.nextId
      && (v.b.halted ==> v.b.attached)
  {
    hide Handle, StopLine, RunOn, StoppedAt;
    var sim := w.sim.(p := Handle(o, w.sim.p, command).0);
    RunOnKeeps(sim);
    var next := RunOn(sim);
    var b := w.b.(halted := false);
    assert Answer(o, w.sim, command) == (next, LastStop(next));
    if next.host == Serving {
      var h := next.log[|next.log| - 1];
      StopIsRead(b, h.item, h.line);
      assert Settle(o, w.sim, Ask(b, command, Stopped)).b == StoppedAt(b, StopLine(h.item, h.line));
    }
  }

  // ---- The other operations ----

  /** An operation of one exchange, spelt out. */
  lemma OneExchange(o: Oclgrind, sim: Sim, b: Debugger, command: string, cont: Cont)
    requires sim.host == Serving && b.open && OneLine(command)
    requires var (next, got) := Answer(o, sim, command); Deliver(b, cont, got).Done?
    ensures var (next, got) := Answer(o, sim, command); var end := Deliver(b, cont, got);
      && Settle(o, sim, Ask(b, command, cont)) == World(end.b, next, end.result)
      && (Sound(o, sim, Ask(b, command, cont)) <==> Quiet(end.b, next.host))
  {
    hide Handle, Deliver, RunOn, LastStop;
    var (next, got) := Answer(o, sim, command);
    assert Settle(o, next, Deliver(b, cont, got)) == World(Deliver(b, cont, got).b, next, Deliver(b, cont, got).result);
  }

  lemma OkIsRead(args: seq<u64>)
    ensures IsOk(Some("ok" + Tail(args))) && Fields("ok" + Tail(args)) == args
  {
    MessageNumbers("ok", args);
  }

  lemma ErrIsNotOk(reason: string)
    ensures !IsOk(Some("err " + reason))
  {
    hide FirstWord, Words, AfterWord;
    assert "err " + reason == "err" + (" " + reason);
    WordSplits("err", " " + reason);
  }

  lemma SetIsSound(o: Oclgrind, w: World, line: u32)
    requires Ready(w) && w.b.halted && line > 0 && w.b.nextId < U64 - 1
    ensures var act := Begin(w.b, SetBreakpoint(line)); Sound(o, w.sim, act)
    ensures var id := w.b.nextId; var v := Perform(o, w, SetBreakpoint(line));
      && Ready(v) && v.result == Id(id) && v.sim == w.sim.(p := v.sim.p) && SameRun(v.sim.p, w.sim.p)
      && v.b == w.b.(breakpoints := w.b.breakpoints[id := line], nextId := id + 1)
  {
    hide Handle, BreakCommand, Fields, FirstWord;
    var id := w.b.nextId;
    BreakHandled(o, w.sim.p, id, line);
    OkIsRead([]);
    assert "ok" + Tail([]) == "ok";
    OneExchange(o, w.sim, Begin(w.b, SetBreakpoint(line)).b, BreakCommand(id, line), Added(id));
    var p := w.sim.p;
    assert id !in p.ids;
    forall l ensures l in p.lines + {line} <==> Uses(p.ids[id := line as u64], l) {
      if l == line {
        assert p.ids[id := line as u64][id] == l;
      } else if l in p.lines {
        var k :| k in p.ids && p.ids[k] == l;
        assert p.ids[id := line as u64][k] == l;
      }
    }
  }

  lemma RemoveIsSound(o: Oclgrind, w: World, id: u64)
    requires Ready(w) && w.b.halted && id in w.b.breakpoints
    ensures var act := Begin(w.b, RemoveBreakpoint(id)); Sound(o, w.sim, act)
    ensures var v := Perform(o, w, RemoveBreakpoint(id));
      && Ready(v) && v.result == Nothing && v.b == Forget(w.b, id)
      && v.sim == w.sim.(p := v.sim.p) && SameRun(v.sim.p, w.sim.p)
  {
    hide Handle, DeleteCommand;
    DeleteHandled(o, w.sim.p, id);
    OneExchange(o, w.sim, Forget(w.b, id), DeleteCommand(id), Removed);
    var p, left := w.sim.p, Erased(w.sim.p.ids, id);
    var lines := if Uses(left, p.ids[id]) then p.lines else p.lines - {p.ids[id]};
    forall l ensures l in lines <==> Uses(left, l) {
      if Uses(p.ids, l) && l != p.ids[id] {
        var k :| k in p.ids && p.ids[k] == l;
        assert left[k] == l;
      }
      if Uses(left, l) {
        var k :| k in left && left[k] == l;
        assert p.ids[k] == l;
      }
    }
  }

  /** A work-item can be selected: a kernel runs, the coordinates are inside it,
      and Oclgrind reaches the work-item when asked for those coordinates. */
  predicate Selectable(o: Oclgrind, p: State, target: Size3) {
    && p.kernel.Some?
    && target.x < p.kernel.value.x && target.y < p.kernel.value.y && target.z < p.kernel.value.z
    && o.switchTo(p.served, target).Some?
  }

  function SelectedItem(o: Oclgrind, p: State, target: Size3): WorkItem
    requires Selectable(o, p, target)
  {
    var reached := o.switchTo(p.served, target).value;
    WorkItem(reached.index, reached.depth, target, reached.local, reached.group)
  }

  lemma SwitchedIs(o: Oclgrind, p: State, target: Size3)
    ensures Switched(o, p, target) ==
      if Selectable(o, p, target) then Some(SelectedItem(o, p, target)) else None
  {
  }

  /** A select succeeds exactly for a work-item that can be selected, which then is
      the plugin's active one, so a step sent next is never refused; otherwise
      nothing changes. */
  lemma SelectIsSound(o: Oclgrind, w: World, target: Size3)
    requires Ready(w) && w.b.halted
    ensures Sound(o, w.sim, Begin(w.b, Select(target)))
    ensures var v := Perform(o, w, Select(target));
      && Ready(v)
      && (!Selectable(o, w.sim.p, target) ==>
            v.result == Picked(None) && v.b == w.b && v.sim.p == w.sim.p.(served := w.sim.p.served + 1))
      && (Selectable(o, w.sim.p, target) ==>
            var item := SelectedItem(o, w.sim.p, target);
            var seen := OCLWorkItem(target, item.local, item.group, w.b.stopLine);
            && v.result == Picked(Some(seen)) && v.b == w.b.(stopped := Some(seen), attached := true)
            && v.sim.p == w.sim.p.(current := Some(item), served := w.sim.p.served + 1)
            && Active(v.sim.p) == Some(item))
      && v.sim == w.sim.(p := v.sim.p)
  {
    hide Handle, SelectCommand, FirstWord, Fields, Tail;
    SelectHandled(o, w.sim.p, target);
    SwitchedIs(o, w.sim.p, target);
    var item := Switched(o, w.sim.p, target);
    if item.Some? {
      OkIsRead(Coords(item.value.local) + Coords(item.value.group));
    } else {
      ErrIsNotOk("work-item state unavailable");
    }
    OneExchange(o, w.sim, w.b, SelectCommand(target), Selected(target, None));
  }

  /** The plugin state with which a step of item begins. */
  function SteppingFrom(p: State, over: bool, item: WorkItem): State {
    p.(current := Some(item), mode := if over then StepOver else StepIn, stepIndex := item.index,
       stepDepth := item.depth, served := p.served + 2)
  }

  lemma StepIsSound(o: Oclgrind, w: World, over: bool, target: Size3)
    requires Ready(w) && w.b.halted
    ensures Sound(o, w.sim, Begin(w.b, Step(over, target)))
    ensures Ready(Perform(o, w, Step(over, target)))
    ensures !Selectable(o, w.sim.p, target) ==>
      Perform(o, w, Step(over, target)) == Perform(o, w, Select(target)).(result := Nothing)
    ensures var v := Perform(o, w, Step(over, target));
      Selectable(o, w.sim.p, target) ==>
        && v.sim == RunOn(w.sim.(p := SteppingFrom(w.sim.p, over, SelectedItem(o, w.sim.p, target))))
        && v.b.notified == w.b.notified + Told(v.sim)
        && v.b.breakpoints == w.b.breakpoints && v.b.nextId == w.b.nextId
  {
    hide Handle, SelectCommand, StepCommand, IsOk, Fields, StoppedAt, Answer, ResumeWith;
    SelectIsSound(o, w, target);
    var v := Perform(o, w, Select(target));
    var (next, got) := Answer(o, w.sim, SelectCommand(target));
    assert v == Settle(o, next, Deliver(w.b, Selected(target, None), got));
    assert Perform(o, w, Step(over, target)) == Settle(o, next, Deliver(w.b, Selected(target, Some(over)), got));
    SwitchedIs(o, w.sim.p, target);
    if Selectable(o, w.sim.p, target) {
      StepHandled(o, v.sim.p, over);
      Resumes(o, v, StepCommand(over));
    }
  }

  lemma AskIsSound(o: Oclgrind, w: World, op: Op)
    requires Ready(w) && w.b.halted && Lawful(w.b, op)
    requires (op.Read? && op.length > 0) || (op.Evaluate? && w.b.attached && op.name != "")
    ensures Sound(o, w.sim, Begin(w.b, op)) && Ready(Perform(o, w, op))
    ensures var v := Perform(o, w, op); v.b == w.b && v.sim == w.sim.(p := w.sim.p.(served := w.sim.p.served + 1))
  {
    hide Handle, ReadCommand, LoadedFrom, PrintedFrom;
    match op
    case Read(address, length) =>
      ReadHandled(o, w.sim.p, address, length);
      OneExchange(o, w.sim, w.b, ReadCommand(address, length), Loaded(length));
    case Evaluate(name) =>
      PrintHandled(o, w.sim.p, name);
      OneExchange(o, w.sim, w.b, PrintCommand(name), Printed);
  }

  // ---- Launch ----

  function Below(m: map<u64, u64>, from: nat): map<u64, u64> {
    map k | k in m && k < from :: m[k]
  }

  /** Registration reaches every breakpoint: the plugin's table grows from the
      ids already sent to all of them. */
  lemma {:induction false} RegistersAll(o: Oclgrind, sim: Sim, b: Debugger, from: nat)
    requires sim.host == Serving && b.open && b.halted && !b.attached && FreshIds(b)
    requires sim.p.ids == Below(b.breakpoints, from)
    requires forall line :: line in sim.p.lines <==> Uses(sim.p.ids, line)
    ensures Sound(o, sim, Register(b, from))
    ensures var v := Settle(o, sim, Register(b, from));
      Ready(v) && v.b == b && v.sim == sim.(p := v.sim.p) && v.result == Launched(true) && SameRun(v.sim.p, sim.p)
    decreases U64 - from
  {
    hide Handle, BreakCommand, NextId, Below, Uses, FreshIds;
    match NextId(b.breakpoints, from)
    case None =>
      AllBelow(b.breakpoints, from);
    case Some(id) =>
      FreshLine(b, id);
      var line := b.breakpoints[id];
      BreakHandled(o, sim.p, id, line);
      var q := Handle(o, sim.p, BreakCommand(id, line)).0;
      RegisteredNext(sim.p, b.breakpoints, from, id);
      RegistersAll(o, sim.(p := q), b, id + 1);
  }

  lemma AllBelow(table: map<u64, u64>, from: nat)
    requires NextId(table, from).None?
    ensures Below(table, from) == table
  {
    hide NextId;
  }

  lemma FreshLine(b: Debugger, id: u64)
    requires FreshIds(b) && id in b.breakpoints
    ensures b.breakpoints[id] > 0
  {
  }

  lemma RegisteredNext(p: State, table: map<u64, u64>, from: nat, id: u64)
    requires id in table && from <= id && forall k | from <= k < id :: k !in table
    requires p.ids == Below(table, from)
    requires forall line :: line in p.lines <==> Uses(p.ids, line)
    ensures p.ids[id := table[id]] == Below(table, id as int + 1)
    ensures forall line :: line in p.lines + {table[id]} <==> Uses(p.ids[id := table[id]], line)
  {
    var ids := p.ids[id := table[id]];
    forall line ensures line in p.lines + {table[id]} <==> Uses(ids, line) {
      if line == table[id] {
        assert ids[id] == line;
      } else if line in p.lines {
        var k :| k in p.ids && p.ids[k] == line;
        assert ids[k] == line;
      }
    }
  }

  lemma LaunchIsSound(o: Oclgrind, w: World)
    requires Ready(w) && w.sim.host == Absent
    ensures Sound(o, w.sim.(host := Serving), Deliver(w.b.(open := true), Greeted, Some("ready")))
    ensures var v := Perform(o, w, Launch);
      && Ready(v) && v.result == Launched(true) && v.b == w.b.(open := true, halted := true)
      && v.sim == w.sim.(host := Serving, p := v.sim.p) && SameRun(v.sim.p, w.sim.p)
  {
    hide NextId, Register;
    assert "ready" + "" == "ready";
    WordSplits("ready", "");
    assert Below(w.b.breakpoints, 0) == map[];
    RegistersAll(o, w.sim.(host := Serving), w.b.(open := true, halted := true), 0);
  }

  lemma {:induction false} DrainExits(sim: Sim)
    ensures var d := Drain(sim); d.host == Exited && d.log == sim.log && d.trace == []
    decreases |sim.trace|
  {
    if sim.trace != [] {
      DrainExits(sim.(p := Ignore(sim.p, sim.trace[0]), trace := sim.trace[1..]));
    }
  }

  // ---- Any operation, any run ----

  /** Every operation, started between operations, goes through without a hitch
      and leaves the agreement intact. */
  lemma OperationKeepsAgreement(o: Oclgrind, w: World, op: Op)
    requires Ready(w) && Lawful(w.b, op)
    ensures Ready(Perform(o, w, op))
    ensures !op.Launch? && !op.Detach? ==> Sound(o, w.sim, Begin(w.b, op))
  {
    hide Handle;
    match op
    case Launch =>
      if w.sim.host == Absent {
        LaunchIsSound(o, w);
      }
    case Detach => DrainExits(w.sim);
    case SetBreakpoint(line) =>
      if line > 0 && w.b.halted {
        SetIsSound(o, w, line);
      }
    case RemoveBreakpoint(id) =>
      if id in w.b.breakpoints && w.b.halted {
        RemoveIsSound(o, w, id);
      }
    case Resume =>
      if w.b.halted {
        ResumeHandled(o, w.sim.p);
        Resumes(o, w, "continue");
      }
    case Step(over, target) =>
      if w.b.halted {
        StepIsSound(o, w, over, target);
      }
    case Select(target) =>
      if w.b.halted {
        SelectIsSound(o, w, target);
      }
    case Read(address, length) =>
      if w.b.halted && length > 0 {
        AskIsSound(o, w, op);
      }
    case Evaluate(name) =>
      if w.b.halted && w.b.attached && name != "" {
        AskIsSound(o, w, op);
      }
  }

  /** The plugin state with which an operation sets the interpreter running, if
      it does. */
  function Resumed(o: Oclgrind, w: World, op: Op): Option<State> {
    if !w.b.halted then None
    else
      match op
      case Resume => Some(w.sim.p.(mode := Running, served := w.sim.p.served + 1))
      case Step(over, target) =>
        if Selectable(o, w.sim.p, target) then Some(SteppingFrom(w.sim.p, over, SelectedItem(o, w.sim.p, target)))
        else None
      case _ => None
  }

  /** What an operation between launch and detach does to the host: nothing but
      bookkeeping, or running on to the next halt, which the stop callback is
      told in full. */
  lemma OperationEffect(o: Oclgrind, w: World, op: Op)
    requires Ready(w) && Lawful(w.b, op) && !op.Launch? && !op.Detach?
    ensures var v := Perform(o, w, op); var q := Resumed(o, w, op);
      && (q.None? ==> v.sim == w.sim.(p := v.sim.p) && SameRun(v.sim.p, w.sim.p) && v.b.notified == w.b.notified)
      && (q.Some? ==>
            && v.sim == RunOn(w.sim.(p := q.value))
            && v.b.notified == w.b.notified + Told(v.sim))
  {
    if Resumed(o, w, op).Some? {
      ResumingEffect(o, w, op);
    } else {
      StayingEffect(o, w, op);
    }
  }

  lemma ResumingEffect(o: Oclgrind, w: World, op: Op)
    requires Ready(w) && Resumed(o, w, op).Some?
    ensures var v := Perform(o, w, op);
      v.sim == RunOn(w.sim.(p := Resumed(o, w, op).value)) && v.b.notified == w.b.notified + Told(v.sim)
  {
    hide Handle, Selectable, SelectedItem, RunOn, Ready, Told;
    match op
    case Resume =>
      ResumeHandled(o, w.sim.p);
      Resumes(o, w, "continue");
    case Step(over, target) => StepIsSound(o, w, over, target);
  }

  lemma StayingEffect(o: Oclgrind, w: World, op: Op)
    requires Ready(w) && Lawful(w.b, op) && !op.Launch? && !op.Detach? && Resumed(o, w, op).None?
    ensures var v := Perform(o, w, op);
      v.sim == w.sim.(p := v.sim.p) && SameRun(v.sim.p, w.sim.p) && v.b.notified == w.b.notified
  {
    hide Handle, Selectable, SelectedItem, FreshIds, TablesAgree;
    match op
    case SetBreakpoint(line) =>
      if line > 0 && w.b.halted {
        SetIsSound(o, w, line);
      }
    case RemoveBreakpoint(id) =>
      if id in w.b.breakpoints && w.b.halted {
        RemoveIsSound(o, w, id);
      }
    case Step(over, target) =>
      if w.b.halted {
        StepIsSound(o, w, over, target);
        SelectIsSound(o, w, target);
      }
    case Select(target) =>
      if w.b.halted {
        SelectIsSound(o, w, target);
      }
    case Resume =>
    case Read(address, length) =>
      if w.b.halted && length > 0 {
        AskIsSound(o, w, op);
      }
    case Evaluate(name) =>
      if w.b.halted && w.b.attached && name != "" {
        AskIsSound(o, w, op);
      }
  }

  /** Over any lawful run: whenever the program is halted the two breakpoint
      tables are equal and the armed lines are exactly the ones in use. */
  lemma {:induction false} TablesAgreeOverRuns(o: Oclgrind, trace: seq<Event>, ops: seq<Op>)
    requires LawfulRun(o, Start(trace), ops)
    ensures Ready(Run(o, Start(trace), ops))
    decreases |ops|
  {
    hide Perform, Lawful;
    if ops != [] {
      var k := |ops| - 1;
      TablesAgreeOverRuns(o, trace, ops[..k]);
      OperationKeepsAgreement(o, Run(o, Start(trace), ops[..k]), ops[k]);
    }
  }
}
