/** Debugger and interpreter taken together, one whole operation at a time: the
    command goes over, the plugin answers or runs on to the next halt, and the
    answer comes back. This is the simple system the concurrent one refines. */
module Session {
  import opened Types
  import opened Text
  import opened Plugin
  import opened Backend

  /** Where the host program stands: not started, halted in the serve loop,
      interpreting with the debugger attached or gone, or finished. */
  datatype Host = Absent | Serving | Interpreting | Detached | Exited

  /** A halt: who halted where, and how many events were still to come. */
  datatype Halt = Halt(item: WorkItem, line: u32, left: nat)

  /** The host process: plugin state, events still to be interpreted, and the
      halts so far. */
  datatype Sim = Sim(p: State, trace: seq<Event>, host: Host, log: seq<Halt>)

  datatype World = World(b: Debugger, sim: Sim, result: Result)

  function Start(trace: seq<Event>): World {
    World(Unlaunched, Sim(Fresh, trace, Absent, []), Nothing)
  }

  /** The interpreter runs until it halts or the program ends. */
  function RunOn(sim: Sim): (r: Sim)
    ensures r.host == Serving || r.host == Exited
    decreases |sim.trace|
  {
    if sim.trace == [] then sim.(host := Exited)
    else
      var e, rest := sim.trace[0], sim.trace[1..];
      var (q, halts) := Observe(sim.p, e);
      if halts then Sim(q, rest, Serving, sim.log + [Halt(e.item, e.line, |rest|)])
      else RunOn(sim.(p := q, trace := rest))
  }

  function LastStop(sim: Sim): Option<string> {
    if sim.host == Serving && sim.log != [] then
      var h := sim.log[|sim.log| - 1];
      Some(StopLine(h.item, h.line))
    else None
  }

  /** The next line the plugin sends after a command, if one ever comes. */
  function Answer(o: Oclgrind, sim: Sim, command: string): (Sim, Option<string>) {
    var (q, reply) := Handle(o, sim.p, command);
    match reply
    case Say(line) => (sim.(p := q), Some(line))
    case Go =>
      var next := RunOn(sim.(p := q));
      (next, LastStop(next))
  }

  /** An operation from its next command to its end. */
  function Settle(o: Oclgrind, sim: Sim, act: Act): World
    decreases Rank(act)
  {
    match act
    case Done(b, result) => World(b, sim, result)
    case Ask(b, command, cont) =>
      var (next, got) := Answer(o, sim, command);
      Settle(o, next, Deliver(b, cont, got))
  }

  /** A hook's effect once the debugger is gone: nothing halts. */
  function Ignore(p: State, e: Event): State {
    match e
    case Instruction(item, _) => p.(current := Some(item))
    case _ => Observe(p, e).0
  }

  function Drain(sim: Sim): Sim
    decreases |sim.trace|
  {
    if sim.trace == [] then sim.(host := Exited)
    else Drain(sim.(p := Ignore(sim.p, sim.trace[0]), trace := sim.trace[1..]))
  }

  /** One operation of the debugger's user. */
  function Perform(o: Oclgrind, w: World, op: Op): World {
    match op
    case Launch =>
      if w.sim.host != Absent then w.(result := Launched(false))
      else Settle(o, w.sim.(host := Serving), Deliver(w.b.(open := true), Greeted, Some("ready")))
    case Detach =>
      World(Begin(w.b, Detach).b, if w.sim.host == Serving then Drain(w.sim) else w.sim, Nothing)
    case _ => Settle(o, w.sim, Begin(w.b, op))
  }

  function Run(o: Oclgrind, w: World, ops: seq<Op>): World
    decreases |ops|
  {
    if ops == [] then w else Perform(o, Run(o, w, ops[..|ops| - 1]), ops[|ops| - 1])
  }

  // ---- What holds between operations ----

  predicate Quiet(b: Debugger, host: Host) {
    (host == Absent || host == Serving || host == Exited) &&
    (b.halted <==> host == Serving) && (b.open <==> host == Serving)
  }

  /** The user's side of the bargain: an expression that will be sent is one
      line, and ids do not run out of their 64 bits. */
  predicate Lawful(b: Debugger, op: Op) {
    match op
    case Evaluate(name) => OneLine(name) || !b.halted || !b.attached
    case SetBreakpoint(_) => b.nextId < U64 - 1
    case _ => true
  }

  ghost predicate LawfulRun(o: Oclgrind, w: World, ops: seq<Op>)
    decreases |ops|
  {
    ops != [] ==>
      var k := |ops| - 1;
      LawfulRun(o, w, ops[..k]) && Lawful(Run(o, w, ops[..k]).b, ops[k])
  }

  ghost predicate FreshIds(b: Debugger) {
    0 < b.nextId && forall id | id in b.breakpoints :: 0 < id < b.nextId && 0 < b.breakpoints[id]
  }

  /** Both ends hold the same breakpoint table, and exactly the lines some id
      uses are armed. */
  ghost predicate TablesAgree(b: Debugger, p: State) {
    p.ids == b.breakpoints && forall line :: line in p.lines <==> Uses(p.ids, line)
  }

  /** Once the debugger has been told of a work-item, it is the plugin's current
      one. */
  ghost predicate Attends(b: Debugger, p: State) {
    b.attached ==>
      && b.stopped.Some? && p.current.Some?
      && b.stopped.value.global == p.current.value.global
      && b.stopped.value.local == p.current.value.local
      && b.stopped.value.group == p.current.value.group
  }

  ghost predicate Ready(w: World) {
    && Quiet(w.b, w.sim.host)
    && FreshIds(w.b)
    && (w.sim.host == Absent ==> w.sim.p == Fresh && !w.b.attached)
    && (w.sim.host == Serving ==> TablesAgree(w.b, w.sim.p) && Attends(w.b, w.sim.p))
  }

  /** An operation in progress that can only go well: whenever a command is
      sent the plugin is serving and the command is one line, and at the end
      the debugger believes itself halted exactly when the plugin is. */
  ghost predicate Sound(o: Oclgrind, sim: Sim, act: Act)
    decreases Rank(act)
  {
    match act
    case Done(b, _) => Quiet(b, sim.host)
    case Ask(b, command, cont) =>
      sim.host == Serving && b.open && OneLine(command) &&
      var (next, got) := Answer(o, sim, command);
      Sound(o, next, Deliver(b, cont, got))
  }

  // ---- What each command does at the plugin ----

  lemma BreakHandled(o: Oclgrind, p: State, id: u64, line: u64)
    requires line > 0
    ensures OneLine(BreakCommand(id, line))
    ensures Handle(o, p, BreakCommand(id, line)) ==
      (p.(lines := p.lines + {line}, ids := p.ids[id := line], served := p.served + 1), Say("ok"))
  {
    hide Words, Tail, StrToUl, Decs, Switched, Memory, Hex, Uses, Erased;
    MessageWords("break", [id, line]);
  }

  lemma DeleteHandled(o: Oclgrind, p: State, id: u64)
    requires id in p.ids
    ensures OneLine(DeleteCommand(id))
    ensures var left := Erased(p.ids, id);
      Handle(o, p, DeleteCommand(id)) ==
        (p.(ids := left, lines := if Uses(left, p.ids[id]) then p.lines else p.lines - {p.ids[id]},
            served := p.served + 1),
         Say("ok"))
  {
    hide Words, Tail, StrToUl, Decs, Switched, Memory, Hex, Uses, Erased;
    MessageWords("delete", [id]);
  }

  lemma SelectHandled(o: Oclgrind, p: State, target: Size3)
    ensures OneLine(SelectCommand(target))
    ensures Handle(o, p, SelectCommand(target)) ==
      match Switched(o, p, target)
      case None => (p.(served := p.served + 1), Err("work-item state unavailable"))
      case Some(item) =>
        (p.(current := Some(item), served := p.served + 1), Say("ok" + Tail(Coords(item.local) + Coords(item.group))))
  {
    hide Words, Tail, StrToUl, Decs, Switched, Memory, Hex, Uses, Erased;
    MessageWords("select", Coords(target));
  }

  lemma ReadHandled(o: Oclgrind, p: State, address: u64, length: u64)
    ensures OneLine(ReadCommand(address, length))
    ensures var hex := Hex(Memory(o, p.served, address, length));
      Handle(o, p, ReadCommand(address, length)) ==
        (p.(served := p.served + 1),
         if hex == "" && length > 0 then Err("invalid address") else Say("data " + hex))
  {
    hide Words, Tail, StrToUl, Decs, Switched, Memory, Hex, Uses, Erased;
    MessageWords("read", [address, length]);
  }

  lemma ResumeHandled(o: Oclgrind, p: State)
    ensures Handle(o, p, "continue") == (p.(mode := Running, served := p.served + 1), Go)
  {
    hide Words, FirstWord, AfterWord;
    assert "continue" + "" == "continue";
    WordSplits("continue", "");
    NothingInEmpty();
  }

  lemma OneWord(w: string)
    requires Solid(w)
    ensures Words(" " + w) == [w]
  {
    hide Words, FirstWord, AfterWord;
    BlankSkipped(w);
    assert w + "" == w;
    WordSplits(w, "");
    NothingInEmpty();
  }

  lemma StepWords(over: bool)
    ensures Words(StepCommand(over)) == ["step", if over then "over" else "in"]
    ensures OneLine(StepCommand(over))
  {
    hide Words, FirstWord, AfterWord;
    var how := if over then "over" else "in";
    assert StepCommand(over) == "step" + (" " + how);
    WordSplits("step", " " + how);
    OneWord(how);
  }

  lemma StepHandled(o: Oclgrind, p: State, over: bool)
    ensures OneLine(StepCommand(over))
    ensures Handle(o, p, StepCommand(over)) ==
      match Active(p)
      case None => (p.(served := p.served + 1), Err("no work-item is halted"))
      case Some(item) =>
        (p.(mode := if over then StepOver else StepIn, stepIndex := item.index, stepDepth := item.depth,
            served := p.served + 1), Go)
  {
    hide Words, StepCommand;
    StepWords(over);
  }

  lemma PrintHandled(o: Oclgrind, p: State, name: string)
    ensures Handle(o, p, PrintCommand(name)).0 == p.(served := p.served + 1)
    ensures Handle(o, p, PrintCommand(name)).1.Say?
  {
    hide Words, FirstWord, AfterWord, Shown;
    assert PrintCommand(name) == "print" + (" " + name);
    WordSplits("print", " " + name);
  }
}
