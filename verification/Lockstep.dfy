/** The two processes running concurrently over byte streams: every write and
    every read moves any number of bytes, and any interleaving is allowed. The
    main results: the pair never gets out of step, never deadlocks, always
    finishes the operation in hand, and ends it exactly where the
    one-operation-at-a-time system of module Session says. */
module Lockstep {
  import opened Types
  import opened Text
  import opened Channel
  import opened Plugin
  import opened Backend
  import opened Session
  import opened Agreement

  /** One direction of the socket: what the writer has still to write of the
      current line, what is on the wire, and what the reader has buffered. */
  datatype Wire = Wire(unsent: string, flight: string, pending: string)

  const Silent := Wire("", "", "")

  function Content(w: Wire): string { w.pending + w.flight + w.unsent }

  /** The debugger is between operations, blocked until a line comes, or waiting
      in detach for the host program to exit. */
  datatype Pc = Idle | Waiting(command: string, cont: Cont) | Draining

  datatype System = System(
    b: Debugger, pc: Pc, result: Result, sim: Sim, down: Wire, up: Wire, ops: seq<Op>)

  function Initial(trace: seq<Event>): System {
    var w := Start(trace);
    System(w.b, Idle, w.result, w.sim, Silent, Silent, [])
  }

  // ---- Steps ----

  /** The debugger goes on with an act: it returns, or starts sending. */
  function Proceed(s: System, act: Act): System {
    match act
    case Done(b, result) => s.(b := b, pc := Idle, result := result)
    case Ask(b, command, cont) =>
      s.(b := b, pc := Waiting(command, cont), down := s.down.(unsent := command + "\n"))
  }

  /** The user starts an operation. Launching starts the host, whose plugin
      announces itself. */
  function Begun(s: System, op: Op): System
    requires s.pc.Idle?
  {
    var t := s.(ops := s.ops + [op]);
    match op
    case Launch =>
      if s.sim.host != Absent then t.(result := Launched(false))
      else t.(b := s.b.(open := true), pc := Waiting("", Greeted), sim := s.sim.(host := Serving),
              up := Wire("ready\n", "", ""))
    case Detach =>
      var done := Begin(s.b, Detach).b;
      t.(b := done, pc := if s.sim.host == Serving then Draining else Idle, result := Nothing)
    case _ => Proceed(t, Begin(s.b, op))
  }

  /** Everything either process can do on its own. The counts say how many bytes
      a write or a read moves. */
  datatype Move =
    | DebuggerWrites(n: nat)
    | DebuggerReads(n: nat)
    | DebuggerTakesLine
    | DebuggerSeesEnd
    | DebuggerReapsHost
    | PluginWrites(n: nat)
    | PluginReads(n: nat)
    | PluginTakesLine
    | PluginSeesEnd
    | HostExecutes
    | HostExits

  predicate NeedsBytes(w: Wire) { NextLine(w.pending).None? }

  predicate DebuggerListens(s: System) { s.pc.Waiting? && s.down.unsent == "" }

  predicate PluginListens(s: System) { s.sim.host == Serving && s.up.unsent == "" }

  predicate Interprets(s: System) { s.sim.host == Interpreting || s.sim.host == Detached }

  predicate Enabled(s: System, m: Move) {
    match m
    case DebuggerWrites(n) => 0 < n <= |s.down.unsent|
    case DebuggerReads(n) => DebuggerListens(s) && NeedsBytes(s.up) && 0 < n <= 4096 && n <= |s.up.flight|
    case DebuggerTakesLine => DebuggerListens(s) && !NeedsBytes(s.up)
    case DebuggerSeesEnd =>
      DebuggerListens(s) && NeedsBytes(s.up) && s.up.flight == "" && s.up.unsent == "" && s.sim.host == Exited
    case DebuggerReapsHost => s.pc.Draining? && s.sim.host == Exited
    case PluginWrites(n) => 0 < n <= |s.up.unsent|
    case PluginReads(n) => PluginListens(s) && NeedsBytes(s.down) && 0 < n <= 4096 && n <= |s.down.flight|
    case PluginTakesLine => PluginListens(s) && !NeedsBytes(s.down)
    case PluginSeesEnd =>
      PluginListens(s) && NeedsBytes(s.down) && s.down.flight == "" && s.down.unsent == "" && !s.b.open
    case HostExecutes => Interprets(s) && s.sim.trace != []
    case HostExits => Interprets(s) && s.sim.trace == []
  }

  function Written(w: Wire, n: nat): Wire
    requires n <= |w.unsent|
  {
    Wire(w.unsent[n..], w.flight + w.unsent[..n], w.pending)
  }

  function ReadIn(w: Wire, n: nat): Wire
    requires n <= |w.flight|
  {
    Wire(w.unsent, w.flight[n..], w.pending + w.flight[..n])
  }

  function Taken(w: Wire): Wire { w.(pending := AfterLine(w.pending)) }

  /** The plugin handles one command line. */
  function Handled(o: Oclgrind, s: System, command: string): System {
    var (q, reply) := Handle(o, s.sim.p, command);
    var t := s.(down := Taken(s.down));
    match reply
    case Say(line) => t.(sim := s.sim.(p := q), up := s.up.(unsent := line + "\n"))
    case Go => t.(sim := s.sim.(p := q, host := Interpreting))
  }

  /** The interpreter executes one event, with the plugin's hook. */
  function Executed(s: System): System
    requires s.sim.trace != []
  {
    var e, rest := s.sim.trace[0], s.sim.trace[1..];
    if s.sim.host == Detached then s.(sim := s.sim.(p := Ignore(s.sim.p, e), trace := rest))
    else
      var (q, halts) := Observe(s.sim.p, e);
      if halts then
        s.(sim := Sim(q, rest, Serving, s.sim.log + [Halt(e.item, e.line, |rest|)]),
           up := s.up.(unsent := StopLine(e.item, e.line) + "\n"))
      else s.(sim := s.sim.(p := q, trace := rest))
  }

  function Apply(o: Oclgrind, s: System, m: Move): System
    requires Enabled(s, m)
  {
    match m
    case DebuggerWrites(n) => s.(down := Written(s.down, n))
    case DebuggerReads(n) => s.(up := ReadIn(s.up, n))
    case DebuggerTakesLine => Proceed(s.(up := Taken(s.up)), Deliver(s.b, s.pc.cont, NextLine(s.up.pending)))
    case DebuggerSeesEnd => Proceed(s, Deliver(s.b, s.pc.cont, None))
    case DebuggerReapsHost => s.(pc := Idle)
    case PluginWrites(n) => s.(up := Written(s.up, n))
    case PluginReads(n) => s.(down := ReadIn(s.down, n))
    case PluginTakesLine => Handled(o, s, NextLine(s.down.pending).value)
    case PluginSeesEnd => s.(sim := s.sim.(host := Detached))
    case HostExecutes => Executed(s)
    case HostExits => s.(sim := s.sim.(host := Exited))
  }

  /** A run: operations of the user, started only between operations, mixed with
      moves of the two processes in any order. */
  datatype Turn = User(op: Op) | Internal(m: Move)

  ghost predicate Reaches(o: Oclgrind, s: System, turns: seq<Turn>, t: System)
    decreases |turns|
  {
    if turns == [] then s == t
    else
      match turns[0]
      case User(op) => s.pc.Idle? && Lawful(s.b, op) && Reaches(o, Begun(s, op), turns[1..], t)
      case Internal(m) => Enabled(s, m) && Reaches(o, Apply(o, s, m), turns[1..], t)
  }

  lemma NoTurns(o: Oclgrind, s: System)
    ensures Reaches(o, s, [], s)
  {
  }

  lemma {:induction false} RunsJoin(
    o: Oclgrind, s: System, turns1: seq<Turn>, u: System, turns2: seq<Turn>, t: System)
    requires Reaches(o, s, turns1, u) && Reaches(o, u, turns2, t)
    ensures Reaches(o, s, turns1 + turns2, t)
    decreases |turns1|
  {
    hide Enabled, Lawful, Begun, Apply;
    if turns1 == [] {
      assert turns1 + turns2 == turns2;
    } else {
      assert (turns1 + turns2)[1..] == turns1[1..] + turns2;
      match turns1[0]
      case User(op) => RunsJoin(o, Begun(s, op), turns1[1..], u, turns2, t);
      case Internal(m) => RunsJoin(o, Apply(o, s, m), turns1[1..], u, turns2, t);
    }
  }

  // ---- The invariant ----

  /** How the operation in hand will go on, judged from where the one line that
      is under way has got to: command on its way down, interpreter running,
      answer on its way up, or stream ended. */
  function Ahead(o: Oclgrind, s: System): (Sim, Act) {
    match s.pc
    case Idle => (s.sim, Done(s.b, s.result))
    case Draining => (Drain(s.sim), Done(s.b, s.result))
    case Waiting(command, cont) =>
      if Content(s.down) != "" then (s.sim, Ask(s.b, command, cont))
      else if s.sim.host == Interpreting then
        var next := RunOn(s.sim);
        (next, Deliver(s.b, cont, LastStop(next)))
      else (s.sim, Deliver(s.b, cont, NextLine(Content(s.up))))
  }

  /** A wire that holds nothing, or one line and its newline. */
  predicate OneAtMost(w: Wire) {
    Content(w) == "" || (NextLine(Content(w)).Some? && AfterLine(Content(w)) == "")
  }

  /** At most one line is under way, and the process it is for is the only one
      that can be waiting for it. */
  predicate Shape(s: System) {
    OneAtMost(s.down) && OneAtMost(s.up) &&
    match s.pc
    case Idle => Content(s.down) == "" && Content(s.up) == "" && Quiet(s.b, s.sim.host)
    case Draining =>
      Content(s.down) == "" && Content(s.up) == "" && !s.b.open && !s.b.halted &&
      (s.sim.host == Serving || s.sim.host == Detached || (s.sim.host == Exited && s.sim.trace == []))
    case Waiting(command, _) =>
      s.b.open &&
      (Content(s.down) != "" ==>
         Content(s.up) == "" && s.sim.host == Serving && NextLine(Content(s.down)) == Some(command)) &&
      (Content(s.down) == "" ==>
         if Content(s.up) != "" then s.sim.host == Serving
         else s.sim.host == Interpreting || s.sim.host == Exited)
  }

  ghost predicate Inv(o: Oclgrind, s: System, trace: seq<Event>) {
    && Shape(s)
    && LawfulRun(o, Start(trace), s.ops)
    && Sound(o, Ahead(o, s).0, Ahead(o, s).1)
    && Settle(o, Ahead(o, s).0, Ahead(o, s).1) == Run(o, Start(trace), s.ops)
  }

  // ---- Bytes moving ----

  lemma MovingKeepsContent(w: Wire, n: nat)
    ensures n <= |w.unsent| ==> Content(Written(w, n)) == Content(w)
    ensures n <= |w.flight| ==> Content(ReadIn(w, n)) == Content(w)
  {
    if n <= |w.unsent| {
      assert w.unsent == w.unsent[..n] + w.unsent[n..];
    }
    if n <= |w.flight| {
      assert w.flight == w.flight[..n] + w.flight[n..];
    }
  }

  /** When the reader finds a line there is nothing else on the wire. */
  lemma LineIsWhole(w: Wire)
    requires OneAtMost(w) && !NeedsBytes(w)
    ensures NextLine(Content(w)) == NextLine(w.pending)
    ensures w.flight == "" && w.unsent == "" && Content(Taken(w)) == ""
  {
    hide NextLine, AfterLine;
    NoLine("");
    assert w.pending != "";
    LineIsStable(w.pending, w.flight + w.unsent);
    assert Content(w) == w.pending + (w.flight + w.unsent);
    assert AfterLine(w.pending) + (w.flight + w.unsent) == "";
  }

  lemma LineOnTheWire(w: Wire, line: string)
    requires Content(w) == "" && OneLine(line)
    ensures var t := w.(unsent := line + "\n");
      && Content(t) == line + "\n" && Content(t) != ""
      && NextLine(Content(t)) == Some(line) && AfterLine(Content(t)) == ""
  {
    hide NextLine, AfterLine;
    LineSplits(line, "");
    assert w.pending == "" && w.flight == "";
    assert line + "\n" + "" == line + "\n";
  }

  // ---- The simple system does not look at the host's run state ----

  lemma {:induction false} RunOnForgetsHost(sim: Sim, host: Host)
    ensures RunOn(sim.(host := host)) == RunOn(sim)
    decreases |sim.trace|
  {
    hide Observe;
    if sim.trace != [] {
      var (q, halts) := Observe(sim.p, sim.trace[0]);
      if !halts {
        RunOnForgetsHost(sim.(p := q, trace := sim.trace[1..]), host);
      }
    }
  }

  lemma {:induction false} DrainForgetsHost(sim: Sim, host: Host)
    ensures Drain(sim.(host := host)) == Drain(sim)
    decreases |sim.trace|
  {
    hide Ignore;
    if sim.trace != [] {
      DrainForgetsHost(sim.(p := Ignore(sim.p, sim.trace[0]), trace := sim.trace[1..]), host);
    }
  }

  // ---- Every step keeps the invariant ----

  /** Going on with a sound act from silence: in shape, with the act ahead. */
  lemma ProceedsInShape(o: Oclgrind, s: System, act: Act)
    requires Content(s.down) == "" && Content(s.up) == "" && Sound(o, s.sim, act)
    ensures Shape(Proceed(s, act)) && Ahead(o, Proceed(s, act)) == (s.sim, act)
  {
    hide NextLine, AfterLine, Deliver, Answer;
    match act
    case Done(_, _) =>
    case Ask(_, command, _) => LineOnTheWire(s.down, command);
  }

  lemma PluginTakesLineKeeps(o: Oclgrind, s: System, trace: seq<Event>)
    requires Inv(o, s, trace) && Enabled(s, PluginTakesLine)
    ensures Inv(o, Apply(o, s, PluginTakesLine), trace)
  {
    hide NextLine, AfterLine, Handle, Deliver, RunOn;
    LineIsWhole(s.down);
    NoLine("");
    var command := NextLine(s.down.pending).value;
    var (q, reply) := Handle(o, s.sim.p, command);
    assert s.pc.Waiting? && Content(s.up) == "";
    if reply.Say? {
      LineOnTheWire(s.up, reply.line);
    } else {
      RunOnForgetsHost(s.sim.(p := q), Interpreting);
    }
  }

  lemma DebuggerTakesLineKeeps(o: Oclgrind, s: System, trace: seq<Event>)
    requires Inv(o, s, trace) && Enabled(s, DebuggerTakesLine)
    ensures Inv(o, Apply(o, s, DebuggerTakesLine), trace)
  {
    hide NextLine, AfterLine, Deliver, Answer, RunOn;
    LineIsWhole(s.up);
    NoLine("");
    ProceedsInShape(o, s.(up := Taken(s.up)), Ahead(o, s).1);
  }

  lemma HostExecutesKeeps(o: Oclgrind, s: System, trace: seq<Event>)
    requires Inv(o, s, trace) && Enabled(s, HostExecutes)
    ensures Inv(o, Apply(o, s, HostExecutes), trace)
  {
    hide NextLine, AfterLine, Deliver, Observe, StopLine, Ignore, Sound, Settle, Run, LawfulRun;
    if s.sim.host == Interpreting {
      var e := s.sim.trace[0];
      if e.Instruction? && Observe(s.sim.p, e).1 {
        LineOnTheWire(s.up, StopLine(e.item, e.line));
      }
    }
  }

  lemma EndKeeps(o: Oclgrind, s: System, m: Move, trace: seq<Event>)
    requires Inv(o, s, trace) && Enabled(s, m)
    requires m.DebuggerSeesEnd? || m.DebuggerReapsHost? || m.PluginSeesEnd? || m.HostExits?
    ensures Inv(o, Apply(o, s, m), trace)
  {
    hide NextLine, AfterLine, Deliver, Answer;
    NoLine("");
    match m
    case DebuggerSeesEnd =>
      assert Content(s.up) == s.up.pending;
      assert Content(s.up) == "";
      ProceedsInShape(o, s, Ahead(o, s).1);
    case PluginSeesEnd =>
      assert Content(s.down) == s.down.pending;
      DrainForgetsHost(s.sim, Detached);
    case DebuggerReapsHost =>
    case HostExits =>
  }

  lemma MoveKeeps(o: Oclgrind, s: System, m: Move, trace: seq<Event>)
    requires Inv(o, s, trace) && Enabled(s, m)
    ensures Inv(o, Apply(o, s, m), trace)
  {
    hide NextLine, AfterLine, Deliver, Answer, RunOn, Drain, Sound, Settle, Handled, Executed, Proceed;
    match m
    case DebuggerWrites(n) => MovingKeepsContent(s.down, n);
    case DebuggerReads(n) => MovingKeepsContent(s.up, n);
    case PluginWrites(n) => MovingKeepsContent(s.up, n);
    case PluginReads(n) => MovingKeepsContent(s.down, n);
    case DebuggerTakesLine => DebuggerTakesLineKeeps(o, s, trace);
    case PluginTakesLine => PluginTakesLineKeeps(o, s, trace);
    case HostExecutes => HostExecutesKeeps(o, s, trace);
    case _ => EndKeeps(o, s, m, trace);
  }

  lemma BeginKeeps(o: Oclgrind, s: System, op: Op, trace: seq<Event>)
    requires Inv(o, s, trace) && s.pc.Idle? && Lawful(s.b, op)
    ensures Inv(o, Begun(s, op), trace)
  {
    hide NextLine, AfterLine, Deliver, Answer, Ready, Begin, Lawful;
    var w := Run(o, Start(trace), s.ops);
    assert w == World(s.b, s.sim, s.result);
    var ops := s.ops + [op];
    assert ops[..|ops| - 1] == s.ops;
    assert Run(o, Start(trace), ops) == Perform(o, w, op);
    TablesAgreeOverRuns(o, trace, s.ops);
    OperationKeepsAgreement(o, w, op);
    match op
    case Launch =>
      if s.sim.host == Absent {
        LaunchBegins(o, s, w);
      }
    case Detach => DetachBegins(o, s, w);
    case _ => ProceedsInShape(o, s.(ops := ops), Begin(s.b, op));
  }

  lemma LaunchBegins(o: Oclgrind, s: System, w: World)
    requires Shape(s) && s.pc.Idle? && w == World(s.b, s.sim, s.result) && Ready(w) && s.sim.host == Absent
    ensures var t := Begun(s, Launch);
      && Shape(t) && Sound(o, Ahead(o, t).0, Ahead(o, t).1)
      && Settle(o, Ahead(o, t).0, Ahead(o, t).1) == Perform(o, w, Launch)
  {
    hide NextLine, AfterLine, Deliver;
    LaunchIsSound(o, w);
    assert OneLine("ready");
    LineOnTheWire(Silent, "ready");
    assert "ready" + "\n" == "ready\n";
  }

  lemma DetachBegins(o: Oclgrind, s: System, w: World)
    requires Shape(s) && s.pc.Idle? && w == World(s.b, s.sim, s.result)
    ensures var t := Begun(s, Detach);
      && Shape(t) && Sound(o, Ahead(o, t).0, Ahead(o, t).1)
      && Settle(o, Ahead(o, t).0, Ahead(o, t).1) == Perform(o, w, Detach)
  {
    DrainExits(s.sim);
  }

  // ---- Main results ----

  lemma InitiallyInv(o: Oclgrind, trace: seq<Event>)
    ensures Inv(o, Initial(trace), trace)
  {
  }

  lemma {:induction false} RunsKeepInv(o: Oclgrind, s: System, turns: seq<Turn>, t: System, trace: seq<Event>)
    requires Inv(o, s, trace) && Reaches(o, s, turns, t)
    ensures Inv(o, t, trace)
    decreases |turns|
  {
    hide Inv, Lawful, Begun, Apply, Enabled;
    if turns != [] {
      match turns[0]
      case User(op) =>
        BeginKeeps(o, s, op, trace);
        RunsKeepInv(o, Begun(s, op), turns[1..], t, trace);
      case Internal(m) =>
        MoveKeeps(o, s, m, trace);
        RunsKeepInv(o, Apply(o, s, m), turns[1..], t, trace);
    }
  }

  /** Some process can always go on while an operation is in hand: the two sides
      never both wait. */
  lemma NeverStuck(s: System)
    requires Shape(s) && !s.pc.Idle?
    ensures exists m :: Enabled(s, m)
  {
    hide NextLine, AfterLine;
    NoLine("");
    if s.pc.Draining? || s.sim.host == Interpreting {
      if s.down.unsent == "" && s.up.unsent == "" {
        assert Content(s.down) == "" && s.down.pending == "";
        assert Enabled(s, PluginSeesEnd) || Enabled(s, HostExecutes) || Enabled(s, HostExits) ||
               Enabled(s, DebuggerReapsHost);
      }
    } else if Content(s.down) != "" {
      LineArrives(s.down);
      assert s.up.unsent == "";
      assert Enabled(s, DebuggerWrites(1)) || Enabled(s, PluginReads(1)) || Enabled(s, PluginTakesLine);
    } else if Content(s.up) != "" {
      LineArrives(s.up);
      assert s.down.unsent == "";
      assert Enabled(s, PluginWrites(1)) || Enabled(s, DebuggerReads(1)) || Enabled(s, DebuggerTakesLine);
    } else {
      assert s.up.pending == "" && s.up.flight == "" && s.up.unsent == "" && s.down.unsent == "";
      assert Enabled(s, DebuggerSeesEnd);
    }
  }

  lemma LineArrives(w: Wire)
    requires Content(w) != "" && OneAtMost(w)
    ensures |w.unsent| > 0 || |w.flight| > 0 || !NeedsBytes(w)
  {
    if w.flight == "" && w.unsent == "" {
      assert Content(w) == w.pending;
    }
  }

  /** How far an operation has still to go: exchanges left, how far round the
      current exchange is, events left, bytes left to move. */
  function Exchanges(s: System): nat {
    match s.pc
    case Idle => 0
    case Draining => 1
    case Waiting(_, cont) => 1 + RankOf(cont)
  }

  function Stage(s: System): nat {
    if s.pc.Idle? then 0
    else if s.pc.Draining? then
      if s.sim.host == Serving then 3 else if s.sim.host == Detached then 2 else 1
    else if Content(s.down) != "" then 3
    else if s.sim.host == Interpreting then 2
    else if Content(s.up) != "" then 1
    else 0
  }

  function Bytes(s: System): nat {
    2 * |s.down.unsent| + |s.down.flight| + 2 * |s.up.unsent| + |s.up.flight|
  }

  /** Every move of either process brings the operation in hand closer to its
      end, so no schedule can keep it from ending. */
  lemma MoveComesCloser(o: Oclgrind, s: System, m: Move)
    requires Shape(s) && Enabled(s, m)
    ensures var t := Apply(o, s, m);
      || Exchanges(t) < Exchanges(s)
      || (Exchanges(t) == Exchanges(s) && Stage(t) < Stage(s))
      || (Exchanges(t) == Exchanges(s) && Stage(t) == Stage(s) && |t.sim.trace| < |s.sim.trace|)
      || (Exchanges(t) == Exchanges(s) && Stage(t) == Stage(s) && t.sim.trace == s.sim.trace && Bytes(t) < Bytes(s))
    ensures Apply(o, s, m).ops == s.ops
  {
    hide NextLine, AfterLine, Deliver, Observe, Handle, Ignore, StopLine;
    NoLine("");
    match m
    case DebuggerWrites(n) => MovingKeepsContent(s.down, n);
    case DebuggerReads(n) => MovingKeepsContent(s.up, n);
    case PluginWrites(n) => MovingKeepsContent(s.up, n);
    case PluginReads(n) => MovingKeepsContent(s.down, n);
    case PluginTakesLine => LineIsWhole(s.down);
    case DebuggerTakesLine => LineIsWhole(s.up);
    case HostExecutes =>
    case _ =>
  }

  /** The operation in hand, driven to its end by an arbitrary scheduler. That
      this function is well defined is termination; its postcondition says it
      ends between operations. */
  ghost function Finish(o: Oclgrind, s: System, trace: seq<Event>, pick: System -> Move): (t: System)
    requires Inv(o, s, trace)
    requires forall u: System :: Shape(u) && !u.pc.Idle? ==> Enabled(u, pick(u))
    ensures t.pc.Idle? && Inv(o, t, trace) && t.ops == s.ops
    decreases Exchanges(s), Stage(s), |s.sim.trace|, Bytes(s)
  {
    if s.pc.Idle? then s
    else
      MoveKeeps(o, s, pick(s), trace);
      MoveComesCloser(o, s, pick(s));
      Finish(o, Apply(o, s, pick(s)), trace, pick)
  }

  /** One move as a run of its own. */
  lemma One(o: Oclgrind, s: System, turn: Turn) returns (turns: seq<Turn>, t: System)
    requires match turn case User(op) => s.pc.Idle? && Lawful(s.b, op) case Internal(m) => Enabled(s, m)
    ensures t == match turn case User(op) => Begun(s, op) case Internal(m) => Apply(o, s, m)
    ensures Reaches(o, s, turns, t)
  {
    hide Enabled, Apply, Lawful, Begun;
    turns := [turn];
    t := match turn case User(op) => Begun(s, op) case Internal(m) => Apply(o, s, m);
    assert turns[1..] == [];
    NoTurns(o, t);
  }

  /** The operation in hand can always be finished. */
  lemma {:induction false} CanFinish(o: Oclgrind, s: System, trace: seq<Event>) returns (turns: seq<Turn>, t: System)
    requires Inv(o, s, trace)
    ensures Reaches(o, s, turns, t) && t.pc.Idle? && t.ops == s.ops
    decreases Exchanges(s), Stage(s), |s.sim.trace|, Bytes(s)
  {
    hide Reaches, Enabled, Apply, Sound, Settle, Ahead, Run, LawfulRun, Exchanges, Stage, Bytes, NextLine, AfterLine;
    if s.pc.Idle? {
      NoTurns(o, s);
      turns, t := [], s;
    } else {
      NeverStuck(s);
      var m :| Enabled(s, m);
      var first, u := One(o, s, Internal(m));
      MoveKeeps(o, s, m, trace);
      MoveComesCloser(o, s, m);
      var rest;
      rest, t := CanFinish(o, u, trace);
      RunsJoin(o, s, first, u, rest, t);
      turns := first + rest;
    }
  }

  /** Lockstep. In every state any schedule can reach: between operations both
      byte streams and both buffers are empty, the debugger believes itself
      halted exactly when the plugin is blocked serving, and both sides and the
      last result are exactly those of the simple system; during an operation
      some process can move, and at most one line is under way. */
  lemma LockstepHolds(o: Oclgrind, trace: seq<Event>, turns: seq<Turn>, t: System)
    requires Reaches(o, Initial(trace), turns, t)
    ensures t.pc.Idle? ==>
      && Content(t.down) == "" && Content(t.up) == ""
      && (t.b.halted <==> t.sim.host == Serving)
      && World(t.b, t.sim, t.result) == Run(o, Start(trace), t.ops)
      && Ready(World(t.b, t.sim, t.result))
    ensures !t.pc.Idle? ==> exists m :: Enabled(t, m)
    ensures OneAtMost(t.down) && OneAtMost(t.up) && (Content(t.down) == "" || Content(t.up) == "")
  {
    hide Enabled, Reaches, Ready, Run, NextLine;
    InitiallyInv(o, trace);
    RunsKeepInv(o, Initial(trace), turns, t, trace);
    TablesAgreeOverRuns(o, trace, t.ops);
    if !t.pc.Idle? {
      NeverStuck(t);
    }
  }

  /** Every lawful list of operations is carried out by some schedule. */
  lemma {:induction false} CanRun(o: Oclgrind, trace: seq<Event>, ops: seq<Op>) returns (turns: seq<Turn>, t: System)
    requires LawfulRun(o, Start(trace), ops)
    ensures Reaches(o, Initial(trace), turns, t) && t.pc.Idle? && t.ops == ops
    decreases |ops|
  {
    hide Reaches, Inv, Run, Perform, Lawful, Enabled, Apply, Ready;
    if ops == [] {
      NoTurns(o, Initial(trace));
      turns, t := [], Initial(trace);
    } else {
      var k := |ops| - 1;
      var first, s := CanRun(o, trace, ops[..k]);
      LockstepHolds(o, trace, first, s);
      InitiallyInv(o, trace);
      RunsKeepInv(o, Initial(trace), first, s, trace);
      var start, u := One(o, s, User(ops[k]));
      BeginKeeps(o, s, ops[k], trace);
      var rest;
      rest, t := CanFinish(o, u, trace);
      RunsJoin(o, Initial(trace), first, s, start, u);
      RunsJoin(o, Initial(trace), first + start, u, rest, t);
      turns := first + start + rest;
      BegunAppends(s, ops[k]);
      assert ops == ops[..k] + [ops[k]];
    }
  }

  lemma BegunAppends(s: System, op: Op)
    requires s.pc.Idle?
    ensures Begun(s, op).ops == s.ops + [op]
  {
    hide Begin;
  }

  /** However the bytes are split and the processes scheduled, an operation has
      one outcome: two runs that have done the same operations are, between
      operations, in the same state. */
  lemma ScheduleDoesNotMatter(
    o: Oclgrind, trace: seq<Event>, turns1: seq<Turn>, t1: System, turns2: seq<Turn>, t2: System)
    requires Reaches(o, Initial(trace), turns1, t1) && t1.pc.Idle?
    requires Reaches(o, Initial(trace), turns2, t2) && t2.pc.Idle?
    requires t1.ops == t2.ops
    ensures t1.b == t2.b && t1.sim == t2.sim && t1.result == t2.result
  {
    hide Reaches, Run, Ready, Enabled;
    LockstepHolds(o, trace, turns1, t1);
    LockstepHolds(o, trace, turns2, t2);
  }

  /** The debugger has let go of the program, or the program has ended. */
  predicate IsOver(s: System) {
    s.pc.Draining? || s.sim.host == Detached || (s.pc.Idle? && s.sim.host == Exited)
  }

  lemma OverAfterMove(o: Oclgrind, s: System, m: Move)
    requires Shape(s) && IsOver(s) && Enabled(s, m)
    ensures var t := Apply(o, s, m); IsOver(t) && t.sim.log == s.sim.log
  {
    hide NextLine, AfterLine, Deliver, Handle, Observe, Ignore;
    NoLine("");
    assert Content(s.down) == "" && Content(s.up) == "";
    assert s.down.pending == "" && s.up.pending == "";
  }

  lemma OverAfterBegin(s: System, op: Op)
    requires Shape(s) && IsOver(s) && s.pc.Idle?
    ensures var t := Begun(s, op); IsOver(t) && t.sim.log == s.sim.log
  {
    hide NextLine, AfterLine, BreakCommand, DeleteCommand, Erased;
  }

  lemma OverIsNotHalted(s: System)
    requires Shape(s) && IsOver(s)
    ensures !s.b.halted
  {
    hide NextLine, AfterLine;
  }

  /** After detach, or once the program has ended, nothing halts ever again,
      whatever the user still tries. */
  lemma {:induction false} NeverHaltsAgain(o: Oclgrind, s: System, turns: seq<Turn>, t: System, trace: seq<Event>)
    requires Inv(o, s, trace) && Reaches(o, s, turns, t) && IsOver(s)
    ensures t.sim.log == s.sim.log && !t.b.halted
    decreases |turns|
  {
    hide Shape, IsOver, Sound, Settle, Ahead, Run, LawfulRun, Begun, Apply, Enabled, Lawful;
    if turns == [] {
      OverIsNotHalted(s);
    } else {
      match turns[0]
      case User(op) =>
        BeginKeeps(o, s, op, trace);
        OverAfterBegin(s, op);
        NeverHaltsAgain(o, Begun(s, op), turns[1..], t, trace);
      case Internal(m) =>
        MoveKeeps(o, s, m, trace);
        OverAfterMove(o, s, m);
        NeverHaltsAgain(o, Apply(o, s, m), turns[1..], t, trace);
    }
  }
}
