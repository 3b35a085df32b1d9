/** Why an expression must be one line: a name that holds a newline always takes
    the two processes out of step, and nothing else the user may evaluate does. */
module Newlines {
  import opened Types
  import opened Text
  import opened Channel
  import opened Plugin
  import opened Backend
  import opened Session
  import opened Lockstep

  // ---- Lines longer than one read ----

  /** The same bytes, read until the buffer holds a line. */
  ghost predicate HasRead(w: Wire, v: Wire) {
    v.unsent == w.unsent && v.pending + v.flight == w.pending + w.flight && !NeedsBytes(v)
  }

  predicate LineSent(w: Wire) { NextLine(w.pending + w.flight).Some? }

  lemma SomethingToRead(w: Wire)
    requires NeedsBytes(w) && LineSent(w)
    ensures w.flight != ""
  {
    hide NextLine;
    assert w.flight == "" ==> w.pending + w.flight == w.pending;
  }

  lemma ReadsOn(w: Wire, n: nat)
    requires n <= |w.flight|
    ensures ReadIn(w, n).pending + ReadIn(w, n).flight == w.pending + w.flight
  {
    assert w.flight == w.flight[..n] + w.flight[n..];
  }

  /** Whoever has read a line has the first of those sent. */
  lemma LineRead(w: Wire, v: Wire)
    requires HasRead(w, v)
    ensures NextLine(v.pending) == NextLine(w.pending + w.flight)
    ensures AfterLine(v.pending) + v.flight == AfterLine(w.pending + w.flight)
  {
    hide NextLine, AfterLine;
    LineIsStable(v.pending, v.flight);
  }

  lemma {:induction false} PluginReadsLine(o: Oclgrind, s: System) returns (turns: seq<Turn>, t: System)
    requires PluginListens(s) && LineSent(s.down)
    ensures Reaches(o, s, turns, t) && t == s.(down := t.down) && HasRead(s.down, t.down)
    decreases |s.down.flight|
  {
    hide NextLine, AfterLine, Reaches;
    if NeedsBytes(s.down) {
      SomethingToRead(s.down);
      var n := Min(|s.down.flight|, 4096);
      ReadsOn(s.down, n);
      var first, u := One(o, s, Internal(PluginReads(n)));
      var rest;
      rest, t := PluginReadsLine(o, u);
      RunsJoin(o, s, first, u, rest, t);
      turns := first + rest;
    } else {
      NoTurns(o, s);
      turns, t := [], s;
    }
  }

  lemma {:induction false} DebuggerReadsLine(o: Oclgrind, s: System) returns (turns: seq<Turn>, t: System)
    requires DebuggerListens(s) && LineSent(s.up)
    ensures Reaches(o, s, turns, t) && t == s.(up := t.up) && HasRead(s.up, t.up)
    decreases |s.up.flight|
  {
    hide NextLine, AfterLine, Reaches;
    if NeedsBytes(s.up) {
      SomethingToRead(s.up);
      var n := Min(|s.up.flight|, 4096);
      ReadsOn(s.up, n);
      var first, u := One(o, s, Internal(DebuggerReads(n)));
      var rest;
      rest, t := DebuggerReadsLine(o, u);
      RunsJoin(o, s, first, u, rest, t);
      turns := first + rest;
    } else {
      NoTurns(o, s);
      turns, t := [], s;
    }
  }

  /** The plugin reads a line and handles it. */
  lemma PluginAnswers(o: Oclgrind, s: System) returns (turns: seq<Turn>, t: System)
    requires PluginListens(s) && LineSent(s.down) && s.down.unsent == ""
    ensures Reaches(o, s, turns, t)
    ensures t == Handled(o, s, NextLine(s.down.pending + s.down.flight).value).(down := t.down)
    ensures Content(t.down) == AfterLine(s.down.pending + s.down.flight) && t.down.unsent == ""
  {
    hide NextLine, AfterLine, Reaches, Handle;
    var first, u := PluginReadsLine(o, s);
    LineRead(s.down, u.down);
    var last;
    last, t := One(o, u, Internal(PluginTakesLine));
    RunsJoin(o, s, first, u, last, t);
    turns := first + last;
    assert Content(t.down) == AfterLine(u.down.pending) + u.down.flight;
  }

  /** A whole answer goes up and the debugger goes on with it. */
  lemma DebuggerGoesOn(o: Oclgrind, s: System, line: string) returns (turns: seq<Turn>, t: System)
    requires s.pc.Waiting? && s.down.unsent == "" && s.up == Wire(line + "\n", "", "") && OneLine(line)
    ensures Reaches(o, s, turns, t)
    ensures t == Proceed(s.(up := Silent), Deliver(s.b, s.pc.cont, Some(line)))
  {
    hide NextLine, AfterLine, Reaches, Deliver, Proceed;
    var bytes := line + "\n";
    LineSplits(line, "");
    assert bytes + "" == bytes;
    var a, u := One(o, s, Internal(PluginWrites(|bytes|)));
    assert u.up == Wire("", bytes, "");
    assert u.up.pending + u.up.flight == bytes;
    var b, v := DebuggerReadsLine(o, u);
    LineRead(u.up, v.up);
    assert v.up.flight == "" && AfterLine(v.up.pending) == "";
    var c;
    c, t := One(o, v, Internal(DebuggerTakesLine));
    RunsJoin(o, s, a, u, b, v);
    RunsJoin(o, s, a + b, v, c, t);
    turns := a + b + c;
  }

  // ---- The request that is two lines ----

  lemma NameSplits(name: string)
    requires !OneLine(name)
    ensures NextLine(name).Some?
    ensures var bytes := PrintCommand(name) + "\n";
      && NextLine(bytes) == Some(PrintCommand(NextLine(name).value))
      && AfterLine(bytes) == AfterLine(name) + "\n"
  {
    hide NextLine, AfterLine;
    StreamIsLineAndRest(name);
    var a, rest := NextLine(name).value, AfterLine(name) + "\n";
    assert PrintCommand(name) + "\n" == PrintCommand(a) + "\n" + rest;
    LineSplits(PrintCommand(a), rest);
  }

  /** Evaluating a name that holds a newline: the plugin answers its first line,
      the debugger takes that for the answer and believes the operation over,
      and the rest of the name lies in the stream as commands of its own. */
  lemma RestIsLeftBehind(o: Oclgrind, s: System, name: string) returns (turns: seq<Turn>, t: System)
    requires Shape(s) && s.pc.Idle? && s.b.halted && s.b.attached && !OneLine(name)
    ensures Reaches(o, Begun(s, Evaluate(name)), turns, t)
    ensures t.pc.Idle? && t.b == s.b && t.sim == s.sim.(p := s.sim.p.(served := s.sim.p.served + 1))
    ensures Content(t.down) == AfterLine(name) + "\n" && t.down.unsent == "" && t.up == Silent
  {
    hide NextLine, AfterLine, Reaches, Handle, PrintedFrom;
    NameSplits(name);
    var command := PrintCommand(NextLine(name).value);
    PrintHandled(o, s.sim.p, NextLine(name).value);
    var (q, reply) := Handle(o, s.sim.p, command);
    var bytes := PrintCommand(name) + "\n";
    var s0 := Begun(s, Evaluate(name));
    assert s0.down == Wire(bytes, "", "") && s0.up == Silent;
    var a, s1 := One(o, s0, Internal(DebuggerWrites(|bytes|)));
    assert s1.down == Wire("", bytes, "");
    assert s1.down.pending + s1.down.flight == bytes;
    var b, s2 := PluginAnswers(o, s1);
    assert s2.up == Wire(reply.line + "\n", "", "");
    var c;
    c, t := DebuggerGoesOn(o, s2, reply.line);
    RunsJoin(o, s0, a, s1, b, s2);
    RunsJoin(o, s0, a + b, s2, c, t);
    turns := a + b + c;
  }

  /** Between operations: nothing under way, and halted means the same on both
      sides. */
  ghost predicate InStep(t: System) {
    t.pc.Idle? ==>
      Content(t.down) == "" && Content(t.up) == "" && (t.b.halted <==> t.sim.host == Serving)
  }

  /** The exact condition for evaluating to keep the two processes in step, from
      any state a run can be in between operations: an expression that will be
      sent is one line. Then no schedule and no later operations ever find them
      out of step; otherwise some schedule does, before the user does anything
      else. */
  lemma EvaluateKeepsStepIff(o: Oclgrind, s: System, name: string, trace: seq<Event>)
    requires Inv(o, s, trace) && s.pc.Idle?
    ensures (forall turns, t :: Reaches(o, Begun(s, Evaluate(name)), turns, t) ==> InStep(t)) <==>
      OneLine(name) || !s.b.halted || !s.b.attached
  {
    hide Inv, Reaches, Lawful, Begun;
    var s0 := Begun(s, Evaluate(name));
    InvIsShape(o, s, trace);
    LawfulName(s.b, name);
    if Lawful(s.b, Evaluate(name)) {
      BeginKeeps(o, s, Evaluate(name), trace);
      forall turns, t | Reaches(o, s0, turns, t) ensures InStep(t) {
        RunsKeepInv(o, s0, turns, t, trace);
        InvIsShape(o, t, trace);
      }
    } else {
      var turns, t := RestIsLeftBehind(o, s, name);
      assert Content(t.down) != "";
      assert !InStep(t);
    }
  }

  lemma InvIsShape(o: Oclgrind, s: System, trace: seq<Event>)
    requires Inv(o, s, trace)
    ensures Shape(s) && InStep(s)
  {
    hide NextLine, AfterLine, Sound, Settle, Ahead, Run, LawfulRun;
  }

  lemma LawfulName(b: Debugger, name: string)
    ensures Lawful(b, Evaluate(name)) <==> OneLine(name) || !b.halted || !b.attached
  {
  }

  /** What being out of step can do: when the second line of the name is
      `continue`, the interpreter runs while the debugger, back between
      operations, believes it halted. */
  lemma NewlineBreaksLockstep(o: Oclgrind, s: System, first: string) returns (turns: seq<Turn>, t: System)
    requires Shape(s) && s.pc.Idle? && s.b.halted && s.b.attached && OneLine(first)
    ensures Reaches(o, Begun(s, Evaluate(first + "\n" + "continue")), turns, t)
    ensures t.pc.Idle? && t.b.halted && t.sim.host == Interpreting
  {
    hide NextLine, AfterLine, Reaches, Handle, Begun;
    var name := first + "\n" + "continue";
    LineSplits(first, "continue");
    assert !OneLine(name) by {
      assert name[|first|] == '\n';
    }
    var a, s1 := RestIsLeftBehind(o, s, name);
    assert s1.down.pending + s1.down.flight == "continue" + "\n" + "" by {
      assert Content(s1.down) == s1.down.pending + s1.down.flight;
      assert "continue" + "\n" + "" == "continue" + "\n";
    }
    LineSplits("continue", "");
    ResumeHandled(o, s1.sim.p);
    var b;
    b, t := PluginAnswers(o, s1);
    RunsJoin(o, Begun(s, Evaluate(name)), a, s1, b, t);
    turns := a + b;
  }
}
