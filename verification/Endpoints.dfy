/** The two classes against the simple system: each, given exactly the bytes the
    other sends, plays its side of every operation and of whole sessions. */
module Endpoints {
  import opened Types
  import opened Text
  import opened Channel
  import opened Plugin
  import opened Backend
  import opened Session
  import opened Agreement

  // ---- The conversation ----

  /** The bytes the plugin sends in the course of an operation. */
  ghost function Transcript(o: Oclgrind, sim: Sim, act: Act): string
    decreases Rank(act)
  {
    match act
    case Done(_, _) => ""
    case Ask(b, command, cont) =>
      var (next, got) := Answer(o, sim, command);
      (if got.Some? then got.value + "\n" else "") + Transcript(o, next, Deliver(b, cont, got))
  }

  /** The bytes the debugger sends in the course of an operation. */
  ghost function Requests(o: Oclgrind, sim: Sim, act: Act): string
    decreases Rank(act)
  {
    match act
    case Done(_, _) => ""
    case Ask(b, command, cont) =>
      var (next, got) := Answer(o, sim, command);
      command + "\n" + Requests(o, next, Deliver(b, cont, got))
  }

  /** No line ever comes only when the host has exited. */
  lemma EndIsExit(o: Oclgrind, sim: Sim, command: string)
    requires sim.host == Serving
    ensures Answer(o, sim, command).1.None? ==> Answer(o, sim, command).0.host == Exited
    ensures Answer(o, sim, command).1.Some? ==> Answer(o, sim, command).0.host == Serving
  {
    hide Handle;
    var (q, reply) := Handle(o, sim.p, command);
    if reply.Go? {
      RunOnKeeps(sim.(p := q));
    }
  }

  // ---- The backend class ----

  /** The backend class, reading the plugin's bytes off its channel, sends the
      debugger's, ends an operation exactly as the simple system does and leaves
      nothing unread. */
  lemma {:induction false} ClassFollowsSystem(o: Oclgrind, sim: Sim, act: Act)
    requires Sound(o, sim, act)
    ensures var played := Backend.Play(act, Transcript(o, sim, act), Stays); var v := Settle(o, sim, act);
      played.b == v.b && played.result == v.result && played.rest == "" && played.said == Requests(o, sim, act)
    decreases Rank(act)
  {
    hide Answer, Deliver, NextLine, AfterLine;
    if act.Ask? {
      var (next, got) := Answer(o, sim, act.command);
      var going := Deliver(act.b, act.cont, got);
      AnswersOneLine(o, sim, act.command);
      ClassFollowsSystem(o, next, going);
      if got.Some? {
        LineSplits(got.value, Transcript(o, next, going));
      } else {
        NoLine("");
        EndIsExit(o, sim, act.command);
        assert going.Done?;
        assert "" + "" == "";
      }
    }
  }

  // ---- The plugin class ----

  /** What the host process does on the debugger's bytes, and what it says. It
      stops where the bytes or the program end: still serving, or exited. */
  datatype Hosted = Hosted(sim: Sim, said: string, peer: Peer)

  function Saying(said: string, h: Hosted): Hosted { h.(said := said + h.said) }

  /** The plugin serves, and lets the interpreter go on when it is resumed. */
  ghost function Live(o: Oclgrind, sim: Sim, stream: string, peer: Peer): Hosted
    decreases |stream|, 0
  {
    var s := Serve(o, sim.p, stream, peer);
    if !s.open then Hosted(sim.(p := s.p), s.said, s.peer)
    else Saying(s.said, GoOn(o, sim.(p := s.p), s.rest, s.peer))
  }

  /** The interpreter runs to the next halt, which is reported. */
  ghost function GoOn(o: Oclgrind, sim: Sim, stream: string, peer: Peer): Hosted
    decreases |stream|, 1
  {
    var next := RunOn(sim);
    match LastStop(next)
    case None => Hosted(next, "", peer)
    case Some(line) =>
      var bytes := line + "\n";
      Saying(Part(peer, bytes), Live(o, next, stream, Less(peer, bytes)))
  }

  lemma SayingTwice(x: string, y: string, h: Hosted)
    ensures Saying(x, Saying(y, h)) == Saying(x + y, h)
    ensures Saying("", h) == h
  {
    assert x + (y + h.said) == (x + y) + h.said;
    assert "" + h.said == h.said;
  }

  lemma LiveAnswers(o: Oclgrind, sim: Sim, command: string, rest: string)
    requires OneLine(command) && Handle(o, sim.p, command).1.Say?
    ensures var (q, reply) := Handle(o, sim.p, command);
      Live(o, sim, command + "\n" + rest, Stays) == Saying(reply.line + "\n", Live(o, sim.(p := q), rest, Stays))
  {
    hide Handle, NextLine, AfterLine, GoOn;
    LineSplits(command, rest);
    var (q, reply) := Handle(o, sim.p, command);
    var s, line := Serve(o, q, rest, Stays), reply.line + "\n";
    assert Serve(o, sim.p, command + "\n" + rest, Stays) == Prefixed(line, s);
    if s.open {
      SayingTwice(line, s.said, GoOn(o, sim.(p := s.p), s.rest, s.peer));
    }
  }

  lemma LiveResumes(o: Oclgrind, sim: Sim, command: string, rest: string)
    requires OneLine(command) && Handle(o, sim.p, command).1.Go?
    ensures Live(o, sim, command + "\n" + rest, Stays) ==
      GoOn(o, sim.(p := Handle(o, sim.p, command).0), rest, Stays)
  {
    hide Handle, NextLine, AfterLine, GoOn;
    LineSplits(command, rest);
    var q := Handle(o, sim.p, command).0;
    assert Serve(o, sim.p, command + "\n" + rest, Stays) == Served(q, rest, "", true, Stays);
    SayingTwice("", "", GoOn(o, sim.(p := q), rest, Stays));
  }

  lemma LiveOnNothing(o: Oclgrind, sim: Sim)
    ensures Live(o, sim, "", Stays) == Hosted(sim, "", Stays)
  {
    NoLine("");
  }

  /** Where the host stands once an operation is over: waiting for what the
      debugger sends next, or at its end. */
  ghost function Afterwards(o: Oclgrind, sim: Sim, rest: string): Hosted {
    if sim.host == Serving then Live(o, sim, rest, Stays) else Hosted(sim, "", Stays)
  }

  /** The plugin class, serving and interpreting on the debugger's bytes, ends an
      operation exactly as the simple system does, and says the very bytes the
      backend class reads, whatever the debugger sends afterwards. */
  lemma {:induction false} PluginFollowsSystem(o: Oclgrind, sim: Sim, act: Act, rest: string)
    requires Sound(o, sim, act) && sim.host == Serving
    ensures Live(o, sim, Requests(o, sim, act) + rest, Stays) ==
      Saying(Transcript(o, sim, act), Afterwards(o, Settle(o, sim, act).sim, rest))
    decreases Rank(act)
  {
    hide Handle, Deliver, RunOn, Live, LastStop;
    match act
    case Done(_, _) =>
      assert "" + rest == rest;
      SayingTwice("", "", Live(o, sim, rest, Stays));
    case Ask(b, command, cont) =>
      var (q, reply) := Handle(o, sim.p, command);
      var (next, got) := Answer(o, sim, command);
      var going := Deliver(b, cont, got);
      var more := Requests(o, next, going) + rest;
      assert Requests(o, sim, act) + rest == command + "\n" + more;
      EndIsExit(o, sim, command);
      if got.None? {
        assert going.Done?;
        LiveResumes(o, sim, command, more);
        assert "" + "" == "";
        SayingTwice("", "", Hosted(next, "", Stays));
      } else {
        PluginFollowsSystem(o, next, going, rest);
        var line, end := got.value + "\n", Afterwards(o, Settle(o, next, going).sim, rest);
        SayingTwice(line, Transcript(o, next, going), end);
        if reply.Say? {
          LiveAnswers(o, sim, command, more);
        } else {
          LiveResumes(o, sim, command, more);
        }
      }
  }

  // ---- Whole sessions ----

  /** What an operation does while the plugin serves. */
  function ActOf(b: Debugger, op: Op): Act {
    match op
    case Launch => Done(b, Launched(false))
    case _ => Begin(b, op)
  }

  ghost function SessionRequests(o: Oclgrind, w: World, ops: seq<Op>): string
    decreases |ops|
  {
    if ops == [] then ""
    else Requests(o, w.sim, ActOf(w.b, ops[0])) + SessionRequests(o, Perform(o, w, ops[0]), ops[1..])
  }

  ghost function SessionTranscript(o: Oclgrind, w: World, ops: seq<Op>): string
    decreases |ops|
  {
    if ops == [] then ""
    else Transcript(o, w.sim, ActOf(w.b, ops[0])) + SessionTranscript(o, Perform(o, w, ops[0]), ops[1..])
  }

  /** The host once the debugger has gone away. */
  function Ended(sim: Sim): Sim { if sim.host == Serving then Drain(sim) else sim }

  lemma {:induction false} RunFromFront(o: Oclgrind, w: World, ops: seq<Op>)
    requires ops != []
    ensures Run(o, w, ops) == Run(o, Perform(o, w, ops[0]), ops[1..])
    ensures LawfulRun(o, w, ops) <==> Lawful(w.b, ops[0]) && LawfulRun(o, Perform(o, w, ops[0]), ops[1..])
    decreases |ops|
  {
    hide Perform, Lawful;
    var k := |ops| - 1;
    if k == 0 {
      assert ops[..0] == [] && ops[1..] == [];
      assert Run(o, w, ops[..0]) == w && LawfulRun(o, w, ops[..0]);
    } else {
      RunFromFront(o, w, ops[..k]);
      assert ops[..k][1..] == ops[1..][..k - 1];
      assert ops[1..][k - 1] == ops[k];
    }
  }

  /** After the end nothing is sent and nothing moves. */
  lemma {:induction false} ExitedStays(o: Oclgrind, w: World, ops: seq<Op>)
    requires Ready(w) && w.sim.host == Exited && LawfulRun(o, w, ops)
    ensures Run(o, w, ops).sim == w.sim && SessionRequests(o, w, ops) == "" && SessionTranscript(o, w, ops) == ""
    decreases |ops|
  {
    hide LawfulRun;
    if ops != [] {
      RunFromFront(o, w, ops);
      OperationKeepsAgreement(o, w, ops[0]);
      ExitedOnce(o, w, ops[0]);
      hide Perform, Ready, Requests, Transcript;
      ExitedStays(o, Perform(o, w, ops[0]), ops[1..]);
      assert "" + "" == "";
    }
  }

  lemma ExitedOnce(o: Oclgrind, w: World, op: Op)
    requires Ready(w) && w.sim.host == Exited
    ensures Perform(o, w, op).sim == w.sim
    ensures Requests(o, w.sim, ActOf(w.b, op)) == "" && Transcript(o, w.sim, ActOf(w.b, op)) == ""
  {
    hide Handle, RunOn;
  }

  lemma PluginFollowsOperation(o: Oclgrind, w: World, op: Op, rest: string)
    requires Ready(w) && w.sim.host == Serving && Lawful(w.b, op) && !op.Detach?
    ensures var v := Perform(o, w, op);
      && Ready(v) && (v.sim.host == Serving || v.sim.host == Exited)
      && Live(o, w.sim, Requests(o, w.sim, ActOf(w.b, op)) + rest, Stays) ==
           Saying(Transcript(o, w.sim, ActOf(w.b, op)), Afterwards(o, v.sim, rest))
  {
    hide Live, Handle, Begin, Saying, FreshIds, TablesAgree, Attends, Requests, Transcript, Answer, Deliver, Lawful;
    OperationKeepsAgreement(o, w, op);
    if op.Launch? {
      hide Sound;
      SilentAct(o, w.sim, Done(w.b, Launched(false)), rest);
      SayingTwice("", "", Live(o, w.sim, rest, Stays));
    } else {
      PluginFollowsSystem(o, w.sim, Begin(w.b, op), rest);
      SettlesSomewhere(o, w.sim, Begin(w.b, op));
    }
  }

  lemma SilentAct(o: Oclgrind, sim: Sim, act: Act, rest: string)
    requires act.Done?
    ensures Requests(o, sim, act) + rest == rest && Transcript(o, sim, act) == ""
  {
  }

  lemma {:induction false} SettlesSomewhere(o: Oclgrind, sim: Sim, act: Act)
    requires Sound(o, sim, act) && sim.host == Serving
    ensures var h := Settle(o, sim, act).sim.host; h == Serving || h == Exited
    decreases Rank(act)
  {
    hide Answer, Deliver;
    if act.Ask? {
      var (next, got) := Answer(o, sim, act.command);
      EndIsExit(o, sim, act.command);
      if got.Some? {
        SettlesSomewhere(o, next, Deliver(act.b, act.cont, got));
      } else {
        assert Deliver(act.b, act.cont, got).Done?;
      }
    }
  }

  /** The plugin class fed everything the debugger sends over a whole session ends
      as the session does, and says everything the debugger reads. */
  lemma {:induction false} PluginFollowsSession(o: Oclgrind, w: World, ops: seq<Op>)
    requires Ready(w) && w.sim.host == Serving && LawfulRun(o, w, ops)
    ensures var l := Live(o, w.sim, SessionRequests(o, w, ops), Stays);
      Ended(l.sim) == Ended(Run(o, w, ops).sim) && l.said == SessionTranscript(o, w, ops)
    decreases |ops|
  {
    hide LawfulRun, Live, Lawful, Ready, Perform, Requests, Transcript, Drain, ActOf;
    if ops == [] {
      LiveOnNothing(o, w.sim);
    } else {
      var v := Perform(o, w, ops[0]);
      RunFromFront(o, w, ops);
      if ops[0].Detach? {
        DetachedSession(o, w, ops);
      } else {
        PluginFollowsOperation(o, w, ops[0], SessionRequests(o, v, ops[1..]));
        if v.sim.host == Serving {
          PluginFollowsSession(o, v, ops[1..]);
        } else {
          ExitedStays(o, v, ops[1..]);
        }
      }
    }
  }

  lemma DetachedSession(o: Oclgrind, w: World, ops: seq<Op>)
    requires Ready(w) && w.sim.host == Serving && LawfulRun(o, w, ops) && ops != [] && ops[0].Detach?
    ensures var l := Live(o, w.sim, SessionRequests(o, w, ops), Stays);
      Ended(l.sim) == Ended(Run(o, w, ops).sim) && l.said == SessionTranscript(o, w, ops)
  {
    hide LawfulRun, Live;
    RunFromFront(o, w, ops);
    OperationKeepsAgreement(o, w, Detach);
    DrainExits(w.sim);
    ExitedStays(o, Perform(o, w, Detach), ops[1..]);
    assert "" + "" == "";
    LiveOnNothing(o, w.sim);
  }

  /** The same from the launch on: what RunHost does with a host program that is
      started, debugged with any operations and let go. */
  lemma HostFollowsRun(o: Oclgrind, w: World, ops: seq<Op>)
    requires Ready(w) && w.sim.host == Absent && LawfulRun(o, Perform(o, w, Launch), ops)
    ensures var sim, act := w.sim.(host := Serving), Deliver(w.b.(open := true), Greeted, Some("ready"));
      var v := Perform(o, w, Launch);
      var l := Live(o, sim, Requests(o, sim, act) + SessionRequests(o, v, ops), Stays);
      && Ended(l.sim) == Ended(Run(o, v, ops).sim)
      && l.said == Transcript(o, sim, act) + SessionTranscript(o, v, ops)
  {
    hide LawfulRun, Live, Requests, Transcript, Drain, Deliver, SessionRequests, SessionTranscript, Settle, Run, Sound;
    var sim, act := w.sim.(host := Serving), Deliver(w.b.(open := true), Greeted, Some("ready"));
    var v := Perform(o, w, Launch);
    LaunchIsSound(o, w);
    PluginFollowsSystem(o, sim, act, SessionRequests(o, v, ops));
    PluginFollowsSession(o, v, ops);
  }

  // ---- The hooks ----

  lemma GoesOn(o: Oclgrind, sim: Sim, stream: string, peer: Peer)
    requires sim.trace != [] && !Observe(sim.p, sim.trace[0]).1
    ensures GoOn(o, sim, stream, peer) ==
      GoOn(o, sim.(p := Observe(sim.p, sim.trace[0]).0, trace := sim.trace[1..]), stream, peer)
  {
    hide Observe, Live;
  }

  lemma HaltsHere(o: Oclgrind, sim: Sim, stream: string, peer: Peer)
    requires sim.trace != [] && Observe(sim.p, sim.trace[0]).1
    ensures var e, rest := sim.trace[0], sim.trace[1..];
      var bytes := StopLine(e.item, e.line) + "\n";
      GoOn(o, sim, stream, peer) ==
        Saying(Part(peer, bytes),
               Live(o, Sim(Observe(sim.p, e).0, rest, Serving, sim.log + [Halt(e.item, e.line, |rest|)]), stream,
                    Less(peer, bytes)))
  {
    hide Observe, Live, StopLine;
  }

  lemma LiveIs(o: Oclgrind, sim: Sim, stream: string, peer: Peer)
    ensures var s := Serve(o, sim.p, stream, peer);
      Live(o, sim, stream, peer) ==
        if s.open then Saying(s.said, GoOn(o, sim.(p := s.p), s.rest, s.peer))
        else Hosted(sim.(p := s.p), s.said, s.peer)
  {
  }

  /** Oclgrind with the plugin loaded, on an open channel: it makes the plugin and
      calls its hooks event by event. However the bytes are split, the plugin
      ends as Live says and, its debugger gone, lets the program run to its end. */
  method RunHost(o: Oclgrind, channel: LineChannel, trace: seq<Event>) returns (plugin: DebugPlugin)
    requires channel.open
    modifies channel
    ensures var ready := "ready" + "\n";
      var whole := Live(o, Sim(Fresh, trace, Serving, []), old(channel.Stream()), Less(old(channel.peer), ready));
      && plugin.Abs() == Ended(whole.sim).p
      && channel.outgoing == old(channel.outgoing) + Part(old(channel.peer), ready) + whole.said
      && channel.peer == whole.peer
  {
    hide Serve, Live, GoOn, Observe, Less, Part, StopLine, RunOn;
    ghost var ready := "ready" + "\n";
    ghost var before := channel.outgoing + Part(channel.peer, ready);
    ghost var sim := Sim(Fresh, trace, Serving, []);
    ghost var whole := Live(o, sim, channel.Stream(), Less(channel.peer, ready));
    LiveIs(o, sim, channel.Stream(), Less(channel.peer, ready));
    ghost var s := Serve(o, Fresh, channel.Stream(), Less(channel.peer, ready));
    plugin := new DebugPlugin(channel, o);
    ghost var said := s.said;
    sim := sim.(p := s.p);
    for i := 0 to |trace|
      invariant plugin.channel == channel && plugin.oclgrind == o && fresh(plugin)
      invariant sim.p == plugin.Abs() && sim.trace == trace[i..] && sim.host == Serving
      invariant channel.outgoing == before + said
      invariant channel.open ==> whole == Saying(said, GoOn(o, sim, channel.Stream(), channel.peer))
      invariant !channel.open ==>
        whole.said == said && whole.peer == channel.peer && Ended(whole.sim).p == Drain(sim).p
    {
      var e := trace[i];
      assert sim.trace[0] == e && sim.trace[1..] == trace[i + 1..];
      ghost var wasOpen, stream, peer := channel.open, channel.Stream(), channel.peer;
      CallHook(plugin, e);
      if !wasOpen {
        Ignores(sim);
        sim := sim.(p := Ignore(sim.p, e), trace := sim.trace[1..]);
      } else if !Observe(sim.p, e).1 {
        GoesOn(o, sim, stream, peer);
        sim := sim.(p := Observe(sim.p, e).0, trace := sim.trace[1..]);
      } else {
        HaltsHere(o, sim, stream, peer);
        ghost var stop := StopLine(e.item, e.line) + "\n";
        ghost var part, less := Part(peer, stop), Less(peer, stop);
        ghost var next := Sim(Observe(sim.p, e).0, sim.trace[1..], Serving,
                              sim.log + [Halt(e.item, e.line, |sim.trace| - 1)]);
        LiveIs(o, next, stream, less);
        s := Serve(o, next.p, stream, less);
        SayingTwice(said, part, Live(o, next, stream, less));
        SayingTwice(said + part, s.said, GoOn(o, next.(p := s.p), s.rest, s.peer));
        Regroup(before, said, part);
        Regroup(before, said + part, s.said);
        said := said + part + s.said;
        sim := next.(p := s.p);
      }
    }
    if channel.open {
      GoesToEnd(o, sim, channel.Stream(), channel.peer);
      assert said + "" == said;
    }
  }

  lemma GoesToEnd(o: Oclgrind, sim: Sim, stream: string, peer: Peer)
    requires sim.trace == []
    ensures GoOn(o, sim, stream, peer) == Hosted(sim.(host := Exited), "", peer)
  {
  }

  lemma Ignores(sim: Sim)
    requires sim.trace != []
    ensures Drain(sim) == Drain(sim.(p := Ignore(sim.p, sim.trace[0]), trace := sim.trace[1..]))
  {
    hide Ignore;
  }

  /** The hook Oclgrind calls for an event. */
  method CallHook(plugin: DebugPlugin, e: Event)
    modifies plugin, plugin.channel
    ensures !old(plugin.channel.open) ==>
      plugin.Abs() == Ignore(old(plugin.Abs()), e) && unchanged(plugin.channel)
    ensures old(plugin.channel.open) ==>
      var (q, halts) := Observe(old(plugin.Abs()), e);
      if !halts then plugin.Abs() == q && unchanged(plugin.channel)
      else
        var stop := StopLine(e.item, e.line) + "\n";
        var s := Serve(plugin.oclgrind, q, old(plugin.channel.Stream()), Less(old(plugin.channel.peer), stop));
        && plugin.Abs() == s.p && plugin.channel.open == s.open && plugin.channel.peer == s.peer
        && (s.open ==> plugin.channel.Stream() == s.rest)
        && plugin.channel.outgoing == old(plugin.channel.outgoing) + Part(old(plugin.channel.peer), stop) + s.said
  {
    hide Serve, StopLine, Less, Part;
    match e
    case KernelBegin(size) => plugin.OnKernelBegin(size);
    case KernelEnd => plugin.OnKernelEnd();
    case Instruction(item, line) => plugin.OnInstruction(item, line);
  }
}
