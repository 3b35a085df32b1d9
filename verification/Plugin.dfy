/** The interpreter side of the Oclgrind protocol: the state the debug plugin
    keeps, what each command and each interpreter event does to it, and the
    plugin class itself. */
module Plugin {
  import opened Types
  import opened Text
  import opened Channel

  /** A work-item as the interpreter knows it: its global index, the depth of
      its call stack and its coordinates. */
  datatype WorkItem = WorkItem(index: u64, depth: u64, global: Size3, local: Size3, group: Size3)

  /** What the interpreter does, in order. Line 0 stands for an instruction
      without a debug location. */
  datatype Event =
    | KernelBegin(size: Size3)
    | KernelEnd
    | Instruction(item: WorkItem, line: u32)

  datatype Mode = Running | StepIn | StepOver

  /** Oclgrind as the plugin meets it, asked for the k-th time: which work-item
      a switch reaches, how an expression prints for a work-item, which memory is
      valid and what it holds. Nothing is assumed about the answers. */
  datatype Oclgrind = Oclgrind(
    switchTo: (nat, Size3) -> Option<WorkItem>,
    show: (nat, WorkItem, string) -> string,
    valid: (nat, u64, u64) -> bool,
    byteAt: (nat, int) -> u8)

  /** `current` is the interpreter's current work-item, `kernel` the running
      kernel's global size, `served` counts the commands answered so far. */
  datatype State = State(
    kernel: Option<Size3>,
    current: Option<WorkItem>,
    lines: set<u64>,
    ids: map<u64, u64>,
    mode: Mode,
    stepIndex: u64,
    stepDepth: u64,
    lastLine: map<u64, u64>,
    served: nat)

  const Fresh := State(None, None, {}, map[], Running, 0, 0, map[], 0)

  /** What a command leads to: a reply line, or the interpreter running on. */
  datatype Reply = Say(line: string) | Go

  function Active(p: State): Option<WorkItem> {
    if p.kernel.None? then None else p.current
  }

  // ---- Commands ----

  /** A reply that fits on one line, as the newline-framed protocol needs. */
  predicate Tidy(reply: Reply) { reply.Say? ==> OneLine(reply.line) }

  function Err(reason: string): (reply: Reply)
    requires OneLine(reason)
    ensures Tidy(reply)
  {
    Say("err " + reason)
  }

  function Execute(p: State, words: seq<string>): (r: (State, Reply))
    requires words != []
    ensures Tidy(r.1)
  {
    if words[0] == "continue" then (p.(mode := Running), Go)
    else if Active(p).None? then (p, Err("no work-item is halted"))
    else
      var item := Active(p).value;
      var over := |words| > 1 && words[1] == "over";
      (p.(mode := if over then StepOver else StepIn, stepIndex := item.index, stepDepth := item.depth), Go)
  }

  function Erased(ids: map<u64, u64>, id: u64): map<u64, u64> {
    map k | k in ids && k != id :: ids[k]
  }

  predicate Uses(ids: map<u64, u64>, line: u64) {
    exists k :: k in ids && ids[k] == line
  }

  function Arm(p: State, id: u64, line: u64): (r: (State, Reply))
    ensures Tidy(r.1)
  {
    if line == 0 then (p, Err("invalid line"))
    else (p.(lines := p.lines + {line}, ids := p.ids[id := line]), Say("ok"))
  }

  /** A line is disarmed only when no id is left that uses it. */
  function Disarm(p: State, id: u64): (r: (State, Reply))
    ensures Tidy(r.1)
  {
    if id !in p.ids then (p, Err("unknown breakpoint"))
    else
      var left := Erased(p.ids, id);
      (p.(ids := left, lines := if Uses(left, p.ids[id]) then p.lines else p.lines - {p.ids[id]}), Say("ok"))
  }

  function EditBreakpoints(p: State, words: seq<string>): (r: (State, Reply))
    requires words != []
    ensures Tidy(r.1)
  {
    if words[0] == "break" then
      if |words| < 3 then (p, Err("break needs an id and a line"))
      else Arm(p, StrToUl(words[1]), StrToUl(words[2]))
    else if |words| < 2 then (p, Err("delete needs an id"))
    else Disarm(p, StrToUl(words[1]))
  }

  /** switchWorkItem with the plugin's guards; on success the target is the
      current work-item. */
  function Switched(o: Oclgrind, p: State, target: Size3): Option<WorkItem> {
    if p.kernel.None? then None
    else if target.x >= p.kernel.value.x || target.y >= p.kernel.value.y || target.z >= p.kernel.value.z then None
    else
      match o.switchTo(p.served, target)
      case None => None
      case Some(item) => Some(item.(global := target))
  }

  function Flat(c: char): char { if c == '\n' || c == '\r' then ' ' else c }

  /** An expression's text on one line; empty when Oclgrind does not know it. */
  function Shown(text: string): (value: string)
    ensures OneLine(value)
  {
    if text == "not found" then ""
    else seq(|text|, i requires 0 <= i < |text| => Flat(text[i]))
  }

  function Memory(o: Oclgrind, k: nat, address: u64, length: u64): seq<u8> {
    if o.valid(k, address, length) then seq(length, i requires 0 <= i < length => o.byteAt(k, address + i)) else []
  }

  function Choose(o: Oclgrind, p: State, target: Size3): (r: (State, Reply))
    ensures Tidy(r.1)
  {
    match Switched(o, p, target)
    case None => (p, Err("work-item state unavailable"))
    case Some(item) => (p.(current := Some(item)), Say("ok" + Tail(Coords(item.local) + Coords(item.group))))
  }

  function Print(o: Oclgrind, p: State, expr: string): (reply: Reply)
    ensures Tidy(reply)
  {
    if Active(p).None? then Err("no work-item is halted")
    else
      var value := Shown(o.show(p.served, Active(p).value, expr));
      if value == "" then Err("not in scope") else Say("value " + value)
  }

  function Load(o: Oclgrind, p: State, address: u64, length: u64): (reply: Reply)
    ensures Tidy(reply)
  {
    var bytes := Memory(o, p.served, address, length);
    var hex := Hex(bytes);
    HexIsOneWord(bytes);
    if hex == "" && length > 0 then Err("invalid address") else Say("data " + hex)
  }

  function Query(o: Oclgrind, p: State, words: seq<string>): (r: (State, Reply))
    requires words != []
    ensures Tidy(r.1)
  {
    if words[0] == "select" && |words| > 3 then
      Choose(o, p, Size3(StrToUl(words[1]), StrToUl(words[2]), StrToUl(words[3])))
    else if words[0] == "print" && |words| > 1 then (p, Print(o, p, words[1]))
    else if words[0] == "read" && |words| > 2 then (p, Load(o, p, StrToUl(words[1]), StrToUl(words[2])))
    else (p, Err("unsupported command"))
  }

  /** handle_command on the split words: the new state and the reply. */
  function Obey(o: Oclgrind, p: State, words: seq<string>): (r: (State, Reply))
    ensures Tidy(r.1)
  {
    if words == [] then (p, Err("empty command"))
    else if words[0] == "continue" || words[0] == "step" then Execute(p, words)
    else if words[0] == "break" || words[0] == "delete" then EditBreakpoints(p, words)
    else Query(o, p, words)
  }

  function Handle(o: Oclgrind, p: State, command: string): (r: (State, Reply))
    ensures Tidy(r.1)
  {
    var (q, reply) := Obey(o, p, Words(command));
    (q.(served := p.served + 1), reply)
  }

  // ---- Interpreter events ----

  predicate ShouldHalt(p: State, item: WorkItem, line: u32) {
    line != 0 &&
    !(item.index in p.lastLine && p.lastLine[item.index] == line) &&
    match p.mode
    case Running => line in p.lines
    case StepIn => item.index == p.stepIndex
    case StepOver => item.index == p.stepIndex && item.depth <= p.stepDepth
  }

  /** A hook's effect while the plugin does not halt, and whether it halts. */
  function Observe(p: State, e: Event): (r: (State, bool))
    ensures r.1 ==> e.Instruction?
  {
    match e
    case KernelBegin(size) => (p.(kernel := Some(size), lastLine := map[]), false)
    case KernelEnd => (p.(kernel := None, lastLine := map[]), false)
    case Instruction(item, line) =>
      var q := p.(current := Some(item));
      if ShouldHalt(p, item, line) then (q.(lastLine := p.lastLine[item.index := line]), true)
      else (q, false)
  }

  function StopLine(item: WorkItem, line: u32): (s: string)
    ensures OneLine(s)
  {
    "stopped" + Tail([line] + Coords(item.global) + Coords(item.local) + Coords(item.group))
  }

  /** The serve loop over the bytes a debugger sends: the state it ends in, the
      bytes left unread, the bytes replied, and whether it was told to resume
      (the channel stays open) or lost its peer (the channel closes). */
  datatype Served = Served(p: State, rest: string, said: string, open: bool, peer: Peer)

  function Serve(o: Oclgrind, p: State, stream: string, peer: Peer): (s: Served)
    ensures s.open ==> |s.rest| < |stream|
    decreases |stream|
  {
    match NextLine(stream)
    case None => Served(p, "", "", false, peer)
    case Some(command) =>
      var (q, reply) := Handle(o, p, command);
      match reply
      case Go => Served(q, AfterLine(stream), "", true, peer)
      case Say(line) =>
        var bytes := line + "\n";
        if Fits(peer, bytes) then Prefixed(bytes, Serve(o, q, AfterLine(stream), Less(peer, bytes)))
        else Served(q, "", Part(peer, bytes), false, Less(peer, bytes))
  }

  function Prefixed(said: string, s: Served): Served {
    s.(said := said + s.said)
  }

  lemma PrefixTwice(a: string, b: string, s: Served)
    ensures Prefixed(a, Prefixed(b, s)) == Prefixed(a + b, s)
  {
    assert a + (b + s.said) == (a + b) + s.said;
  }

  lemma ServeNothing(o: Oclgrind, p: State, stream: string, peer: Peer)
    requires NextLine(stream).None?
    ensures Serve(o, p, stream, peer) == Served(p, "", "", false, peer)
  {
    hide NextLine, AfterLine;
  }

  /** One turn of the serve loop, with the bytes it may send. */
  lemma ServeOne(o: Oclgrind, p: State, stream: string, peer: Peer, bytes: string)
    requires NextLine(stream).Some?
    requires var reply := Handle(o, p, NextLine(stream).value).1;
      bytes == if reply.Say? then reply.line + "\n" else ""
    ensures var (q, reply) := Handle(o, p, NextLine(stream).value);
      Serve(o, p, stream, peer) ==
        if reply.Go? then Served(q, AfterLine(stream), "", true, peer)
        else if Fits(peer, bytes) then Prefixed(bytes, Serve(o, q, AfterLine(stream), Less(peer, bytes)))
        else Served(q, "", Part(peer, bytes), false, Less(peer, bytes))
  {
    hide Handle, NextLine, AfterLine;
  }

  lemma Regroup(x: string, y: string, z: string)
    ensures (x + y) + z == x + (y + z)
  {
  }

  lemma FittingPart(peer: Peer, bytes: string)
    ensures Fits(peer, bytes) ==> Part(peer, bytes) == bytes
  {
  }

  // ---- The plugin class ----

  /** `invocation`, `breakpointLines`, ... are the plugin's own fields;
      `currentItem` is the interpreter's current work-item and `served` numbers
      the commands put to it. */
  class DebugPlugin {
    const channel: LineChannel
    const oclgrind: Oclgrind
    var invocation: Option<Size3>
    var currentItem: Option<WorkItem>
    var breakpointLines: set<u64>
    var breakpointIds: map<u64, u64>
    var mode: Mode
    var steppingIndex: u64
    var steppingDepth: u64
    var lastLine: map<u64, u64>
    var served: nat

    ghost function Abs(): State
      reads this
    {
      State(invocation, currentItem, breakpointLines, breakpointIds, mode, steppingIndex, steppingDepth,
            lastLine, served)
    }

    /** With a debugger there, announces itself and serves it until the first
        resume; without one the plugin does nothing. */
    constructor (channel: LineChannel, oclgrind: Oclgrind)
      modifies channel
      ensures this.channel == channel && this.oclgrind == oclgrind
      ensures !old(channel.open) ==> Abs() == Fresh && unchanged(channel)
      ensures old(channel.open) ==>
        var ready := "ready" + "\n";
        var s := Serve(oclgrind, Fresh, old(channel.Stream()), Less(old(channel.peer), ready));
        && Abs() == s.p && channel.open == s.open && (s.open ==> channel.Stream() == s.rest)
        && channel.outgoing == old(channel.outgoing) + Part(old(channel.peer), ready) + s.said
        && channel.peer == s.peer
    {
      hide Serve;
      this.channel, this.oclgrind := channel, oclgrind;
      invocation, currentItem, breakpointLines, breakpointIds := None, None, {}, map[];
      mode, steppingIndex, steppingDepth, lastLine, served := Running, 0, 0, map[], 0;
      new;
      if !channel.open {
        return;
      }
      var _ := channel.Send("ready");
      ServeDebugger();
    }

    method OnKernelBegin(size: Size3)
      modifies this`invocation, this`lastLine
      ensures Abs() == Observe(old(Abs()), KernelBegin(size)).0
    {
      invocation, lastLine := Some(size), map[];
    }

    method OnKernelEnd()
      modifies this`invocation, this`lastLine
      ensures Abs() == Observe(old(Abs()), KernelEnd).0
    {
      invocation, lastLine := None, map[];
    }

    /** A halt records the line, reports the stop and serves the debugger until
        it resumes; with the channel closed nothing halts any more. */
    method OnInstruction(item: WorkItem, line: u32)
      modifies this, channel
      ensures !old(channel.open) ==> Abs() == old(Abs()).(current := Some(item)) && unchanged(channel)
      ensures old(channel.open) ==>
        var (q, halts) := Observe(old(Abs()), Instruction(item, line));
        if !halts then Abs() == q && unchanged(channel)
        else
          var stop := StopLine(item, line) + "\n";
          var s := Serve(oclgrind, q, old(channel.Stream()), Less(old(channel.peer), stop));
          && Abs() == s.p && channel.open == s.open && (s.open ==> channel.Stream() == s.rest)
          && channel.outgoing == old(channel.outgoing) + Part(old(channel.peer), stop) + s.said
          && channel.peer == s.peer
    {
      hide Serve, StopLine;
      currentItem := Some(item);
      if !channel.open {
        return;
      }
      if line == 0 {
        return;
      }
      var halts := Halts(item, line);
      if !halts {
        return;
      }
      lastLine := lastLine[item.index := line];
      var _ := channel.Send(StopLine(item, line));
      ServeDebugger();
    }

    method Halts(item: WorkItem, line: u32) returns (halts: bool)
      requires line != 0
      ensures halts <==> ShouldHalt(Abs(), item, line)
    {
      if item.index in lastLine && lastLine[item.index] == line {
        return false;
      }
      match mode
      case Running => return line in breakpointLines;
      case StepIn => return item.index == steppingIndex;
      case StepOver => return item.index == steppingIndex && item.depth <= steppingDepth;
    }

    method ServeDebugger()
      requires channel.open
      modifies this, channel
      ensures var s := Serve(oclgrind, old(Abs()), old(channel.Stream()), old(channel.peer));
        && Abs() == s.p && channel.open == s.open && (s.open ==> channel.Stream() == s.rest)
        && channel.outgoing == old(channel.outgoing) + s.said && channel.peer == s.peer
    {
      hide Serve, Handle, NextLine, AfterLine, Part, Fits, Less;
      ghost var sent := channel.outgoing;
      ghost var before, stream, peer, said := Abs(), channel.Stream(), channel.peer, "";
      ghost var whole := Serve(oclgrind, before, stream, peer);
      var command := channel.Recv();
      while command.Some?
        invariant channel.open && channel.peer == peer
        invariant command == NextLine(stream) && channel.Stream() == AfterLine(stream)
        invariant command.None? ==> channel.incoming == ""
        invariant before == Abs() && channel.outgoing == sent + said
        invariant whole == Prefixed(said, Serve(oclgrind, before, stream, peer))
        decreases |stream|
      {
        ghost var reply := Handle(oclgrind, before, command.value).1;
        ghost var bytes := if reply.Say? then reply.line + "\n" else "";
        ServeOne(oclgrind, before, stream, peer, bytes);
        FittingPart(peer, bytes);
        Regroup(sent, said, Part(peer, bytes));
        var alive, resume := HandleCommand(command.value);
        if !alive {
          channel.Close();
          return;
        }
        if resume {
          return;
        }
        PrefixTwice(said, bytes, Serve(oclgrind, Abs(), AfterLine(stream), Less(peer, bytes)));
        said := said + bytes;
        before, stream, peer := Abs(), channel.Stream(), channel.peer;
        command := channel.Recv();
      }
      ServeNothing(oclgrind, before, stream, peer);
      channel.Close();
    }

    /** One command: the new state, and either the reply on the wire or the
        order to resume. False when the reply could not be sent. */
    method HandleCommand(command: string) returns (alive: bool, resume: bool)
      requires channel.open
      modifies this, channel`outgoing, channel`peer
      ensures Abs() == Handle(oclgrind, old(Abs()), command).0
      ensures var reply := Handle(oclgrind, old(Abs()), command).1;
        && resume == reply.Go?
        && alive == (reply.Go? || Fits(old(channel.peer), reply.line + "\n"))
        && channel.outgoing == old(channel.outgoing)
           + (if reply.Go? then "" else Part(old(channel.peer), reply.line + "\n"))
        && channel.peer == if reply.Go? then old(channel.peer) else Less(old(channel.peer), reply.line + "\n")
    {
      hide Obey, Words;
      var words := SplitWords(command);
      var reply := Dispatch(words);
      served := served + 1;
      resume := reply.Go?;
      alive := true;
      if reply.Say? {
        alive := channel.Send(reply.line);
      }
    }

    /** The branches of handle_command on the split words. */
    method Dispatch(words: seq<string>) returns (reply: Reply)
      modifies this`currentItem, this`breakpointLines, this`breakpointIds
      modifies this`mode, this`steppingIndex, this`steppingDepth
      ensures (Abs(), reply) == Obey(oclgrind, old(Abs()), words)
    {
      if words == [] {
        return Err("empty command");
      } else if words[0] == "continue" || words[0] == "step" {
        reply := HandleExecution(words);
      } else if words[0] == "break" || words[0] == "delete" {
        reply := HandleBreakpoint(words);
      } else {
        reply := HandleQuery(words);
      }
    }

    method HandleExecution(words: seq<string>) returns (reply: Reply)
      requires words != []
      modifies this`mode, this`steppingIndex, this`steppingDepth
      ensures (Abs(), reply) == Execute(old(Abs()), words)
    {
      if words[0] == "continue" {
        mode := Running;
        return Go;
      }
      if invocation.None? || currentItem.None? {
        return Err("no work-item is halted");
      }
      var over := |words| > 1 && words[1] == "over";
      mode := if over then StepOver else StepIn;
      steppingIndex, steppingDepth := currentItem.value.index, currentItem.value.depth;
      return Go;
    }

    method HandleBreakpoint(words: seq<string>) returns (reply: Reply)
      requires words != []
      modifies this`breakpointLines, this`breakpointIds
      ensures (Abs(), reply) == EditBreakpoints(old(Abs()), words)
    {
      hide StrToUl, Erased, Uses;
      if words[0] == "break" {
        if |words| < 3 {
          return Err("break needs an id and a line");
        }
        var id, line := StrToUl(words[1]), StrToUl(words[2]);
        if line == 0 {
          return Err("invalid line");
        }
        breakpointLines := breakpointLines + {line};
        breakpointIds := breakpointIds[id := line];
        return Say("ok");
      }
      if |words| < 2 {
        return Err("delete needs an id");
      }
      var id := StrToUl(words[1]);
      if id !in breakpointIds {
        return Err("unknown breakpoint");
      }
      var line := breakpointIds[id];
      breakpointIds := Erased(breakpointIds, id);
      var stillUsed := StillUsed(line);
      if !stillUsed {
        breakpointLines := breakpointLines - {line};
      }
      return Say("ok");
    }

    /** The loop over the remaining ids, in whatever order the table has. */
    method StillUsed(line: u64) returns (used: bool)
      ensures used <==> Uses(breakpointIds, line)
    {
      used := false;
      var todo := breakpointIds.Keys;
      while todo != {}
        invariant todo <= breakpointIds.Keys
        invariant used <==> exists k :: k in breakpointIds && k !in todo && breakpointIds[k] == line
        decreases |todo|
      {
        var id :| id in todo;
        used := used || breakpointIds[id] == line;
        todo := todo - {id};
      }
    }

    method HandleQuery(words: seq<string>) returns (reply: Reply)
      requires words != []
      modifies this`currentItem
      ensures (Abs(), reply) == Query(oclgrind, old(Abs()), words)
    {
      hide StrToUl, Hex, Memory, Shown, Tail, Switched;
      if words[0] == "select" && |words| > 3 {
        var target := Size3(StrToUl(words[1]), StrToUl(words[2]), StrToUl(words[3]));
        var switched := SelectWorkItem(target);
        if !switched {
          return Err("work-item state unavailable");
        }
        var item := currentItem.value;
        return Say("ok" + Tail(Coords(item.local) + Coords(item.group)));
      }
      if words[0] == "print" && |words| > 1 {
        if invocation.None? || currentItem.None? {
          return Err("no work-item is halted");
        }
        var value := ReadExpression(currentItem.value, words[1]);
        return if value == "" then Err("not in scope") else Say("value " + value);
      }
      if words[0] == "read" && |words| > 2 {
        var address, length := StrToUl(words[1]), StrToUl(words[2]);
        var hex := ToHex(Memory(oclgrind, served, address, length));
        return if hex == "" && length > 0 then Err("invalid address") else Say("data " + hex);
      }
      return Err("unsupported command");
    }

    method SelectWorkItem(target: Size3) returns (ok: bool)
      modifies this`currentItem
      ensures ok <==> Switched(oclgrind, old(Abs()), target).Some?
      ensures currentItem == if ok then Switched(oclgrind, old(Abs()), target) else old(currentItem)
    {
      if invocation.None? {
        return false;
      }
      var size := invocation.value;
      if target.x >= size.x || target.y >= size.y || target.z >= size.z {
        return false;
      }
      var peer := oclgrind.switchTo(served, target);
      if peer.None? {
        return false;
      }
      currentItem := Some(peer.value.(global := target));
      return true;
    }

    /** The loop that keeps a captured value on one line. */
    method ReadExpression(item: WorkItem, expr: string) returns (value: string)
      ensures value == Shown(oclgrind.show(served, item, expr))
    {
      var captured := oclgrind.show(served, item, expr);
      if captured == "" || captured == "not found" {
        return "";
      }
      value := captured;
      for i := 0 to |captured|
        invariant |value| == |captured|
        invariant forall j | 0 <= j < i :: value[j] == Flat(captured[j])
        invariant forall j | i <= j < |captured| :: value[j] == captured[j]
      {
        if value[i] == '\n' || value[i] == '\r' {
          value := value[i := ' '];
        }
      }
    }
  }
}
