/** The debugger side of the Oclgrind protocol: what every operation sends, how
    it reads the answer, and the backend class itself. */
module Backend {
  import opened Types
  import opened Text
  import opened Channel
  import opened Plugin

  /** A work-item as the debugger reports it. */
  datatype OCLWorkItem = OCLWorkItem(global: Size3, local: Size3, group: Size3, line: u32)

  /** `attached` tells whether the execution context has its channel yet;
      `notified` lists the work-items passed to the stop callback so far. */
  datatype Debugger = Debugger(
    open: bool,
    halted: bool,
    attached: bool,
    stopLine: u32,
    stopped: Option<OCLWorkItem>,
    breakpoints: map<u64, u64>,
    nextId: u64,
    notified: seq<OCLWorkItem>)

  const Unlaunched := Debugger(false, false, false, 0, None, map[], 1, [])

  datatype Op =
    | Launch
    | SetBreakpoint(line: u32)
    | RemoveBreakpoint(id: u64)
    | Resume
    | Step(over: bool, target: Size3)
    | Select(target: Size3)
    | Read(address: u64, length: u64)
    | Evaluate(name: string)
    | Detach

  datatype Result =
    | Nothing
    | Launched(ok: bool)
    | Id(id: u64)
    | Picked(item: Option<OCLWorkItem>)
    | Bytes(bytes: Option<seq<u8>>)
    | Value(text: Option<string>)

  /** What the debugger does once the awaited line has come. */
  datatype Cont =
    | Greeted
    | Registered(from: nat)
    | Added(id: u64)
    | Removed
    | Selected(target: Size3, step: Option<bool>)
    | Stopped
    | Loaded(length: u64)
    | Printed

  /** Either the operation is over, or a command goes out and its answer is
      awaited. */
  datatype Act = Done(b: Debugger, result: Result) | Ask(b: Debugger, command: string, cont: Cont)

  function BreakCommand(id: u64, line: u64): string { "break" + Tail([id, line]) }
  function DeleteCommand(id: u64): string { "delete" + Tail([id]) }
  function SelectCommand(target: Size3): string { "select" + Tail(Coords(target)) }
  function ReadCommand(address: u64, length: u64): string { "read" + Tail([address, length]) }
  function PrintCommand(name: string): string { "print " + name }
  function StepCommand(over: bool): string { if over then "step over" else "step in" }

  predicate IsOk(got: Option<string>) {
    got.Some? && FirstWord(got.value) == "ok"
  }

  function Fields(line: string): seq<u64> { Numbers(AfterWords(line, 1)) }

  // ---- Operations: the command sent ----

  function ResumeWith(b: Debugger, command: string, otherwise: Result): Act {
    if !b.halted then Done(b, otherwise)
    else if !b.open then Done(b.(halted := false), Nothing)
    else Ask(b.(halted := false), command, Stopped)
  }

  function SelectThen(b: Debugger, target: Size3, step: Option<bool>, otherwise: Result): Act {
    if !b.halted then Done(b, otherwise)
    else if !b.open then Done(b, otherwise)
    else Ask(b, SelectCommand(target), Selected(target, step))
  }

  /** The next id after 64 bits of them is 0 again. */
  function Successor(id: u64): u64 { (id + 1) % U64 }

  function Forget(b: Debugger, id: u64): Debugger {
    b.(breakpoints := Erased(b.breakpoints, id))
  }

  function Begin(b: Debugger, op: Op): Act {
    match op
    case Launch => Done(b, Launched(false))
    case SetBreakpoint(line) =>
      if line == 0 then Done(b, Id(0))
      else
        var id := b.nextId;
        var b' := b.(breakpoints := b.breakpoints[id := line], nextId := Successor(id));
        if !b.halted then Done(b', Id(id))
        else if !b.open then Done(Forget(b', id), Id(0))
        else Ask(b', BreakCommand(id, line), Added(id))
    case RemoveBreakpoint(id) =>
      if id !in b.breakpoints then Done(b, Nothing)
      else if !b.halted || !b.open then Done(Forget(b, id), Nothing)
      else Ask(Forget(b, id), DeleteCommand(id), Removed)
    case Resume => ResumeWith(b, "continue", Nothing)
    case Step(over, target) => SelectThen(b, target, Some(over), Nothing)
    case Select(target) => SelectThen(b, target, None, Picked(None))
    case Read(address, length) =>
      if !b.halted || length == 0 || !b.open then Done(b, Bytes(Some([])))
      else Ask(b, ReadCommand(address, length), Loaded(length))
    case Evaluate(name) =>
      if !b.attached || name == "" || !b.open then Done(b, Value(None))
      else Ask(b, PrintCommand(name), Printed)
    case Detach => Done(b.(open := false, halted := false), Nothing)
  }

  // ---- Operations: what the answer leads to ----

  /** The registration loop visits the breakpoints in ascending id order: the
      least id not below `from`. */
  function NextId(breakpoints: map<u64, u64>, from: nat): (id: Option<u64>)
    ensures id.Some? ==> from <= id.value && id.value in breakpoints
    ensures id.Some? ==> forall k | from <= k < id.value :: k !in breakpoints
    ensures id.None? ==> forall k | from <= k < U64 :: k !in breakpoints
    decreases U64 - from
  {
    if from >= U64 then None
    else if from in breakpoints then Some(from)
    else NextId(breakpoints, from + 1)
  }

  function Register(b: Debugger, from: nat): Act {
    match NextId(b.breakpoints, from)
    case None => Done(b, Launched(true))
    case Some(id) => Ask(b, BreakCommand(id, b.breakpoints[id]), Registered(id + 1))
  }

  function Low32(n: u64): u32 { n % 0x1_0000_0000 }

  function StoppedAt(b: Debugger, line: string): Debugger {
    var f := Fields(line);
    if FirstWord(line) != "stopped" || |f| < 10 then b
    else
      var item := OCLWorkItem(Size3(f[1], f[2], f[3]), Size3(f[4], f[5], f[6]), Size3(f[7], f[8], f[9]),
                              Low32(f[0]));
      b.(stopLine := item.line, stopped := Some(item), attached := true, halted := true,
         notified := b.notified + [item])
  }

  function SelectedFrom(b: Debugger, target: Size3, got: Option<string>): Option<OCLWorkItem> {
    if !IsOk(got) then None
    else
      var f := Fields(got.value);
      if |f| < 6 then None
      else Some(OCLWorkItem(target, Size3(f[0], f[1], f[2]), Size3(f[3], f[4], f[5]), b.stopLine))
  }

  /** The bytes in a `data` reply; None where the original throws. */
  function LoadedFrom(got: Option<string>, length: u64): Option<seq<u8>> {
    if got.None? || FirstWord(got.value) != "data" then Some([])
    else
      var hex := FirstWord(AfterWord(got.value));
      Unhex(hex, Min(|hex| / 2, length))
  }

  function PrintedFrom(got: Option<string>): Option<string> {
    if got.None? || FirstWord(got.value) != "value" || |got.value| < 6 then None
    else Some(got.value[6..])
  }

  function Deliver(b: Debugger, cont: Cont, got: Option<string>): (act: Act)
    ensures Rank(act) < RankOf(cont)
  {
    match cont
    case Greeted =>
      if got.None? || FirstWord(got.value) != "ready" then
        Done(b.(open := false, halted := false), Launched(false))
      else Register(b.(halted := true), 0)
    case Registered(from) => Register(b, from)
    case Added(id) => if IsOk(got) then Done(b, Id(id)) else Done(Forget(b, id), Id(0))
    case Removed => Done(b, Nothing)
    case Selected(target, step) =>
      var item := SelectedFrom(b, target, got);
      if item.None? then Done(b, if step.Some? then Nothing else Picked(None))
      else
        var b' := b.(stopped := item, attached := true);
        if step.Some? then ResumeWith(b', StepCommand(step.value), Nothing) else Done(b', Picked(item))
    case Stopped =>
      if got.None? then Done(b.(open := false), Nothing)
      else Done(StoppedAt(b, got.value), Nothing)
    case Loaded(length) => Done(b, Bytes(LoadedFrom(got, length)))
    case Printed => Done(b, Value(PrintedFrom(got)))
  }

  /** A resume whose command cannot be sent returns without closing. */
  function Undelivered(b: Debugger, cont: Cont): (act: Act)
    ensures Rank(act) < RankOf(cont)
  {
    if cont.Stopped? then Done(b, Nothing) else Deliver(b, cont, None)
  }

  /** How many exchanges an operation may still need. */
  function Rank(act: Act): nat {
    if act.Done? then 0 else RankOf(act.cont)
  }

  function RankOf(cont: Cont): nat {
    match cont
    case Greeted => 3 + U64
    case Registered(from) => 2 + if from < U64 then U64 - from else 0
    case Selected(_, Some(_)) => 2
    case _ => 1
  }

  /** A whole operation against the bytes the peer sends: the debugger's final
      state, the result, the bytes left, the bytes sent and what the peer still
      takes. */
  datatype Played = Played(b: Debugger, result: Result, rest: string, said: string, peer: Peer)

  function Play(act: Act, stream: string, peer: Peer): Played
    decreases Rank(act)
  {
    match act
    case Done(b, result) => Played(b, result, stream, "", peer)
    case Ask(b, command, cont) =>
      var bytes := command + "\n";
      After(Part(peer, bytes),
            if Fits(peer, bytes) then Play(Deliver(b, cont, NextLine(stream)), AfterLine(stream), Less(peer, bytes))
            else Play(Undelivered(b, cont), stream, Less(peer, bytes)))
  }

  function After(said: string, p: Played): Played {
    p.(said := said + p.said)
  }

  lemma AfterTwice(x: string, y: string, p: Played)
    ensures After(x, After(y, p)) == After(x + y, p)
  {
    assert x + (y + p.said) == (x + y) + p.said;
  }

  lemma AfterNothing(p: Played)
    ensures After("", p) == p
  {
    assert "" + p.said == p.said;
  }

  lemma AfterAll(said: string, b: Debugger, stream: string, peer: Peer)
    ensures After(said, Played(b, Launched(true), stream, "", peer)) == Played(b, Launched(true), stream, said, peer)
  {
    assert said + "" == said;
  }

  /** One turn of the registration loop. */
  lemma PlayRegister(b: Debugger, from: nat, stream: string, peer: Peer)
    ensures var next := NextId(b.breakpoints, from);
      Play(Register(b, from), stream, peer) ==
        if next.None? then Played(b, Launched(true), stream, "", peer)
        else
          var bytes := BreakCommand(next.value, b.breakpoints[next.value]) + "\n";
          After(Part(peer, bytes),
                Play(Register(b, next.value + 1), if Fits(peer, bytes) then AfterLine(stream) else stream,
                     Less(peer, bytes)))
  {
  }

  lemma RegisterTurn(b: Debugger, from: nat, stream: string, peer: Peer, said: string)
    requires NextId(b.breakpoints, from).Some?
    ensures var id := NextId(b.breakpoints, from).value; var bytes := BreakCommand(id, b.breakpoints[id]) + "\n";
      After(said, Play(Register(b, from), stream, peer)) ==
        After(said + Part(peer, bytes),
              Play(Register(b, id + 1), if Fits(peer, bytes) then AfterLine(stream) else stream, Less(peer, bytes)))
  {
    hide Play, Register, After, BreakCommand, AfterLine, NextId, Part, Fits, Less;
    PlayRegister(b, from, stream, peer);
    var id := NextId(b.breakpoints, from).value;
    var bytes := BreakCommand(id, b.breakpoints[id]) + "\n";
    AfterTwice(said, Part(peer, bytes),
               Play(Register(b, id as int + 1), if Fits(peer, bytes) then AfterLine(stream) else stream, Less(peer, bytes)));
  }

  /** A resume, spelt out. */
  lemma PlayResume(b: Debugger, command: string, stream: string, peer: Peer)
    requires b.halted ==> b.open
    ensures var running, bytes := b.(halted := false), command + "\n";
      Play(ResumeWith(b, command, Nothing), stream, peer) ==
        if !b.halted then Played(b, Nothing, stream, "", peer)
        else if !Fits(peer, bytes) then Played(running, Nothing, stream, Part(peer, bytes), Less(peer, bytes))
        else
          match NextLine(stream)
          case None => Played(running.(open := false), Nothing, AfterLine(stream), bytes, Less(peer, bytes))
          case Some(line) => Played(StoppedAt(running, line), Nothing, AfterLine(stream), bytes, Less(peer, bytes))
  {
    hide NextLine, AfterLine, StoppedAt, Less;
    var part := Part(peer, command + "\n");
    assert part + "" == part;
  }

  /** A step is a select and then, if that succeeds, a resume. */
  lemma PlayStep(b: Debugger, over: bool, target: Size3, stream: string, peer: Peer)
    requires b.halted ==> b.open
    ensures var selected := Play(Begin(b, Select(target)), stream, peer);
      && selected.result.Picked?
      && Play(Begin(b, Step(over, target)), stream, peer) ==
           if selected.result.item.None? then selected.(result := Nothing)
           else After(selected.said,
                      Play(ResumeWith(selected.b, StepCommand(over), Nothing), selected.rest, selected.peer))
  {
    hide NextLine, AfterLine, SelectCommand, StepCommand, SelectedFrom, ResumeWith, Less;
    var part := Part(peer, SelectCommand(target) + "\n");
    assert part + "" == part;
  }

  lemma PickedIsOpen(b: Debugger, target: Size3, stream: string, peer: Peer)
    requires b.halted ==> b.open
    ensures var selected := Play(Begin(b, Select(target)), stream, peer);
      && selected.b.halted == b.halted && selected.b.open == b.open
      && (selected.result.Picked? && selected.result.item.Some? ==> b.halted)
  {
    hide NextLine, AfterLine, SelectCommand, SelectedFrom;
  }

  // ---- The backend class ----

  /** The channel is closed until launch connects it; after that the backend
      talks to the plugin through it alone. */
  class OclgrindBackend {
    const channel: LineChannel
    var isHalted: bool
    var attached: bool
    var stopLine: u32
    var stopped: Option<OCLWorkItem>
    var breakpoints: map<u64, u64>
    var nextBreakpointId: u64
    var notified: seq<OCLWorkItem>

    ghost function Abs(): Debugger
      reads this, channel
    {
      Debugger(channel.open, isHalted, attached, stopLine, stopped, breakpoints, nextBreakpointId, notified)
    }

    /** This operation went as Play says, given what was on the wire. */
    ghost predicate Went(played: Played, said: string, result: Result)
      reads this, channel
    {
      && Abs() == played.b && result == played.result
      && channel.outgoing == said + played.said && channel.peer == played.peer
      && (channel.open ==> channel.Stream() == played.rest)
    }

    constructor (channel: LineChannel)
      requires !channel.open
      ensures this.channel == channel && Abs() == Unlaunched
    {
      this.channel := channel;
      isHalted, attached, stopLine, stopped := false, false, 0, None;
      breakpoints, nextBreakpointId, notified := map[], 1, [];
    }

    method Request(command: string) returns (got: Option<string>)
      requires channel.open
      modifies channel`pending, channel`incoming, channel`outgoing, channel`peer
      ensures var bytes := command + "\n"; var fits := Fits(old(channel.peer), bytes);
        && got == (if fits then NextLine(old(channel.Stream())) else None)
        && channel.outgoing == old(channel.outgoing) + Part(old(channel.peer), bytes)
        && channel.peer == Less(old(channel.peer), bytes)
        && channel.Stream() == if fits then AfterLine(old(channel.Stream())) else old(channel.Stream())
    {
      hide NextLine, AfterLine;
      var ok := channel.Send(command);
      if ok {
        got := channel.Recv();
      } else {
        got := None;
      }
    }

    /** From the moment the plugin has connected: handshake, then every
        breakpoint set so far is registered. */
    method LaunchSession() returns (ok: bool)
      requires !channel.open && channel.pending == "" && !isHalted
      modifies this, channel
      ensures Went(Play(Deliver(old(Abs()).(open := true), Greeted, NextLine(old(channel.Stream()))),
                        AfterLine(old(channel.Stream())), old(channel.peer)),
                   old(channel.outgoing), Launched(ok))
    {
      hide NextLine, AfterLine, NextId, Register, FirstWord, StoppedAt, SelectedFrom, LoadedFrom, PrintedFrom;
      channel.open := true;
      var event := channel.Recv();
      if event.None? || FirstWord(event.value) != "ready" {
        DetachSession();
        return false;
      }
      isHalted := true;
      RegisterAll();
      return true;
    }

    /** The registration loop: one request per breakpoint, replies ignored. */
    method RegisterAll()
      requires channel.open
      modifies channel`pending, channel`incoming, channel`outgoing, channel`peer
      ensures Went(Play(Register(old(Abs()), 0), old(channel.Stream()), old(channel.peer)), old(channel.outgoing), Launched(true))
    {
      hide NextLine, AfterLine, NextId, BreakCommand, Register, Play, After, Part, Fits, Less;
      ghost var b, before, said := Abs(), channel.outgoing, "";
      ghost var whole := Play(Register(b, 0), channel.Stream(), channel.peer);
      AfterNothing(whole);
      var from: nat := 0;
      var next := NextId(breakpoints, from);
      while next.Some?
        invariant next == NextId(breakpoints, from)
        invariant channel.open && b == Abs()
        invariant channel.outgoing == before + said
        invariant whole == After(said, Play(Register(b, from), channel.Stream(), channel.peer))
        decreases U64 - from
      {
        RegisterTurn(b, from, channel.Stream(), channel.peer, said);
        var command := BreakCommand(next.value, breakpoints[next.value]);
        ghost var part := Part(channel.peer, command + "\n");
        var _ := Request(command);
        Regroup(before, said, part);
        said := said + part;
        from := next.value as int + 1;
        next := NextId(breakpoints, from);
      }
      PlayRegister(b, from, channel.Stream(), channel.peer);
      AfterAll(said, b, channel.Stream(), channel.peer);
    }

    method DetachSession()
      modifies this`isHalted, channel`open, channel`pending
      ensures Abs() == Begin(old(Abs()), Detach).b
    {
      channel.Close();
      isHalted := false;
    }

    method SetLine(line: u32) returns (id: u64)
      requires isHalted ==> channel.open
      modifies this`breakpoints, this`nextBreakpointId
      modifies channel`pending, channel`incoming, channel`outgoing, channel`peer
      ensures Went(Play(Begin(old(Abs()), SetBreakpoint(line)), old(channel.Stream()), old(channel.peer)),
                   old(channel.outgoing), Id(id))
    {
      hide NextLine, AfterLine, FirstWord, BreakCommand;
      if line == 0 {
        return 0;
      }
      id := nextBreakpointId;
      nextBreakpointId := Successor(id);
      breakpoints := breakpoints[id := line];
      if isHalted {
        var reply := Request(BreakCommand(id, line));
        if reply.None? || FirstWord(reply.value) != "ok" {
          breakpoints := Erased(breakpoints, id);
          return 0;
        }
      }
    }

    method RemoveId(id: u64)
      requires isHalted ==> channel.open
      modifies this`breakpoints, channel`pending, channel`incoming, channel`outgoing, channel`peer
      ensures Went(Play(Begin(old(Abs()), RemoveBreakpoint(id)), old(channel.Stream()), old(channel.peer)),
                   old(channel.outgoing), Nothing)
    {
      hide NextLine, AfterLine, DeleteCommand;
      if id !in breakpoints {
        return;
      }
      breakpoints := Erased(breakpoints, id);
      if isHalted {
        var _ := Request(DeleteCommand(id));
      }
    }

    method Continue()
      requires isHalted ==> channel.open
      modifies this, channel
      ensures Went(Play(Begin(old(Abs()), Resume), old(channel.Stream()), old(channel.peer)),
                   old(channel.outgoing), Nothing)
    {
      ResumeSession("continue");
    }

    method StepOne(over: bool, target: Size3)
      requires isHalted ==> channel.open
      modifies this, channel
      ensures Went(Play(Begin(old(Abs()), Step(over, target)), old(channel.Stream()), old(channel.peer)),
                   old(channel.outgoing), Nothing)
    {
      hide NextLine, AfterLine, StepCommand, Play, Begin, ResumeWith;
      PlayStep(Abs(), over, target, channel.Stream(), channel.peer);
      ghost var before := channel.outgoing;
      ghost var picked := Play(Begin(Abs(), Select(target)), channel.Stream(), channel.peer);
      PickedIsOpen(Abs(), target, channel.Stream(), channel.peer);
      var selected := SelectWorkItem(target);
      if selected.Some? {
        ghost var resumed := Play(ResumeWith(picked.b, StepCommand(over), Nothing), picked.rest, picked.peer);
        Regroup(before, picked.said, resumed.said);
        ResumeSession(StepCommand(over));
      }
    }

    /** resume_with: after the command, the next line is a stop, or the stream
        has ended. */
    method ResumeSession(command: string)
      requires isHalted ==> channel.open
      modifies this, channel
      ensures Went(Play(ResumeWith(old(Abs()), command, Nothing), old(channel.Stream()), old(channel.peer)),
                   old(channel.outgoing), Nothing)
    {
      hide NextLine, AfterLine, FirstWord, Numbers, AfterWords, Play, ResumeWith;
      PlayResume(Abs(), command, channel.Stream(), channel.peer);
      if !isHalted {
        return;
      }
      isHalted := false;
      var sent := channel.Send(command);
      if !sent {
        return;
      }
      var event := channel.Recv();
      if event.None? {
        channel.Close();
        return;
      }
      if FirstWord(event.value) != "stopped" {
        return;
      }
      var f := ParseNumbers(event.value, 1);
      if |f| < 10 {
        return;
      }
      stopLine := Low32(f[0]);
      attached := true;
      var item := OCLWorkItem(Size3(f[1], f[2], f[3]), Size3(f[4], f[5], f[6]), Size3(f[7], f[8], f[9]), stopLine);
      stopped := Some(item);
      isHalted := true;
      notified := notified + [item];
    }

    method SelectWorkItem(target: Size3) returns (out: Option<OCLWorkItem>)
      requires isHalted ==> channel.open
      modifies this`stopped, this`attached, channel`pending, channel`incoming, channel`outgoing, channel`peer
      ensures Went(Play(Begin(old(Abs()), Select(target)), old(channel.Stream()), old(channel.peer)),
                   old(channel.outgoing), Picked(out))
    {
      hide NextLine, AfterLine, FirstWord, Numbers, AfterWords, SelectCommand, Register, StoppedAt, LoadedFrom, PrintedFrom;
      if !isHalted {
        return None;
      }
      var reply := Request(SelectCommand(target));
      if reply.None? || FirstWord(reply.value) != "ok" {
        return None;
      }
      var f := ParseNumbers(reply.value, 1);
      if |f| < 6 {
        return None;
      }
      out := Some(OCLWorkItem(target, Size3(f[0], f[1], f[2]), Size3(f[3], f[4], f[5]), stopLine));
      attached := true;
      stopped := out;
    }

    method ReadGlobalMemory(address: u64, length: u64) returns (bytes: Option<seq<u8>>)
      requires isHalted ==> channel.open
      modifies channel`pending, channel`incoming, channel`outgoing, channel`peer
      ensures Went(Play(Begin(old(Abs()), Read(address, length)), old(channel.Stream()), old(channel.peer)),
                   old(channel.outgoing), Bytes(bytes))
    {
      hide NextLine, AfterLine, FirstWord, AfterWord, ReadCommand, Unhex;
      if !isHalted || length == 0 {
        return Some([]);
      }
      var reply := Request(ReadCommand(address, length));
      if reply.None? || FirstWord(reply.value) != "data" {
        return Some([]);
      }
      bytes := DecodeHex(FirstWord(AfterWord(reply.value)), length);
    }

    method EvaluateName(name: string) returns (text: Option<string>)
      modifies channel`pending, channel`incoming, channel`outgoing, channel`peer
      ensures Went(Play(Begin(old(Abs()), Evaluate(name)), old(channel.Stream()), old(channel.peer)),
                   old(channel.outgoing), Value(text))
    {
      hide NextLine, AfterLine, FirstWord, PrintCommand;
      if !attached || name == "" || !channel.open {
        return None;
      }
      var reply := Request(PrintCommand(name));
      if reply.None? || FirstWord(reply.value) != "value" || |reply.value| < 6 {
        return None;
      }
      return Some(reply.value[6..]);
    }
  }
}
