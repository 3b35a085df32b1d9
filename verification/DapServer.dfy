/** The DAP server: sequence numbers, one response a request, the thread table
    made at each stop, and the frame and variable references that lead back to
    it. JSON text is uninterpreted: a parser maps a payload to a request. */
module DapServer {
  import opened Types
  import Backend
  import opened DapFraming

  type OCLWorkItem = Backend.OCLWorkItem

  /** static_cast<int>. */
  function Int32(n: int): int { (n + 0x8000_0000) % 0x1_0000_0000 - 0x8000_0000 }

  /** The arguments the modelled handlers look at. */
  datatype Args = Args(
    threadId: Option<int>, frameId: Option<int>, variablesReference: Option<int>, gx: int, gy: int, gz: int)

  const NoArgs := Args(None, None, None, 0, 0, 0)

  datatype Incoming = Ignored | Request(seq_: Option<int>, command: string, args: Args)

  /** What the backend reports at a stop. */
  datatype Stop = Stop(stopped: OCLWorkItem, visible: seq<OCLWorkItem>)

  /** What the backend does while one message is handled: the stops it reports if
      it is resumed or stepped, and the work-item a selection finds. */
  datatype Reaction = Reaction(stops: seq<Stop>, picked: Option<OCLWorkItem>)

  /** What the handlers ask of the backend. */
  datatype Call = Resume | Step(over: bool, item: OCLWorkItem) | Select(target: Size3) | Detach

  datatype Variable = Variable(name: string, space: string)

  /** What resolving variables yields, given the work-item the backend was last
      stopped at or made to select, and the one they are asked for. Which of the
      two counts is up to the backend. */
  type Resolver = (OCLWorkItem, OCLWorkItem) -> seq<Variable>

  datatype Body =
    | Opaque
    | ThreadIds(ids: set<int>)
    | StackFrame(id: int, item: OCLWorkItem, line: u32)
    | Scopes(locals: int, globals: int)
    | Variables(vars: seq<Variable>)
    | StoppedBody(threadId: int)

  datatype Message =
    | Response(number: int, request: int, command: string, body: Body)
    | Event(number: int, name: string, body: Body)

  datatype Server = Server(
    nextSeq: int,
    running: bool,
    threads: map<int, OCLWorkItem>,
    stoppedThread: int,
    selected: Option<OCLWorkItem>,
    current: Option<Stop>,
    currentLine: u32,
    calls: seq<Call>,
    sent: seq<Message>)

  const Idle := Server(1, true, map[], 1, None, None, 0, [], [])

  // ---- Sending ----

  function Respond(s: Server, r: Incoming, body: Body): Server
    requires r.Request?
  {
    s.(nextSeq := Int32(s.nextSeq + 1), sent := s.sent + [Response(s.nextSeq, SeqOf(r), r.command, body)])
  }

  function Announce(s: Server, name: string, body: Body): Server {
    s.(nextSeq := Int32(s.nextSeq + 1), sent := s.sent + [Event(s.nextSeq, name, body)])
  }

  function SeqOf(r: Incoming): int
    requires r.Request?
  {
    Int32(if r.seq_.Some? then r.seq_.value else 0)
  }

  // ---- Stops ----

  /** The stopped item is thread 1, the visible ones are numbered on. */
  function Table(stop: Stop): map<int, OCLWorkItem> { TableUpTo(stop, |stop.visible|) }

  function TableUpTo(stop: Stop, n: nat): map<int, OCLWorkItem>
    requires n <= |stop.visible|
  {
    if n == 0 then map[1 := stop.stopped] else TableUpTo(stop, n - 1)[n + 1 := stop.visible[n - 1]]
  }

  /** A stop without a line leaves the current line as it was. */
  function LineAfter(line: u32, stop: Stop): u32 { if stop.stopped.line > 0 then stop.stopped.line else line }

  function Stopped(s: Server, stop: Stop): Server {
    Announce(s.(threads := Table(stop), stoppedThread := 1, selected := None, current := Some(stop),
                currentLine := LineAfter(s.currentLine, stop)),
             "stopped", StoppedBody(1))
  }

  function StoppedAll(s: Server, stops: seq<Stop>): Server {
    if stops == [] then s else Stopped(StoppedAll(s, stops[..|stops| - 1]), stops[|stops| - 1])
  }

  // ---- References ----

  function ThreadOf(s: Server, args: Args): int {
    if args.threadId.Some? then Int32(args.threadId.value) else s.stoppedThread
  }

  const NoItem := Backend.OCLWorkItem(Size3(0, 0, 0), Size3(0, 0, 0), Size3(0, 0, 0), 0)

  function CurrentItem(s: Server): OCLWorkItem {
    if s.current.Some? then s.current.value.stopped else NoItem
  }

  function ItemOf(s: Server, thread: int): OCLWorkItem {
    if thread in s.threads then s.threads[thread] else CurrentItem(s)
  }

  function FrameId(thread: int): int { Int32(thread * 10 + 1) }

  function LocalsRef(frame: int): int { frame * 100 }
  function GlobalsRef(frame: int): int { frame * 100 + 1 }

  predicate IsGlobalsRef(ref: int)
    requires ref > 0
  {
    ref % 100 == 1
  }

  function RefThread(s: Server, ref: int): int
    requires ref > 0
  {
    var base := if IsGlobalsRef(ref) then ref - 1 else ref;
    var thread := Int32((base / 100) / 10);
    if thread == 0 then s.stoppedThread else thread
  }

  /** resolve_target_wi. */
  function TargetOf(s: Server, thread: int): OCLWorkItem {
    if thread in s.threads then s.threads[thread]
    else if s.selected.Some? then s.selected.value
    else CurrentItem(s)
  }

  /** The work-item the backend was last stopped at or made to select. */
  function Attended(s: Server): OCLWorkItem {
    if s.selected.Some? then s.selected.value else CurrentItem(s)
  }

  predicate IsGlobal(v: Variable) { v.space == "__global" || v.space == "__constant" }

  function Shown(vars: seq<Variable>, globals: bool): seq<Variable> {
    if vars == [] then []
    else
      var n := |vars| - 1;
      Shown(vars[..n], globals) + if IsGlobal(vars[n]) == globals then [vars[n]] else []
  }

  function VariablesBody(s: Server, resolve: Resolver, args: Args): Body {
    var ref := if args.variablesReference.Some? then args.variablesReference.value else 0;
    if ref <= 0 then Variables([])
    else Variables(Shown(resolve(Attended(s), TargetOf(s, RefThread(s, ref))), IsGlobalsRef(ref)))
  }

  /** The item's own line, else the current one, else 1. */
  function FrameLine(item: OCLWorkItem, currentLine: u32): u32 {
    if item.line > 0 then item.line else if currentLine > 0 then currentLine else 1
  }

  function FrameBody(s: Server, args: Args): Body {
    var thread := ThreadOf(s, args);
    var item := ItemOf(s, thread);
    StackFrame(FrameId(thread), item, FrameLine(item, s.currentLine))
  }

  function ScopesBody(args: Args): Body {
    var frame := if args.frameId.Some? then args.frameId.value else 1;
    Scopes(LocalsRef(frame), GlobalsRef(frame))
  }

  // ---- Handling one message ----

  predicate Steps(command: string) { command == "next" || command == "stepIn" }

  predicate Runs(command: string) {
    command == "configurationDone" || command == "continue" || Steps(command)
  }

  function BodyOf(s: Server, resolve: Resolver, r: Incoming): Body
    requires r.Request?
  {
    if r.command == "threads" then ThreadIds(s.threads.Keys)
    else if r.command == "stackTrace" then FrameBody(s, r.args)
    else if r.command == "scopes" then ScopesBody(r.args)
    else if r.command == "variables" then VariablesBody(s, resolve, r.args)
    else Opaque
  }

  /** What a request asks of the backend: a step goes to the thread's item. */
  function CallsOf(s: Server, r: Incoming): seq<Call>
    requires r.Request?
  {
    if Steps(r.command) then [Step(r.command == "next", ItemOf(s, ThreadOf(s, r.args)))]
    else if Runs(r.command) then [Resume]
    else if r.command == "ocldbg/selectWorkItem" then
      [Select(Size3(r.args.gx % U64, r.args.gy % U64, r.args.gz % U64))]
    else if r.command == "disconnect" then [Detach]
    else []
  }

  function Asking(s: Server, r: Incoming): Server
    requires r.Request?
  {
    s.(calls := s.calls + CallsOf(s, r))
  }

  function Handled(s: Server, resolve: Resolver, r: Incoming, reaction: Reaction): Server {
    if r.Ignored? then s
    else if r.command == "ocldbg/selectWorkItem" && reaction.picked.Some? then
      Respond(Asking(s, r).(selected := reaction.picked), r, Opaque)
    else
      var t := Respond(Asking(s, r), r, BodyOf(s, resolve, r));
      if r.command == "initialize" then Announce(t, "initialized", Opaque)
      else if Runs(r.command) then StoppedAll(t, reaction.stops)
      else if r.command == "disconnect" then t.(running := false)
      else t
  }

  /** A whole session: the payloads handled and what the backend did during each. */
  function HandledAll(s: Server, parse: string -> Incoming, resolve: Resolver,
                      payloads: seq<string>, react: nat -> Reaction): Server {
    if payloads == [] then s
    else
      var n := |payloads| - 1;
      Handled(HandledAll(s, parse, resolve, payloads[..n], react), resolve, parse(payloads[n]), react(n))
  }

  // ---- Numbering ----

  /** Messages are numbered in wire order without gaps, in 32 bits. */
  predicate Numbered(s: Server) {
    s.nextSeq == Int32(|s.sent| + 1) && forall i | 0 <= i < |s.sent| :: s.sent[i].number == Int32(i + 1)
  }

  predicate CountsUp(sent: seq<Message>) {
    forall i | 0 <= i < |sent| :: sent[i].number == i + 1
  }

  lemma NextNumber(n: int)
    ensures Int32(Int32(n) + 1) == Int32(n + 1)
  {
  }

  /** They are 1, 2, 3, ... exactly while there are fewer than 2^31. */
  lemma CountsUpIff(s: Server)
    requires Numbered(s)
    ensures CountsUp(s.sent) <==> |s.sent| < 0x8000_0000
  {
    forall i | 0 <= i < |s.sent| ensures s.sent[i].number == i + 1 <==> i + 1 < 0x8000_0000 {
      OwnSeqIff(i + 1);
    }
    if |s.sent| >= 0x8000_0000 {
      var last := 0x7FFF_FFFF;
      assert s.sent[last].number != last + 1;
    }
  }

  /** The responses sent: which request each answers, in order. */
  function Answered(sent: seq<Message>): seq<(int, string)> {
    if sent == [] then []
    else
      var n := |sent| - 1;
      Answered(sent[..n]) + if sent[n].Response? then [(sent[n].request, sent[n].command)] else []
  }

  /** The requests among the payloads: their numbers and commands, in order. */
  function Asked(parse: string -> Incoming, payloads: seq<string>): seq<(int, string)> {
    if payloads == [] then []
    else
      var n := |payloads| - 1;
      var r := parse(payloads[n]);
      Asked(parse, payloads[..n]) + if r.Request? then [(SeqOf(r), r.command)] else []
  }

  lemma AnsweredOne(sent: seq<Message>, m: Message)
    ensures Answered(sent + [m]) == Answered(sent) + if m.Response? then [(m.request, m.command)] else []
  {
    assert (sent + [m])[..|sent|] == sent;
  }

  /** The messages sent since `before`: the response to r, and then events. */
  ghost predicate AnswersFirst(before: seq<Message>, t: Server, r: Incoming)
    requires r.Request?
  {
    && Numbered(t) && |t.sent| > |before| && t.sent[..|before|] == before
    && t.sent[|before|].Response? && t.sent[|before|].request == SeqOf(r) && t.sent[|before|].command == r.command
    && (forall i | |before| < i < |t.sent| :: t.sent[i].Event?)
    && Answered(t.sent) == Answered(before) + [(SeqOf(r), r.command)]
  }

  lemma RespondAnswers(s: Server, r: Incoming, body: Body)
    requires Numbered(s) && r.Request?
    ensures AnswersFirst(s.sent, Respond(s, r, body), r) && |Respond(s, r, body).sent| == |s.sent| + 1
  {
    hide Answered, SeqOf, Int32;
    NextNumber(|s.sent| + 1);
    AnsweredOne(s.sent, Response(s.nextSeq, SeqOf(r), r.command, body));
  }

  lemma AnnounceFollows(before: seq<Message>, t: Server, r: Incoming, name: string, body: Body)
    requires r.Request? && AnswersFirst(before, t, r)
    ensures AnswersFirst(before, Announce(t, name, body), r) && |Announce(t, name, body).sent| == |t.sent| + 1
  {
    hide Answered, SeqOf, Int32;
    NextNumber(|t.sent| + 1);
    var event := Event(t.nextSeq, name, body);
    AnsweredOne(t.sent, event);
    assert (t.sent + [event])[..|before|] == t.sent[..|before|];
  }

  lemma {:induction false} StopsFollow(before: seq<Message>, t: Server, r: Incoming, stops: seq<Stop>)
    requires r.Request? && AnswersFirst(before, t, r)
    ensures AnswersFirst(before, StoppedAll(t, stops), r) && |StoppedAll(t, stops).sent| == |t.sent| + |stops|
  {
    hide AnswersFirst, Announce, Table;
    if stops != [] {
      var n := |stops| - 1;
      StopsFollow(before, t, r, stops[..n]);
      StopFollows(before, StoppedAll(t, stops[..n]), r, stops[n]);
    }
  }

  lemma StopFollows(before: seq<Message>, t: Server, r: Incoming, stop: Stop)
    requires r.Request? && AnswersFirst(before, t, r)
    ensures AnswersFirst(before, Stopped(t, stop), r) && |Stopped(t, stop).sent| == |t.sent| + 1
  {
    hide Answered, SeqOf, Announce, Table;
    var u := t.(threads := Table(stop), stoppedThread := 1, selected := None, current := Some(stop),
                currentLine := LineAfter(t.currentLine, stop));
    AnnounceFollows(before, u, r, "stopped", StoppedBody(1));
  }

  /** What one message adds to the wire: nothing if it is not a request; otherwise
      its own response, before any event it causes, and only those events. */
  lemma OneResponseFirst(s: Server, resolve: Resolver, r: Incoming, reaction: Reaction)
    requires Numbered(s)
    ensures var t := Handled(s, resolve, r, reaction);
      && (r.Ignored? ==> t == s)
      && (r.Request? ==>
            && AnswersFirst(s.sent, t, r)
            && |t.sent| == |s.sent| + 1 + (if r.command == "initialize" then 1
                                           else if Runs(r.command) then |reaction.stops| else 0))
  {
    if r.Request? {
      hide BodyOf, CallsOf, StoppedAll, Answered, SeqOf, Respond, Announce;
      var body, asking := BodyOf(s, resolve, r), Asking(s, r);
      RespondAnswers(asking.(selected := reaction.picked), r, Opaque);
      RespondAnswers(asking, r, body);
      var t := Respond(asking, r, body);
      AnnounceFollows(s.sent, t, r, "initialized", Opaque);
      StopsFollow(s.sent, t, r, reaction.stops);
    }
  }

  /** Over any session: messages leave numbered 1, 2, 3, ... in wire order, as
      long as there are fewer than 2^31, and the responses are exactly the
      requests, one each and in order. */
  lemma {:induction false} SessionIsNumbered(parse: string -> Incoming, resolve: Resolver,
                                             payloads: seq<string>, react: nat -> Reaction)
    ensures var s := HandledAll(Idle, parse, resolve, payloads, react);
      && Numbered(s) && Answered(s.sent) == Asked(parse, payloads)
      && (CountsUp(s.sent) <==> |s.sent| < 0x8000_0000)
  {
    hide Handled, CountsUp, Int32;
    if payloads == [] {
      OwnSeqIff(1);
    } else {
      var n := |payloads| - 1;
      SessionIsNumbered(parse, resolve, payloads[..n], react);
      OneResponseFirst(HandledAll(Idle, parse, resolve, payloads[..n], react), resolve, parse(payloads[n]), react(n));
    }
    CountsUpIff(HandledAll(Idle, parse, resolve, payloads, react));
  }

  /** From bytes to messages: a client that frames non-empty payloads, none after
      a disconnect, has every one of them handled, and every request answered
      once, in order. */
  lemma WholeSession(parse: string -> Incoming, resolve: Resolver, payloads: seq<string>,
                     react: nat -> Reaction)
    requires forall i | 0 <= i < |payloads| :: 0 < |payloads[i]| < U64
    requires forall i | 0 <= i < |payloads| - 1 :: !Ends(parse)(payloads[i])
    ensures Received(Frames(payloads), Ends(parse)) == payloads
    ensures var s := HandledAll(Idle, parse, resolve, Received(Frames(payloads), Ends(parse)), react);
      && Numbered(s) && Answered(s.sent) == Asked(parse, payloads)
      && (CountsUp(s.sent) <==> |s.sent| < 0x8000_0000)
  {
    hide Received, Frames, HandledAll, Asked, Ends;
    StreamRoundTrip(payloads, Ends(parse));
    AllDelivered(payloads, Ends(parse));
    SessionIsNumbered(parse, resolve, payloads, react);
  }

  lemma {:induction false} AllDelivered(payloads: seq<string>, ends: string -> bool)
    requires forall i | 0 <= i < |payloads| :: payloads[i] != ""
    requires forall i | 0 <= i < |payloads| - 1 :: !ends(payloads[i])
    ensures Delivered(payloads, ends) == payloads
  {
    if payloads != [] {
      AllDelivered(payloads[1..], ends);
      assert payloads == [payloads[0]] + payloads[1..];
      if ends(payloads[0]) {
        assert |payloads| == 1;
      }
    }
  }

  /** A response carries its request's own number exactly when that fits 32 bits. */
  lemma OwnSeqIff(n: int)
    ensures Int32(n) == n <==> -0x8000_0000 <= n < 0x8000_0000
  {
  }

  // ---- References lead back ----

  lemma {:induction false} TableHas(stop: Stop, n: nat)
    requires n <= |stop.visible|
    ensures var t := TableUpTo(stop, n);
      && (forall k :: k in t <==> 1 <= k <= n + 1)
      && t[1] == stop.stopped
      && (forall i | 0 <= i < n :: t[i + 2] == stop.visible[i])
  {
    if n > 0 {
      TableHas(stop, n - 1);
    }
  }

  /** After a stop with n visible items the threads are exactly 1 to n + 1, the
      stopped item first. */
  lemma TableIs(s: Server, stop: Stop)
    ensures var t := Stopped(s, stop);
      && (forall k :: k in t.threads <==> 1 <= k <= |stop.visible| + 1)
      && t.threads[1] == stop.stopped
      && (forall i | 0 <= i < |stop.visible| :: t.threads[i + 2] == stop.visible[i])
  {
    TableHas(stop, |stop.visible|);
  }

  /** The Oclgrind backend lists the stopped item as visible too, so its threads
      1 and 2 are one and the same work-item. */
  lemma OclgrindListsTwice(s: Server, item: OCLWorkItem)
    ensures Stopped(s, Stop(item, [item])).threads == map[1 := item, 2 := item]
  {
    var stop := Stop(item, [item]);
    TableIs(s, stop);
    var t := Stopped(s, stop).threads;
    assert t[0 + 2] == stop.visible[0];
    assert forall k | k in t :: k == 1 || k == 2;
  }

  /** The encoding is undone exactly, for every thread whose frame id fits 32
      bits: both references lead back to the thread, each to its own scope. */
  lemma ReferencesDecode(s: Server, thread: int)
    requires thread > 0 && thread * 10 + 1 < 0x8000_0000
    ensures var frame := FrameId(thread);
      && frame == thread * 10 + 1
      && RefThread(s, LocalsRef(frame)) == thread && !IsGlobalsRef(LocalsRef(frame))
      && RefThread(s, GlobalsRef(frame)) == thread && IsGlobalsRef(GlobalsRef(frame))
  {
    hide Int32;
    OwnSeqIff(thread * 10 + 1);
    OwnSeqIff(thread);
    DigitsApart(thread);
  }

  lemma DigitsApart(thread: nat)
    ensures var base := (thread * 10 + 1) * 100;
      base % 100 == 0 && (base + 1) % 100 == 1 && base / 100 == thread * 10 + 1 && (thread * 10 + 1) / 10 == thread
  {
  }

  lemma ReferencesDiffer(t1: int, g1: bool, t2: int, g2: bool)
    requires 0 < t1 && t1 * 10 + 1 < 0x8000_0000 && 0 < t2 && t2 * 10 + 1 < 0x8000_0000
    requires (if g1 then GlobalsRef(FrameId(t1)) else LocalsRef(FrameId(t1)))
      == (if g2 then GlobalsRef(FrameId(t2)) else LocalsRef(FrameId(t2)))
    ensures t1 == t2 && g1 == g2
  {
    ReferencesDecode(Idle, t1);
    ReferencesDecode(Idle, t2);
  }

  datatype Exchange = Exchange(r: Incoming, reaction: Reaction)

  function Exchanges(s: Server, resolve: Resolver, xs: seq<Exchange>): Server {
    if xs == [] then s
    else
      var n := |xs| - 1;
      Handled(Exchanges(s, resolve, xs[..n]), resolve, xs[n].r, xs[n].reaction)
  }

  /** Messages during which the backend reports no stop. */
  predicate WithoutStop(xs: seq<Exchange>) {
    forall i | 0 <= i < |xs| :: xs[i].r.Request? && Runs(xs[i].r.command) ==> xs[i].reaction.stops == []
  }

  /** Only a stop changes the thread table. */
  lemma {:induction false} TableStays(s: Server, resolve: Resolver, xs: seq<Exchange>)
    requires WithoutStop(xs)
    ensures var t := Exchanges(s, resolve, xs); t.threads == s.threads && t.stoppedThread == s.stoppedThread
  {
    hide BodyOf, CallsOf;
    if xs != [] {
      TableStays(s, resolve, xs[..|xs| - 1]);
    }
  }

  function LastBody(s: Server): Body { if s.sent == [] then Opaque else s.sent[|s.sent| - 1].body }

  /** The three requests a client makes to show a thread, with the ids taken from
      the answers and any messages in between, and the variables shown in the
      end. */
  ghost predicate ChainShows(
    s: Server, resolve: Resolver, thread: int, globals: bool, numbers: seq<Option<int>>,
    xs1: seq<Exchange>, xs2: seq<Exchange>, none: Reaction, shown: seq<Variable>)
    requires |numbers| == 3
  {
    var s1 := Handled(s, resolve, Request(numbers[0], "stackTrace", NoArgs.(threadId := Some(thread))), none);
    var frame := LastBody(s1);
    && frame.StackFrame?
    && var s2 := Handled(Exchanges(s1, resolve, xs1), resolve,
                         Request(numbers[1], "scopes", NoArgs.(frameId := Some(frame.id))), none);
       var scopes := LastBody(s2);
       && scopes.Scopes?
       && var ref := if globals then scopes.globals else scopes.locals;
          var s3 := Handled(Exchanges(s2, resolve, xs2), resolve,
                            Request(numbers[2], "variables", NoArgs.(variablesReference := Some(ref))), none);
          LastBody(s3) == Variables(shown)
  }

  /** The server when the variables are asked for. */
  function BeforeVariables(
    s: Server, resolve: Resolver, thread: int, numbers: seq<Option<int>>, xs1: seq<Exchange>, xs2: seq<Exchange>,
    none: Reaction): Server
    requires |numbers| == 3
  {
    var s1 := Handled(s, resolve, Request(numbers[0], "stackTrace", NoArgs.(threadId := Some(thread))), none);
    var s2 := Handled(Exchanges(s1, resolve, xs1), resolve,
                      Request(numbers[1], "scopes", NoArgs.(frameId := Some(FrameId(thread)))), none);
    Exchanges(s2, resolve, xs2)
  }

  /** The chain asks for the variables of the thread's own work-item, in the scope
      chosen, whatever messages without a stop come in between. */
  lemma ChainShowsOwnItem(
    s: Server, resolve: Resolver, thread: int, globals: bool, numbers: seq<Option<int>>,
    xs1: seq<Exchange>, xs2: seq<Exchange>, none: Reaction)
    requires |numbers| == 3 && WithoutStop(xs1) && WithoutStop(xs2)
    requires thread in s.threads && thread > 0 && thread * 10 + 1 < 0x8000_0000
    ensures LastBody(Handled(s, resolve, Request(numbers[0], "stackTrace", NoArgs.(threadId := Some(thread))), none))
      == StackFrame(FrameId(thread), s.threads[thread], FrameLine(s.threads[thread], s.currentLine))
    ensures var t := BeforeVariables(s, resolve, thread, numbers, xs1, xs2, none);
      ChainShows(s, resolve, thread, globals, numbers, xs1, xs2, none,
                 Shown(resolve(Attended(t), s.threads[thread]), globals))
  {
    hide RefThread, IsGlobalsRef, FrameId, Exchanges, FrameLine, Attended, Shown;
    OwnSeqIff(thread);
    var s1 := Handled(s, resolve, Request(numbers[0], "stackTrace", NoArgs.(threadId := Some(thread))), none);
    TableStays(s1, resolve, xs1);
    var t1 := Exchanges(s1, resolve, xs1);
    var s2 := Handled(t1, resolve, Request(numbers[1], "scopes", NoArgs.(frameId := Some(FrameId(thread)))), none);
    TableStays(s2, resolve, xs2);
    ReferencesDecode(Exchanges(s2, resolve, xs2), thread);
  }

  /** The Oclgrind backend prints an expression for the work-item it was last
      stopped at or made to select, whichever work-item is asked about. */
  function ByAttention(values: OCLWorkItem -> seq<Variable>): Resolver {
    (attended: OCLWorkItem, _: OCLWorkItem) => values(attended)
  }

  /** So with that backend the chain shows a thread's own variables exactly when
      its work-item is the one attended to: the stopped one until another is
      selected. */
  lemma OclgrindShowsOwnIff(attended: OCLWorkItem, own: OCLWorkItem, globals: bool)
    ensures (forall values: OCLWorkItem -> seq<Variable> ::
               Shown(ByAttention(values)(attended, own), globals) == Shown(values(own), globals)) <==> attended == own
  {
    if attended != own {
      var v := Variable("x", if globals then "__global" else "");
      var values := (item: OCLWorkItem) => if item == own then [v] else [];
      ScopeShowsItsOwn([v], globals, v);
      assert v in Shown(values(own), globals);
      assert Shown(ByAttention(values)(attended, own), globals) == [];
      assert Shown(ByAttention(values)(attended, own), globals) != Shown(values(own), globals);
    }
  }

  /** With the Oclgrind backend: stopped at one work-item, another is selected; the
      chain from thread 1, whose frame is the first, shows the other's variables. */
  lemma SelectionShowsThrough(
    s: Server, values: OCLWorkItem -> seq<Variable>, first: OCLWorkItem, other: OCLWorkItem, globals: bool,
    numbers: seq<Option<int>>, select: Incoming, none: Reaction)
    requires |numbers| == 3 && select.Request? && select.command == "ocldbg/selectWorkItem"
    ensures var t := Stopped(s, Stop(first, [first]));
      var u := Handled(t, ByAttention(values), select, Reaction([], Some(other)));
      && 1 in u.threads && u.threads[1] == first
      && ChainShows(u, ByAttention(values), 1, globals, numbers, [], [], none, Shown(values(other), globals))
  {
    hide Shown;
    var t := Stopped(s, Stop(first, [first]));
    var u := Handled(t, ByAttention(values), select, Reaction([], Some(other)));
    OclgrindListsTwice(s, first);
    ChainShowsOwnItem(u, ByAttention(values), 1, globals, numbers, [], [], none);
    SelectionStays(u, ByAttention(values), 1, numbers, none);
  }

  lemma SelectionStays(s: Server, resolve: Resolver, thread: int, numbers: seq<Option<int>>, none: Reaction)
    requires |numbers| == 3
    ensures Attended(BeforeVariables(s, resolve, thread, numbers, [], [], none)) == Attended(s)
  {
  }

  /** A step is asked of the very item whose frame and variables its thread shows,
      and asked once. */
  lemma StepGoesToOwnItem(s: Server, resolve: Resolver, thread: int, over: bool,
                          seq_: Option<int>, reaction: Reaction)
    requires thread in s.threads && -0x8000_0000 <= thread < 0x8000_0000
    ensures var r := Request(seq_, if over then "next" else "stepIn", NoArgs.(threadId := Some(thread)));
      Handled(s, resolve, r, reaction).calls == s.calls + [Step(over, s.threads[thread])]
  {
    OwnSeqIff(thread);
    var r := Request(seq_, if over then "next" else "stepIn", NoArgs.(threadId := Some(thread)));
    StopsCallNothing(Respond(Asking(s, r), r, Opaque), reaction.stops);
  }

  lemma {:induction false} StopsCallNothing(s: Server, stops: seq<Stop>)
    ensures StoppedAll(s, stops).calls == s.calls && StoppedAll(s, stops).running == s.running
  {
    if stops != [] {
      StopsCallNothing(s, stops[..|stops| - 1]);
    }
  }

  /** The two scopes share out the resolved variables: each is in one of them. */
  lemma {:induction false} ScopesPartition(vars: seq<Variable>)
    ensures multiset(Shown(vars, true)) + multiset(Shown(vars, false)) == multiset(vars)
  {
    hide IsGlobal;
    if vars != [] {
      var n := |vars| - 1;
      ScopesPartition(vars[..n]);
      assert vars == vars[..n] + [vars[n]];
      var g := IsGlobal(vars[n]);
      assert Shown(vars, g) == Shown(vars[..n], g) + [vars[n]];
      assert Shown(vars, !g) == Shown(vars[..n], !g);
    }
  }

  lemma {:induction false} ScopeShowsItsOwn(vars: seq<Variable>, globals: bool, v: Variable)
    ensures v in Shown(vars, globals) <==> v in vars && IsGlobal(v) == globals
  {
    hide IsGlobal;
    if vars != [] {
      ScopeShowsItsOwn(vars[..|vars| - 1], globals, v);
      assert vars == vars[..|vars| - 1] + [vars[|vars| - 1]];
    }
  }

  // ---- The server class ----

  class DAPServer {
    const parse: string -> Incoming
    const resolve: Resolver
    var nextSeq: int
    var running: bool
    var threads: map<int, OCLWorkItem>
    var stoppedThreadId: int
    var nextThreadId: int
    var selectedWi: Option<OCLWorkItem>
    var currentStop: Option<Stop>
    var currentLine: u32
    var calls: seq<Call>
    var sent: seq<Message>

    ghost function Abs(): Server
      reads this
    {
      Server(nextSeq, running, threads, stoppedThreadId, selectedWi, currentStop, currentLine, calls, sent)
    }

    constructor (parse: string -> Incoming, resolve: Resolver)
      ensures this.parse == parse && this.resolve == resolve && Abs() == Idle
    {
      this.parse, this.resolve := parse, resolve;
      nextSeq, running, threads, stoppedThreadId, nextThreadId := 1, true, map[], 1, 1;
      selectedWi, currentStop, currentLine, calls, sent := None, None, 0, [], [];
    }

    method SendResponse(r: Incoming, body: Body)
      requires r.Request?
      modifies this`nextSeq, this`sent
      ensures Abs() == Respond(old(Abs()), r, body)
    {
      sent := sent + [Response(nextSeq, SeqOf(r), r.command, body)];
      nextSeq := Int32(nextSeq + 1);
    }

    method SendEvent(name: string, body: Body)
      modifies this`nextSeq, this`sent
      ensures Abs() == Announce(old(Abs()), name, body)
    {
      sent := sent + [Event(nextSeq, name, body)];
      nextSeq := Int32(nextSeq + 1);
    }

    /** The stop callback fills the table thread by thread. */
    method OnStop(stop: Stop)
      modifies this
      ensures Abs() == Stopped(old(Abs()), stop)
    {
      currentStop := Some(stop);
      threads := map[];
      nextThreadId := 1;
      var stoppedId := nextThreadId;
      nextThreadId := nextThreadId + 1;
      threads := threads[stoppedId := stop.stopped];
      for i := 0 to |stop.visible|
        invariant nextThreadId == i + 2
        invariant threads == TableUpTo(stop, i)
        invariant currentStop == Some(stop) && unchanged(`nextSeq, `sent, `running, `calls, `currentLine)
      {
        threads := threads[nextThreadId := stop.visible[i]];
        nextThreadId := nextThreadId + 1;
      }
      stoppedThreadId := stoppedId;
      selectedWi := None;
      if stop.stopped.line > 0 {
        currentLine := stop.stopped.line;
      }
      SendEvent("stopped", StoppedBody(stoppedId));
    }

    /** The backend runs and reports stops from inside the call. */
    method RunBackend(stops: seq<Stop>)
      modifies this
      ensures Abs() == StoppedAll(old(Abs()), stops)
    {
      for i := 0 to |stops|
        invariant Abs() == StoppedAll(old(Abs()), stops[..i])
      {
        assert stops[..i + 1][..i] == stops[..i];
        OnStop(stops[i]);
      }
      assert stops[..|stops|] == stops;
    }

    method PopulateVariables(vars: seq<Variable>, globals: bool) returns (out: seq<Variable>)
      ensures out == Shown(vars, globals)
    {
      out := [];
      for i := 0 to |vars|
        invariant out == Shown(vars[..i], globals)
      {
        assert vars[..i + 1][..i] == vars[..i];
        if IsGlobal(vars[i]) == globals {
          out := out + [vars[i]];
        }
      }
      assert vars[..|vars|] == vars;
    }

    method HandleVariables(r: Incoming)
      requires r.Request?
      modifies this`nextSeq, this`sent
      ensures Abs() == Respond(old(Abs()), r, VariablesBody(old(Abs()), resolve, r.args))
    {
      var ref := if r.args.variablesReference.Some? then r.args.variablesReference.value else 0;
      var shown := [];
      if ref > 0 {
        var globals := ref % 100 == 1;
        var base := if globals then ref - 1 else ref;
        var thread := Int32((base / 100) / 10);
        if thread == 0 {
          thread := stoppedThreadId;
        }
        var target := if thread in threads then threads[thread]
          else if selectedWi.Some? then selectedWi.value
          else if currentStop.Some? then currentStop.value.stopped else NoItem;
        var attended := if selectedWi.Some? then selectedWi.value
          else if currentStop.Some? then currentStop.value.stopped else NoItem;
        shown := PopulateVariables(resolve(attended, target), globals);
      }
      SendResponse(r, Variables(shown));
    }

    method HandleStackTrace(r: Incoming)
      requires r.Request?
      modifies this`nextSeq, this`sent
      ensures Abs() == Respond(old(Abs()), r, FrameBody(old(Abs()), r.args))
    {
      var thread := if r.args.threadId.Some? then Int32(r.args.threadId.value) else stoppedThreadId;
      var item := if thread in threads then threads[thread]
        else if currentStop.Some? then currentStop.value.stopped else NoItem;
      var line := if item.line > 0 then item.line else if currentLine > 0 then currentLine else 1;
      SendResponse(r, StackFrame(Int32(thread * 10 + 1), item, line));
    }

    method HandleScopes(r: Incoming)
      requires r.Request?
      modifies this`nextSeq, this`sent
      ensures Abs() == Respond(old(Abs()), r, ScopesBody(r.args))
    {
      var frame := if r.args.frameId.Some? then r.args.frameId.value else 1;
      var base := frame * 100;
      SendResponse(r, Scopes(base, base + 1));
    }

    method HandleStep(r: Incoming, stops: seq<Stop>)
      requires r.Request? && Steps(r.command)
      modifies this
      ensures Abs() == StoppedAll(Respond(Asking(old(Abs()), r), r, Opaque), stops)
    {
      hide StoppedAll;
      var thread := if r.args.threadId.Some? then Int32(r.args.threadId.value) else stoppedThreadId;
      var item := if thread in threads then threads[thread]
        else if currentStop.Some? then currentStop.value.stopped else NoItem;
      SendResponse(r, Opaque);
      calls := calls + [Step(r.command == "next", item)];
      RunBackend(stops);
    }

    method HandleSelectWorkItem(r: Incoming, picked: Option<OCLWorkItem>)
      requires r.Request? && r.command == "ocldbg/selectWorkItem"
      modifies this`calls, this`selectedWi, this`nextSeq, this`sent
      ensures var s := Asking(old(Abs()), r);
        Abs() == Respond(if picked.Some? then s.(selected := picked) else s, r, Opaque)
    {
      calls := calls + [Select(Size3(r.args.gx % U64, r.args.gy % U64, r.args.gz % U64))];
      if picked.Some? {
        selectedWi := picked;
      }
      SendResponse(r, Opaque);
    }

    method HandleInitialize(r: Incoming)
      requires r.Request? && r.command == "initialize"
      modifies this`nextSeq, this`sent
      ensures Abs() == Announce(Respond(old(Abs()), r, Opaque), "initialized", Opaque)
    {
      SendResponse(r, Opaque);
      SendEvent("initialized", Opaque);
    }

    /** handle_configuration_done and handle_continue. */
    method HandleContinue(r: Incoming, stops: seq<Stop>)
      requires r.Request? && (r.command == "configurationDone" || r.command == "continue")
      modifies this
      ensures Abs() == StoppedAll(Respond(Asking(old(Abs()), r), r, Opaque), stops)
    {
      hide StoppedAll;
      SendResponse(r, Opaque);
      calls := calls + [Resume];
      RunBackend(stops);
    }

    method HandleDisconnect(r: Incoming)
      requires r.Request? && r.command == "disconnect"
      modifies this`nextSeq, this`sent, this`calls, this`running
      ensures Abs() == Respond(Asking(old(Abs()), r), r, Opaque).(running := false)
    {
      SendResponse(r, Opaque);
      calls := calls + [Detach];
      running := false;
    }

    method HandleMessage(payload: string, reaction: Reaction)
      modifies this
      ensures Abs() == Handled(old(Abs()), resolve, parse(payload), reaction)
    {
      hide StoppedAll, VariablesBody, FrameBody, ScopesBody, Respond, Announce;
      var r := parse(payload);
      if r.Ignored? {
        return;
      }
      AsksNothing(Abs(), r);
      if r.command == "initialize" {
        HandleInitialize(r);
      } else if r.command == "configurationDone" || r.command == "continue" {
        HandleContinue(r, reaction.stops);
      } else if r.command == "threads" {
        SendResponse(r, ThreadIds(threads.Keys));
      } else if r.command == "stackTrace" {
        HandleStackTrace(r);
      } else if r.command == "scopes" {
        HandleScopes(r);
      } else if r.command == "variables" {
        HandleVariables(r);
      } else if r.command == "next" || r.command == "stepIn" {
        HandleStep(r, reaction.stops);
      } else if r.command == "ocldbg/selectWorkItem" {
        HandleSelectWorkItem(r, reaction.picked);
      } else if r.command == "disconnect" {
        HandleDisconnect(r);
      } else {
        SendResponse(r, Opaque);
      }
    }

    /** The stdio loop over the bytes of the client. `react` tells what the backend
        does while the k-th message is handled. */
    method RunStdio(input: string, react: nat -> Reaction)
      modifies this
      ensures var payloads := Received(input, Ends(parse));
        Abs() == HandledAll(old(Abs()).(running := true), parse, resolve, payloads, react)
    {
      hide Handled, HandledAll, Received, ReadHeader, Ends;
      running := true;
      var rest := input;
      var k: nat := 0;
      ghost var payloads := Received(input, Ends(parse));
      ghost var start := Abs();
      NoneHandled(start, parse, resolve, react);
      while running
        invariant k <= |payloads|
        invariant Abs() == HandledAll(start, parse, resolve, payloads[..k], react)
        invariant running ==> payloads[k..] == Received(rest, Ends(parse))
        invariant !running ==> k == |payloads|
        decreases |rest|, running
      {
        ReceivedOnce(rest, Ends(parse));
        var h := ReadDapHeader(rest);
        if h.NoHeader? || h.length == 0 || h.eof || |h.rest| < h.length {
          break;
        }
        var payload := h.rest[..h.length];
        assert payloads[k] == payload;
        OneMoreHandled(start, parse, resolve, payloads, react, k);
        EndsRunning(Abs(), resolve, parse(payload), react(k));
        HandleMessage(payload, react(k));
        EndsIs(parse, payload);
        rest := h.rest[h.length..];
        k := k + 1;
      }
      assert payloads[..|payloads|] == payloads;
    }
  }

  function Ends(parse: string -> Incoming): string -> bool {
    (payload: string) => parse(payload).Request? && parse(payload).command == "disconnect"
  }

  lemma ReceivedOnce(s: string, ends: string -> bool)
    ensures var h := ReadHeader(s, false, 0);
      Received(s, ends) ==
        if h.NoHeader? || h.length == 0 || h.eof || |h.rest| < h.length then []
        else [h.rest[..h.length]] + (if ends(h.rest[..h.length]) then [] else Received(h.rest[h.length..], ends))
  {
    hide ReadHeader;
  }

  lemma AsksNothing(s: Server, r: Incoming)
    requires r.Request?
    ensures CallsOf(s, r) == [] ==> Asking(s, r) == s
  {
    hide CallsOf;
    assert s.calls + [] == s.calls;
  }

  lemma EndsIs(parse: string -> Incoming, payload: string)
    ensures Ends(parse)(payload) <==> parse(payload).Request? && parse(payload).command == "disconnect"
  {
  }

  lemma NoneHandled(s: Server, parse: string -> Incoming, resolve: Resolver, react: nat -> Reaction)
    ensures HandledAll(s, parse, resolve, [], react) == s
  {
  }

  lemma OneMoreHandled(s: Server, parse: string -> Incoming, resolve: Resolver,
                       payloads: seq<string>, react: nat -> Reaction, k: nat)
    requires k < |payloads|
    ensures HandledAll(s, parse, resolve, payloads[..k + 1], react) ==
      Handled(HandledAll(s, parse, resolve, payloads[..k], react), resolve, parse(payloads[k]), react(k))
  {
    hide Handled;
    assert payloads[..k + 1][..k] == payloads[..k];
  }

  lemma EndsRunning(s: Server, resolve: Resolver, r: Incoming, reaction: Reaction)
    requires s.running
    ensures Handled(s, resolve, r, reaction).running <==> !(r.Request? && r.command == "disconnect")
  {
    hide BodyOf, CallsOf;
    if r.Request? {
      StopsCallNothing(Respond(Asking(s, r), r, BodyOf(s, resolve, r)), reaction.stops);
    }
  }
}
