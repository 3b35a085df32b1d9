/** What a whole DAP session says and asks of the backend, read off the requests
    and the stops alone: an account of every message without the server's state. */
module DapHistory {
  import opened Types
  import opened DapServer

  // ---- What has happened so far ----

  predicate IsRun(r: Incoming) {
    r.Request? && r.command in {"configurationDone", "continue", "next", "stepIn"}
  }

  predicate IsSelect(r: Incoming) { r.Request? && r.command == "ocldbg/selectWorkItem" }

  /** The last stop reported. */
  function LastStop(parse: string -> Incoming, payloads: seq<string>, react: nat -> Reaction): Option<Stop> {
    if payloads == [] then None
    else
      var n := |payloads| - 1;
      var stops := react(n).stops;
      if IsRun(parse(payloads[n])) && stops != [] then Some(stops[|stops| - 1])
      else LastStop(parse, payloads[..n], react)
  }

  /** The work-item selected since, if any. */
  function Selection(parse: string -> Incoming, payloads: seq<string>, react: nat -> Reaction): Option<OCLWorkItem> {
    if payloads == [] then None
    else
      var n := |payloads| - 1;
      var r := parse(payloads[n]);
      if IsRun(r) && react(n).stops != [] then None
      else if IsSelect(r) && react(n).picked.Some? then react(n).picked
      else Selection(parse, payloads[..n], react)
  }

  /** The line of the last of the stops that has one. */
  function LineOf(stops: seq<Stop>, otherwise: u32): u32 {
    if stops == [] then otherwise
    else
      var n := |stops| - 1;
      if stops[n].stopped.line > 0 then stops[n].stopped.line else LineOf(stops[..n], otherwise)
  }

  function LastLine(parse: string -> Incoming, payloads: seq<string>, react: nat -> Reaction): u32 {
    if payloads == [] then 0
    else
      var n := |payloads| - 1;
      var before := LastLine(parse, payloads[..n], react);
      if IsRun(parse(payloads[n])) then LineOf(react(n).stops, before) else before
  }

  /** The situation a request meets. */
  datatype Situation = Situation(stop: Option<Stop>, selection: Option<OCLWorkItem>, line: u32)

  function Now(parse: string -> Incoming, payloads: seq<string>, react: nat -> Reaction): Situation {
    Situation(LastStop(parse, payloads, react), Selection(parse, payloads, react), LastLine(parse, payloads, react))
  }

  /** The work-items the client knows as threads 1, 2, ...: the stopped one, then
      the visible ones. */
  function Items(now: Situation): seq<OCLWorkItem> {
    if now.stop.None? then [] else [now.stop.value.stopped] + now.stop.value.visible
  }

  function StoppedItem(now: Situation): OCLWorkItem {
    if now.stop.None? then NoItem else now.stop.value.stopped
  }

  function Attention(now: Situation): OCLWorkItem {
    if now.selection.Some? then now.selection.value else StoppedItem(now)
  }

  function ThreadOrStopped(now: Situation, thread: int): OCLWorkItem {
    if 1 <= thread <= |Items(now)| then Items(now)[thread - 1] else StoppedItem(now)
  }

  function ThreadOrAttention(now: Situation, thread: int): OCLWorkItem {
    if 1 <= thread <= |Items(now)| then Items(now)[thread - 1] else Attention(now)
  }

  // ---- What is answered ----

  datatype Said = Answer(request: int, command: string, body: Body) | News(name: string, body: Body)

  function WantedThread(args: Args): int {
    if args.threadId.Some? then Int32(args.threadId.value) else 1
  }

  /** The variables of one scope, in their order. */
  function InScopeOf(vars: seq<Variable>, globals: bool): seq<Variable> {
    if vars == [] then []
    else
      (if (vars[0].space in {"__global", "__constant"}) == globals then [vars[0]] else []) +
      InScopeOf(vars[1..], globals)
  }

  function UpTo(n: nat): (r: set<int>)
    ensures forall t :: t in r <==> 1 <= t <= n
  {
    if n == 0 then {} else UpTo(n - 1) + {n}
  }

  function AnswerBody(now: Situation, resolve: Resolver, r: Incoming): Body
    requires r.Request?
  {
    match r.command
    case "threads" => ThreadIds(UpTo(|Items(now)|))
    case "stackTrace" =>
      var t := WantedThread(r.args);
      var item := ThreadOrStopped(now, t);
      StackFrame(Int32(10 * t + 1), item, if item.line > 0 then item.line else if now.line > 0 then now.line else 1)
    case "scopes" =>
      var frame := if r.args.frameId.Some? then r.args.frameId.value else 1;
      Scopes(100 * frame, 100 * frame + 1)
    case "variables" =>
      var ref := if r.args.variablesReference.Some? then r.args.variablesReference.value else 0;
      if ref <= 0 then Variables([])
      else
        var t := Int32(ref / 1000);
        var vars := resolve(Attention(now), ThreadOrAttention(now, if t == 0 then 1 else t));
        Variables(InScopeOf(vars, ref % 100 == 1))
    case _ => Opaque
  }

  function StopNews(stops: seq<Stop>): seq<Said> {
    seq(|stops|, i requires 0 <= i < |stops| => News("stopped", StoppedBody(1)))
  }

  /** The response to one message, and the events that follow it. */
  function Says(now: Situation, resolve: Resolver, r: Incoming, reaction: Reaction): seq<Said> {
    if r.Ignored? then []
    else
      [Answer(Int32(if r.seq_.Some? then r.seq_.value else 0), r.command, AnswerBody(now, resolve, r))] +
      (if r.command == "initialize" then [News("initialized", Opaque)]
       else if IsRun(r) then StopNews(reaction.stops)
       else [])
  }

  function AllSaid(parse: string -> Incoming, resolve: Resolver, payloads: seq<string>, react: nat -> Reaction): seq<Said> {
    if payloads == [] then []
    else
      var n := |payloads| - 1;
      AllSaid(parse, resolve, payloads[..n], react) +
      Says(Now(parse, payloads[..n], react), resolve, parse(payloads[n]), react(n))
  }

  // ---- What is asked of the backend ----

  /** One message asks for at most one thing. */
  function Asks(now: Situation, r: Incoming): seq<Call> {
    if r.Ignored? then []
    else
      match r.command
      case "configurationDone" => [Resume]
      case "continue" => [Resume]
      case "next" => [Step(true, ThreadOrStopped(now, WantedThread(r.args)))]
      case "stepIn" => [Step(false, ThreadOrStopped(now, WantedThread(r.args)))]
      case "ocldbg/selectWorkItem" => [Select(Size3(r.args.gx % U64, r.args.gy % U64, r.args.gz % U64))]
      case "disconnect" => [Detach]
      case _ => []
  }

  function AllAsked(parse: string -> Incoming, payloads: seq<string>, react: nat -> Reaction): seq<Call> {
    if payloads == [] then []
    else
      var n := |payloads| - 1;
      AllAsked(parse, payloads[..n], react) + Asks(Now(parse, payloads[..n], react), parse(payloads[n]))
  }

  // ---- The server agrees ----

  /** The server's state is what has happened so far. */
  ghost predicate Remembers(s: Server, now: Situation) {
    && s.stoppedThread == 1 && s.current == now.stop && s.selected == now.selection && s.currentLine == now.line
    && (forall t :: t in s.threads <==> 1 <= t <= |Items(now)|)
    && (forall t | t in s.threads :: s.threads[t] == Items(now)[t - 1])
  }

  function Plain(m: Message): Said {
    if m.Response? then Answer(m.request, m.command, m.body) else News(m.name, m.body)
  }

  function PlainAll(ms: seq<Message>): (r: seq<Said>)
    ensures |r| == |ms| && forall i | 0 <= i < |ms| :: r[i] == Plain(ms[i])
  {
    seq(|ms|, i requires 0 <= i < |ms| => Plain(ms[i]))
  }

  lemma PlainOneMore(ms: seq<Message>, m: Message)
    ensures PlainAll(ms + [m]) == PlainAll(ms) + [Plain(m)]
  {
  }

  /** After stops: the last one is remembered, the selection forgotten, and each is
      announced. */
  lemma {:induction false} StopsRemembered(s: Server, now: Situation, stops: seq<Stop>)
    requires Remembers(s, now)
    ensures var t := StoppedAll(s, stops);
      && Remembers(t, if stops == [] then now
                      else Situation(Some(stops[|stops| - 1]), None, LineOf(stops, now.line)))
      && PlainAll(t.sent) == PlainAll(s.sent) + StopNews(stops)
      && t.calls == s.calls && t.running == s.running
  {
    hide Table, PlainAll;
    if stops == [] {
      assert PlainAll(s.sent) + [] == PlainAll(s.sent);
    } else {
      var n := |stops| - 1;
      StopsRemembered(s, now, stops[..n]);
      var t := StoppedAll(s, stops[..n]);
      StopRemembered(t, stops[n]);
      PlainOneMore(t.sent, Event(t.nextSeq, "stopped", StoppedBody(1)));
      assert StopNews(stops) == StopNews(stops[..n]) + [News("stopped", StoppedBody(1))];
    }
  }

  lemma StopRemembered(s: Server, stop: Stop)
    ensures Remembers(Stopped(s, stop),
      Situation(Some(stop), None, if stop.stopped.line > 0 then stop.stopped.line else s.currentLine))
  {
    TableIs(s, stop);
    hide Table;
    var t := Stopped(s, stop);
    forall k | k in t.threads ensures t.threads[k] == ([stop.stopped] + stop.visible)[k - 1] {
      assert k > 1 ==> t.threads[(k - 2) + 2] == stop.visible[k - 2];
    }
  }

  lemma {:induction false} ShownInOrder(vars: seq<Variable>, globals: bool)
    ensures Shown(vars, globals) == InScopeOf(vars, globals)
  {
    if vars != [] {
      var n := |vars| - 1;
      ShownInOrder(vars[..n], globals);
      ScopeOneMore(vars[..n], vars[n], globals);
      assert vars == vars[..n] + [vars[n]];
    }
  }

  lemma {:induction false} ScopeOneMore(vars: seq<Variable>, v: Variable, globals: bool)
    ensures InScopeOf(vars + [v], globals) ==
      InScopeOf(vars, globals) + if (v.space in {"__global", "__constant"}) == globals then [v] else []
  {
    if vars == [] {
      assert ([] + [v])[1..] == [];
    } else {
      ScopeOneMore(vars[1..], v, globals);
      assert (vars + [v])[1..] == vars[1..] + [v];
    }
  }

  lemma SameThread(s: Server, now: Situation, r: Incoming)
    requires r.Request? && Remembers(s, now)
    ensures ThreadOf(s, r.args) == WantedThread(r.args)
    ensures forall t :: ItemOf(s, t) == ThreadOrStopped(now, t) && TargetOf(s, t) == ThreadOrAttention(now, t)
    ensures Attended(s) == Attention(now)
  {
  }

  lemma SameReference(s: Server, ref: int)
    requires ref > 0 && s.stoppedThread == 1
    ensures var t := Int32(ref / 1000); RefThread(s, ref) == if t == 0 then 1 else t
    ensures IsGlobalsRef(ref) <==> ref % 100 == 1
  {
    Thousands(ref);
  }

  lemma Thousands(ref: nat)
    ensures ref % 100 == 1 ==> ((ref - 1) / 100) / 10 == ref / 1000
    ensures (ref / 100) / 10 == ref / 1000
  {
    var h := ref / 100;
    assert ref == 100 * h + ref % 100;
    var k := h / 10;
    assert h == 10 * k + h % 10;
    assert ref / 1000 == k;
  }

  lemma SameBody(s: Server, now: Situation, resolve: Resolver, r: Incoming)
    requires r.Request? && Remembers(s, now)
    ensures BodyOf(s, resolve, r) == AnswerBody(now, resolve, r)
  {
    SameThread(s, now, r);
    hide Int32, Items, ThreadOrStopped, ThreadOrAttention, RefThread, IsGlobalsRef, Shown, InScopeOf;
    if r.command == "threads" {
      assert s.threads.Keys == UpTo(|Items(now)|);
    } else if r.command == "variables" {
      var ref := if r.args.variablesReference.Some? then r.args.variablesReference.value else 0;
      if ref > 0 {
        SameReference(s, ref);
        ShownInOrder(resolve(Attended(s), TargetOf(s, RefThread(s, ref))), IsGlobalsRef(ref));
      }
    }
  }

  lemma SameCalls(s: Server, now: Situation, r: Incoming)
    requires r.Request? && Remembers(s, now)
    ensures CallsOf(s, r) == Asks(now, r)
  {
    SameThread(s, now, r);
    hide Int32, Items, ThreadOrStopped, ThreadOrAttention, ItemOf;
  }

  function After(now: Situation, r: Incoming, reaction: Reaction): Situation {
    if IsRun(r) && reaction.stops != [] then
      Situation(Some(reaction.stops[|reaction.stops| - 1]), None, LineOf(reaction.stops, now.line))
    else if IsSelect(r) && reaction.picked.Some? then now.(selection := reaction.picked)
    else now
  }

  lemma RespondRemembered(s: Server, now: Situation, r: Incoming, body: Body)
    requires r.Request? && Remembers(s, now)
    ensures var t := Respond(Asking(s, r), r, body);
      && Remembers(t, now) && Remembers(t.(running := false), now)
      && PlainAll(t.sent) ==
           PlainAll(s.sent) + [Answer(Int32(if r.seq_.Some? then r.seq_.value else 0), r.command, body)]
      && t.calls == s.calls + Asks(now, r) && t.running == s.running
  {
    SameCalls(s, now, r);
    hide Int32, Items, CallsOf, Asks;
    PlainOneMore(s.sent, Response(s.nextSeq, SeqOf(r), r.command, body));
  }

  lemma SelectRemembered(s: Server, now: Situation, r: Incoming, picked: Option<OCLWorkItem>)
    requires r.Request? && Remembers(s, now)
    ensures var t := Respond(Asking(s, r).(selected := picked), r, Opaque);
      && Remembers(t, now.(selection := picked))
      && t.sent == Respond(Asking(s, r), r, Opaque).sent && t.calls == Respond(Asking(s, r), r, Opaque).calls
      && t.running == s.running
  {
    hide Int32, CallsOf;
  }

  lemma AnnounceRemembered(s: Server, now: Situation, name: string, body: Body)
    requires Remembers(s, now)
    ensures var t := Announce(s, name, body);
      Remembers(t, now) && PlainAll(t.sent) == PlainAll(s.sent) + [News(name, body)] && t.calls == s.calls
      && t.running == s.running
  {
    hide Int32, Items;
    PlainOneMore(s.sent, Event(s.nextSeq, name, body));
  }

  /** One message. */
  lemma MessageRemembered(s: Server, now: Situation, resolve: Resolver, r: Incoming, reaction: Reaction)
    requires Remembers(s, now)
    ensures var t := Handled(s, resolve, r, reaction);
      && Remembers(t, After(now, r, reaction))
      && PlainAll(t.sent) == PlainAll(s.sent) + Says(now, resolve, r, reaction)
      && t.calls == s.calls + Asks(now, r)
      && (t.running <==> s.running && !(r.Request? && r.command == "disconnect"))
  {
    hide Remembers, BodyOf, AnswerBody, Asks, PlainAll, StoppedAll, LineOf, Int32, Respond, Announce, Asking, StopNews;
    if r.Ignored? {
      NothingAsked(now, r);
      assert PlainAll(s.sent) + [] == PlainAll(s.sent) && s.calls + [] == s.calls;
    } else {
      SameBody(s, now, resolve, r);
      SelectSaysNothing(s, resolve, r);
      var body := BodyOf(s, resolve, r);
      RespondRemembered(s, now, r, body);
      var t := Respond(Asking(s, r), r, body);
      if r.command == "initialize" {
        AnnounceRemembered(t, now, "initialized", Opaque);
      } else if IsSelect(r) {
        SelectRemembered(s, now, r, reaction.picked);
      } else if Runs(r.command) {
        StopsRemembered(t, now, reaction.stops);
      }
    }
  }

  lemma NothingAsked(now: Situation, r: Incoming)
    ensures r.Ignored? ==> Asks(now, r) == []
  {
  }

  lemma SelectSaysNothing(s: Server, resolve: Resolver, r: Incoming)
    requires r.Request?
    ensures IsSelect(r) ==> BodyOf(s, resolve, r) == Opaque
  {
  }

  /** Over any session the server sends exactly what the history says, message by
      message, asks of the backend exactly what the requests ask, and goes on
      until it is told to disconnect. */
  lemma {:induction false} SessionIsHistory(
    parse: string -> Incoming, resolve: Resolver, payloads: seq<string>, react: nat -> Reaction)
    ensures var s := HandledAll(Idle, parse, resolve, payloads, react);
      && Remembers(s, Now(parse, payloads, react))
      && PlainAll(s.sent) == AllSaid(parse, resolve, payloads, react)
      && s.calls == AllAsked(parse, payloads, react)
      && (s.running <==> forall i | 0 <= i < |payloads| ::
            parse(payloads[i]).Request? ==> parse(payloads[i]).command != "disconnect")
  {
    hide Handled, Says, Asks, Items, PlainAll;
    if payloads == [] {
      NothingYet();
    } else {
      var n := |payloads| - 1;
      SessionIsHistory(parse, resolve, payloads[..n], react);
      MessageRemembered(HandledAll(Idle, parse, resolve, payloads[..n], react), Now(parse, payloads[..n], react),
                        resolve, parse(payloads[n]), react(n));
      NowMovesOn(parse, payloads, react);
    }
  }

  lemma NowMovesOn(parse: string -> Incoming, payloads: seq<string>, react: nat -> Reaction)
    requires payloads != []
    ensures var n := |payloads| - 1;
      Now(parse, payloads, react) == After(Now(parse, payloads[..n], react), parse(payloads[n]), react(n))
  {
  }

  lemma NothingYet()
    ensures Remembers(Idle, Situation(None, None, 0)) && PlainAll([]) == []
  {
  }
}
