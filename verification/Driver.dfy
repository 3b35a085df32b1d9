/** The scripted session: one breakpoint line, a limit on the number of hits,
    then detach. Its hits are counted against the trace itself. */
module Driver {
  import opened Types
  import opened Text
  import opened Plugin
  import opened Backend
  import opened Session
  import opened Agreement
  import opened Halts
  import Answers
  import Lockstep

  // ---- What counts as a hit ----

  predicate Executes(trace: seq<Event>, line: u32, index: u64, k: int)
    requires 0 <= k < |trace|
  {
    trace[k].Instruction? && trace[k].line == line && trace[k].item.index == index
  }

  /** Event k is the first time, in its kernel invocation, that its work-item
      executes an instruction at the line. */
  ghost predicate IsHit(trace: seq<Event>, line: u32, k: int)
    requires 0 <= k < |trace|
  {
    && line > 0 && trace[k].Instruction? && trace[k].line == line
    && forall j | 0 <= j < k && Executes(trace, line, trace[k].item.index, j) :: !NoBoundary(trace, j, k)
  }

  /** The hits among the first n events, in order: one for each kernel invocation
      and work-item that reaches the line. */
  ghost function Hits(trace: seq<Event>, line: u32, n: nat): seq<Halt>
    requires n <= |trace|
  {
    if n == 0 then []
    else if IsHit(trace, line, n - 1) then
      Hits(trace, line, n - 1) + [Halt(trace[n - 1].item, line, |trace| - n)]
    else Hits(trace, line, n - 1)
  }

  /** Every execution of the line belongs to exactly one hit: the hit of its own
      work-item in its own kernel invocation. */
  lemma {:induction false} OneHitPerPair(trace: seq<Event>, line: u32, index: u64, k: nat)
    requires k < |trace| && line > 0 && Executes(trace, line, index, k)
    ensures exists h: nat | h <= k ::
      IsHit(trace, line, h) && Executes(trace, line, index, h) && NoBoundary(trace, h, k)
    ensures forall g, h | 0 <= g <= h <= k
        && IsHit(trace, line, g) && Executes(trace, line, index, g) && NoBoundary(trace, g, k)
        && IsHit(trace, line, h) && Executes(trace, line, index, h) && NoBoundary(trace, h, k) :: g == h
  {
    if !IsHit(trace, line, k) {
      var j :| 0 <= j < k && Executes(trace, line, index, j) && NoBoundary(trace, j, k);
      OneHitPerPair(trace, line, index, j);
      var h: nat :| h <= j && IsHit(trace, line, h) && Executes(trace, line, index, h) && NoBoundary(trace, h, j);
      assert NoBoundary(trace, h, k);
    }
    forall g, h | 0 <= g < h <= k && Executes(trace, line, index, g) && NoBoundary(trace, g, k)
      && Executes(trace, line, index, h)
      ensures !IsHit(trace, line, h)
    {
      assert NoBoundary(trace, g, h);
    }
  }

  lemma {:induction false} HitsGrow(trace: seq<Event>, line: u32, n: nat, m: nat)
    requires n <= m <= |trace|
    ensures Hits(trace, line, n) <= Hits(trace, line, m)
    decreases m
  {
    if n < m {
      HitsGrow(trace, line, n, m - 1);
    }
  }

  // ---- The interpreter under the session's single breakpoint ----

  ghost predicate HitBefore(trace: seq<Event>, line: u32, index: u64, n: int)
    requires 0 <= n <= |trace|
  {
    exists j | 0 <= j < n :: Executes(trace, line, index, j) && NoBoundary(trace, j, n)
  }

  function Armed(line: u32): set<u64> { if line == 0 then {} else {line} }

  /** After n events the table of last lines holds exactly the work-items that
      have had their hit in the kernel invocation still running. */
  ghost predicate Remembers(trace: seq<Event>, line: u32, lastLine: map<u64, u64>, n: nat)
    requires n <= |trace|
  {
    && (line > 0 ==> forall index: u64 :: index in lastLine <==> HitBefore(trace, line, index, n))
    && (forall index | index in lastLine :: lastLine[index] == line)
  }

  /** The host while continuing with only that line armed: it has halted at
      exactly the hits so far. */
  ghost predicate OnTrack(trace: seq<Event>, line: u32, sim: Sim) {
    && |sim.trace| <= |trace| && sim.trace == trace[|trace| - |sim.trace|..]
    && sim.log == Hits(trace, line, |trace| - |sim.trace|)
    && sim.p.lines == Armed(line) && sim.p.mode == Running
    && Remembers(trace, line, sim.p.lastLine, |trace| - |sim.trace|)
  }

  lemma HitBeforeMovesOn(trace: seq<Event>, line: u32, index: u64, n: nat)
    requires n < |trace|
    ensures HitBefore(trace, line, index, n + 1) <==>
      !Boundary(trace[n]) && (Executes(trace, line, index, n) || HitBefore(trace, line, index, n))
  {
    if HitBefore(trace, line, index, n + 1) {
      var j :| 0 <= j < n + 1 && Executes(trace, line, index, j) && NoBoundary(trace, j, n + 1);
      if j < n {
        assert NoBoundary(trace, j, n);
      }
    }
    if !Boundary(trace[n]) {
      if Executes(trace, line, index, n) {
        assert NoBoundary(trace, n, n + 1);
      } else if HitBefore(trace, line, index, n) {
        var j :| 0 <= j < n && Executes(trace, line, index, j) && NoBoundary(trace, j, n);
        assert NoBoundary(trace, j, n + 1);
      }
    }
  }

  lemma HitIsNotBefore(trace: seq<Event>, line: u32, n: nat)
    requires n < |trace| && line > 0 && trace[n].Instruction? && trace[n].line == line
    ensures IsHit(trace, line, n) <==> !HitBefore(trace, line, trace[n].item.index, n)
  {
  }

  lemma RemembersOn(trace: seq<Event>, line: u32, lastLine: map<u64, u64>, n: nat)
    requires n < |trace| && Remembers(trace, line, lastLine, n)
    ensures var e := trace[n];
      Remembers(trace, line,
                if Boundary(e) then map[]
                else if line > 0 && e.line == line then lastLine[e.item.index := line]
                else lastLine, n + 1)
  {
    hide HitBefore;
    if line > 0 {
      forall index: u64 ensures HitBefore(trace, line, index, n + 1) <==>
        !Boundary(trace[n]) && (Executes(trace, line, index, n) || HitBefore(trace, line, index, n))
      {
        HitBeforeMovesOn(trace, line, index, n);
      }
      var e := trace[n];
      var after := if Boundary(e) then map[] else if e.line == line then lastLine[e.item.index := line as u64] else lastLine;
      forall index: u64 ensures index in after <==> HitBefore(trace, line, index, n + 1) {
        if Executes(trace, line, index, n) {
          assert index in after;
        }
      }
    }
  }

  /** On track the interpreter halts at exactly the hits. */
  lemma HaltsAtHits(trace: seq<Event>, line: u32, p: State, n: nat)
    requires n < |trace| && Remembers(trace, line, p.lastLine, n) && p.lines == Armed(line) && p.mode == Running
    ensures Observe(p, trace[n]).1 <==> IsHit(trace, line, n)
  {
    hide HitBefore;
    var e := trace[n];
    if line > 0 && e.Instruction? && e.line == line {
      HitIsNotBefore(trace, line, n);
    }
  }

  lemma ObserveRemembers(trace: seq<Event>, line: u32, p: State, n: nat)
    requires n < |trace| && Remembers(trace, line, p.lastLine, n) && p.lines == Armed(line) && p.mode == Running
    ensures var q := Observe(p, trace[n]).0;
      Remembers(trace, line, q.lastLine, n + 1) && q.lines == p.lines && q.mode == Running
  {
    hide HitBefore;
    RemembersOn(trace, line, p.lastLine, n);
    var e := trace[n];
    if e.Instruction? && line > 0 && e.line == line && e.item.index in p.lastLine {
      assert p.lastLine[e.item.index := line as u64] == p.lastLine;
    }
  }

  lemma ObserveStaysOnTrack(trace: seq<Event>, line: u32, sim: Sim)
    requires OnTrack(trace, line, sim) && sim.trace != []
    ensures var e := sim.trace[0]; var (q, halts) := Observe(sim.p, e);
      OnTrack(trace, line, sim.(p := q, trace := sim.trace[1..],
                                log := if halts then sim.log + [Halt(e.item, e.line, |sim.trace| - 1)] else sim.log))
  {
    var e, n := sim.trace[0], |trace| - |sim.trace|;
    assert e == trace[n] && sim.trace[1..] == trace[n + 1..];
    HaltsAtHits(trace, line, sim.p, n);
    ObserveRemembers(trace, line, sim.p, n);
    HitHasLine(trace, line, n);
    hide Observe, Remembers, IsHit;
    assert Hits(trace, line, n + 1) ==
      if IsHit(trace, line, n) then Hits(trace, line, n) + [Halt(e.item, line, |trace| - (n + 1))]
      else Hits(trace, line, n);
  }

  lemma HitHasLine(trace: seq<Event>, line: u32, n: nat)
    requires n < |trace|
    ensures IsHit(trace, line, n) ==> trace[n].Instruction? && trace[n].line == line
  {
  }

  lemma {:induction false} RunOnStaysOnTrack(trace: seq<Event>, line: u32, sim: Sim)
    requires OnTrack(trace, line, sim)
    ensures var r := RunOn(sim);
      && OnTrack(trace, line, r)
      && (r.host == Serving ==> |r.log| == |sim.log| + 1 && |r.trace| < |sim.trace|)
      && (r.host == Exited ==> r.log == sim.log && r.trace == [])
    decreases |sim.trace|
  {
    hide OnTrack, Observe;
    if sim.trace != [] {
      ObserveStaysOnTrack(trace, line, sim);
      var (q, halts) := Observe(sim.p, sim.trace[0]);
      if halts {
        OnTrackAnyHost(trace, line, sim.(p := q, trace := sim.trace[1..],
          log := sim.log + [Halt(sim.trace[0].item, sim.trace[0].line, |sim.trace| - 1)]), Serving);
      } else {
        assert sim.(log := sim.log) == sim;
        RunOnStaysOnTrack(trace, line, sim.(p := q, trace := sim.trace[1..]));
      }
    } else {
      OnTrackAnyHost(trace, line, sim, Exited);
    }
  }

  lemma OnTrackAnyHost(trace: seq<Event>, line: u32, sim: Sim, host: Host)
    requires OnTrack(trace, line, sim)
    ensures OnTrack(trace, line, sim.(host := host))
  {
  }

  // ---- The session ----

  /** Between the session's operations: everything halted for so far has been
      reported, and nothing else. */
  ghost predicate InSession(trace: seq<Event>, line: u32, w: World) {
    && Ready(w) && OnTrack(trace, line, w.sim) && w.b.notified == Report(w.sim.log) && w.sim.host != Absent
    && (w.sim.host == Exited ==> w.sim.trace == [])
  }

  predicate AllOneLine(exprs: seq<string>) {
    forall i | 0 <= i < |exprs| :: OneLine(exprs[i])
  }

  /** How many of the first n expressions are sent: all but empty ones. */
  function Sent(exprs: seq<string>, n: nat): nat
    requires n <= |exprs|
  {
    if n == 0 then 0 else Sent(exprs, n - 1) + if exprs[n - 1] == "" then 0 else 1
  }

  /** The plugin as it meets the n-th expression. */
  function Asked(p: State, exprs: seq<string>, n: nat): State
    requires n <= |exprs|
  {
    p.(served := p.served + Sent(exprs, n))
  }

  /** The stop callback: evaluates every requested expression, each to the text
      Oclgrind then prints for it in the work-item that stopped. Evaluating
      changes nothing but the count of commands served. */
  method EvaluateAll(o: Oclgrind, ghost trace: seq<Event>, line: u32, w: World, exprs: seq<string>,
                     ghost ops: seq<Op>)
    returns (v: World, values: seq<Option<string>>, ghost more: seq<Op>)
    requires InSession(trace, line, w) && AllOneLine(exprs) && ReachedBy(o, trace, ops, w)
    requires w.b.halted && w.b.attached
    ensures InSession(trace, line, v) && ReachedBy(o, trace, more, v)
    ensures v.b == w.b && v.sim == w.sim.(p := Asked(w.sim.p, exprs, |exprs|)) && |values| == |exprs|
    ensures forall i | 0 <= i < |exprs| :: Answers.IsTextOf(o, Asked(w.sim.p, exprs, i), exprs[i], values[i])
  {
    hide InSession, Perform, ReachedBy, Answers.IsTextOf, Asked, AllOneLine, Lawful, Ready;
    NoneAsked(w.sim.p, exprs);
    v, values, more := w, [], ops;
    for i := 0 to |exprs|
      invariant InSession(trace, line, v) && ReachedBy(o, trace, more, v)
      invariant v.b == w.b && v.sim == w.sim.(p := Asked(w.sim.p, exprs, i)) && |values| == i
      invariant forall j | 0 <= j < i :: Answers.IsTextOf(o, Asked(w.sim.p, exprs, j), exprs[j], values[j])
    {
      OneAsked(w.sim.p, exprs, i, v.b);
      EvaluateStays(o, trace, line, v, exprs[i]);
      OneMore(o, trace, more, v, Evaluate(exprs[i]));
      v, more := Perform(o, v, Evaluate(exprs[i])), more + [Evaluate(exprs[i])];
      values := values + [v.result.text];
    }
  }

  lemma NoneAsked(p: State, exprs: seq<string>)
    ensures Asked(p, exprs, 0) == p
  {
  }

  lemma OneAsked(p: State, exprs: seq<string>, i: nat, b: Debugger)
    requires i < |exprs| && AllOneLine(exprs)
    ensures var q := Asked(p, exprs, i);
      Asked(p, exprs, i + 1) == q.(served := q.served + if exprs[i] == "" then 0 else 1)
    ensures OneLine(exprs[i]) && Lawful(b, Evaluate(exprs[i]))
  {
  }

  lemma EvaluateStays(o: Oclgrind, trace: seq<Event>, line: u32, w: World, name: string)
    requires InSession(trace, line, w) && OneLine(name) && w.b.halted && w.b.attached
    ensures var v := Perform(o, w, Evaluate(name));
      && InSession(trace, line, v) && v.b == w.b
      && v.sim == w.sim.(p := w.sim.p.(served := w.sim.p.served + if name == "" then 0 else 1))
      && v.result.Value? && Answers.IsTextOf(o, w.sim.p, name, v.result.text)
  {
    hide Handle, Hits, Remembers, TablesAgree, PrintedFrom, Answers.IsTextOf;
    if name == "" {
      NoWordNoText(o, w.sim.p);
    } else {
      AskIsSound(o, w, Evaluate(name));
      Answers.EvaluateReturnsText(o, w, name);
    }
  }

  lemma NoWordNoText(o: Oclgrind, p: State)
    ensures Answers.IsTextOf(o, p, "", None)
  {
  }

  lemma ResumeStays(o: Oclgrind, trace: seq<Event>, line: u32, w: World)
    requires InSession(trace, line, w) && w.b.halted
    ensures var v := Perform(o, w, Resume);
      && InSession(trace, line, v)
      && (v.b.halted ==> v.b.attached && |v.sim.log| == |w.sim.log| + 1 && |v.sim.trace| < |w.sim.trace|)
      && (v.b.halted ==> v.sim.log[..|w.sim.log|] == w.sim.log && v.sim.p.current == Some(v.sim.log[|w.sim.log|].item))
      && (!v.b.halted ==> v.sim.host == Exited && v.sim.log == w.sim.log && v.sim.trace == [])
  {
    hide Perform, TablesAgree, Attends, RunOn, OnTrack, FreshIds, Seen, Report, Lawful, SameRun, Begin, Sound;
    assert Lawful(w.b, Resume) by {
      ResumeIsLawful(w.b);
    }
    OperationKeepsAgreement(o, w, Resume);
    OperationEffect(o, w, Resume);
    ResumedIsAttached(o, w);
    var v := Perform(o, w, Resume);
    var sim := w.sim.(p := Resumed(o, w, Resume).value);
    ModeAgain(trace, line, w.sim, sim);
    RunOnStaysOnTrack(trace, line, sim);
    RunOnKeeps(sim);
    if v.sim.host == Serving {
      ReportGrows(w.sim.log, v.sim.log);
    }
  }

  lemma ResumedIsAttached(o: Oclgrind, w: World)
    requires Ready(w) && w.b.halted
    ensures var v := Perform(o, w, Resume); v.b.halted ==> v.b.attached
  {
    hide Handle, Ready, RunOn;
    ResumeHandled(o, w.sim.p);
    Resumes(o, w, "continue");
  }

  lemma ResumeIsLawful(b: Debugger)
    ensures Lawful(b, Resume)
  {
  }

  lemma ModeAgain(trace: seq<Event>, line: u32, sim: Sim, next: Sim)
    requires OnTrack(trace, line, sim)
    requires next == sim.(p := sim.p.(mode := Running, served := next.p.served))
    ensures OnTrack(trace, line, next)
  {
  }

  function Prepared(o: Oclgrind, trace: seq<Event>, line: u32): World {
    if line > 0 then Perform(o, Start(trace), SetBreakpoint(line)) else Start(trace)
  }

  lemma PreparedIsReady(o: Oclgrind, trace: seq<Event>, line: u32)
    ensures var w := Prepared(o, trace, line);
      && w.result != Id(0) && Ready(w) && w.sim == Start(trace).sim && w.b.notified == []
      && w.b.nextId < U64 - 1
      && w.b.breakpoints == if line > 0 then map[1 := line as u64] else map[]
  {
    hide Handle, Deliver;
  }

  lemma OneLineArmed(p: State, b: Debugger, line: u32)
    requires TablesAgree(b, p) && b.breakpoints == if line > 0 then map[1 := line as u64] else map[]
    ensures p.lines == Armed(line)
  {
    forall l ensures l in p.lines <==> l in Armed(line) {
      if line > 0 {
        assert p.ids[1] == line;
        assert Uses(p.ids, line);
      }
    }
  }

  lemma StartsOnTrack(o: Oclgrind, trace: seq<Event>, line: u32)
    ensures var v := Perform(o, Prepared(o, trace, line), Launch);
      InSession(trace, line, v) && v.b.halted && v.sim.log == []
  {
    hide Perform, Handle, Prepared;
    PreparedIsReady(o, trace, line);
    var w := Prepared(o, trace, line);
    LaunchIsSound(o, w);
    var v := Perform(o, w, Launch);
    OneLineArmed(v.sim.p, v.b, line);
    assert trace[0..] == trace;
  }

  /** The world reached by a lawful list of operations. */
  ghost predicate ReachedBy(o: Oclgrind, trace: seq<Event>, ops: seq<Op>, w: World) {
    LawfulRun(o, Start(trace), ops) && w == Run(o, Start(trace), ops)
  }

  lemma OneMore(o: Oclgrind, trace: seq<Event>, ops: seq<Op>, w: World, op: Op)
    requires ReachedBy(o, trace, ops, w) && Lawful(w.b, op)
    ensures ReachedBy(o, trace, ops + [op], Perform(o, w, op))
  {
    hide Perform, Lawful;
    assert (ops + [op])[..|ops|] == ops;
  }

  /** A session is over as it should: the hits reported are the first of the
      line, as many as the limit allows (all of them when the limit is 0), and
      the program has run to completion. */
  ghost predicate Completes(trace: seq<Event>, breakAt: u32, breakFor: nat, hits: nat, b: Debugger, sim: Sim) {
    var all := Report(Hits(trace, breakAt, |trace|));
    && hits == (if breakFor == 0 || |all| < breakFor then |all| else breakFor)
    && b.notified == all[..hits]
    && sim.host == Exited && sim.trace == [] && !b.halted
  }

  /** The two processes, run concurrently, have carried out the operations. */
  ghost predicate Carried(o: Oclgrind, trace: seq<Event>, ops: seq<Op>, turns: seq<Lockstep.Turn>, t: Lockstep.System) {
    Lockstep.Reaches(o, Lockstep.Initial(trace), turns, t) && t.pc.Idle? && t.ops == ops
  }

  /** Lockstep carries a session over to every schedule of the two processes,
      and there is one. */
  lemma AnySchedule(o: Oclgrind, trace: seq<Event>, ops: seq<Op>, w: World)
    requires ReachedBy(o, trace, ops, w)
    ensures forall turns, t | Carried(o, trace, ops, turns, t) ::
      t.b == w.b && t.sim == w.sim && Lockstep.Content(t.down) == "" && Lockstep.Content(t.up) == ""
    ensures exists turns, t :: Carried(o, trace, ops, turns, t)
  {
    hide Run, LawfulRun, Ready, Lockstep.Reaches, Lockstep.Content, Lockstep.Enabled;
    forall turns, t | Carried(o, trace, ops, turns, t)
      ensures t.b == w.b && t.sim == w.sim && Lockstep.Content(t.down) == "" && Lockstep.Content(t.up) == ""
    {
      Lockstep.LockstepHolds(o, trace, turns, t);
    }
    var turns, t := Lockstep.CanRun(o, trace, ops);
    assert Carried(o, trace, ops, turns, t);
  }

  /** The values are what Oclgrind prints for the expressions, one after the other,
      while the work-item is current. */
  ghost predicate Shows(o: Oclgrind, item: WorkItem, exprs: seq<string>, values: seq<Option<string>>) {
    exists p: State :: p.current == Some(item) && ShowsAt(o, p, exprs, values)
  }

  ghost predicate ShowsAt(o: Oclgrind, p: State, exprs: seq<string>, values: seq<Option<string>>) {
    |values| == |exprs| && forall i | 0 <= i < |exprs| :: Answers.IsTextOf(o, Asked(p, exprs, i), exprs[i], values[i])
  }

  /** run_oclgrind_session. Whatever the kernel does, the session reports exactly
      the first hits of the line, one for each kernel invocation and work-item
      that reaches the line, in order of execution; it counts them right; and it
      ends with the program run to completion. So do the two processes, under
      any schedule that carries out the operations it performs. At each hit the
      expressions are evaluated in the work-item that hit. */
  method RunOclgrindSession(o: Oclgrind, trace: seq<Event>, breakAt: u32, breakFor: nat, exprs: seq<string>)
    returns (hits: nat, printed: seq<seq<Option<string>>>, w: World, ghost ops: seq<Op>)
    requires AllOneLine(exprs)
    ensures ReachedBy(o, trace, ops, w) && Completes(trace, breakAt, breakFor, hits, w.b, w.sim)
    ensures hits <= |Hits(trace, breakAt, |trace|)| && |printed| == hits
    ensures forall k | 0 <= k < hits :: Shows(o, Hits(trace, breakAt, |trace|)[k].item, exprs, printed[k])
    ensures forall turns, t | Carried(o, trace, ops, turns, t) ::
      Completes(trace, breakAt, breakFor, hits, t.b, t.sim)
    ensures exists turns, t :: Carried(o, trace, ops, turns, t)
  {
    hide InSession, OnTrack, Ready, Perform, ReachedBy, Carried, Shows;
    w, ops, printed := Start(trace), [], [];
    StartReached(o, trace);
    PreparedIsReady(o, trace, breakAt);
    StartsOnTrack(o, trace, breakAt);
    if breakAt > 0 {
      OneMore(o, trace, ops, w, SetBreakpoint(breakAt));
      w, ops := Perform(o, w, SetBreakpoint(breakAt)), ops + [SetBreakpoint(breakAt)];
      assert w.result != Id(0);  // registering before launch cannot fail
    }
    hits := 0;
    OneMore(o, trace, ops, w, Launch);
    w, ops := Perform(o, w, Launch), ops + [Launch];

    var values;
    w, hits, values, ops := ResumeAndReport(o, trace, breakAt, w, hits, exprs, ops);
    printed := printed + values;
    while w.b.halted && (breakFor == 0 || hits < breakFor)
      invariant InSession(trace, breakAt, w) && hits == |w.sim.log| && ReachedBy(o, trace, ops, w)
      invariant |printed| == hits && forall k | 0 <= k < hits :: Shows(o, w.sim.log[k].item, exprs, printed[k])
      invariant w.b.halted ==> hits > 0
      invariant breakFor == 0 || hits <= breakFor
      invariant !w.b.halted ==> w.sim.host == Exited && w.sim.trace == []
      decreases |w.sim.trace|, w.b.halted
    {
      w, hits, values, ops := ResumeAndReport(o, trace, breakAt, w, hits, exprs, ops);
      printed := printed + values;
    }
    SessionTotals(trace, breakAt, w);
    DetachEnds(o, w, trace, breakAt);
    OneMore(o, trace, ops, w, Detach);
    w, ops := Perform(o, w, Detach), ops + [Detach];
    AnySchedule(o, trace, ops, w);
  }

  /** One resume, and the stop callback if it ends in a stop. */
  method ResumeAndReport(o: Oclgrind, trace: seq<Event>, line: u32, w: World, hits: nat, exprs: seq<string>,
                         ghost ops: seq<Op>)
    returns (v: World, now: nat, printed: seq<seq<Option<string>>>, ghost more: seq<Op>)
    requires InSession(trace, line, w) && w.b.halted && hits == |w.sim.log| && AllOneLine(exprs)
    requires ReachedBy(o, trace, ops, w)
    ensures InSession(trace, line, v) && now == |v.sim.log| && ReachedBy(o, trace, more, v)
    ensures v.b.halted ==> now == hits + 1 && |v.sim.trace| < |w.sim.trace|
    ensures !v.b.halted ==> now == hits && v.sim.host == Exited && v.sim.trace == []
    ensures |v.sim.trace| <= |w.sim.trace| && v.sim.log[..hits] == w.sim.log
    ensures v.b.halted ==> |printed| == 1 && Shows(o, v.sim.log[hits].item, exprs, printed[0])
    ensures !v.b.halted ==> printed == []
  {
    hide InSession, OnTrack, Ready, Perform, ReachedBy, Answers.IsTextOf;
    ResumeStays(o, trace, line, w);
    OneMore(o, trace, ops, w, Resume);
    v, now, printed, more := Perform(o, w, Resume), hits, [], ops + [Resume];
    if v.b.halted {
      now := now + 1;
      var values;
      ghost var p := v.sim.p;
      v, values, more := EvaluateAll(o, trace, line, v, exprs, more);
      assert ShowsAt(o, p, exprs, values);
      printed := [values];
    }
  }

  lemma StartReached(o: Oclgrind, trace: seq<Event>)
    ensures ReachedBy(o, trace, [], Start(trace))
  {
  }

  lemma SessionTotals(trace: seq<Event>, line: u32, w: World)
    requires InSession(trace, line, w)
    ensures w.sim.log <= Hits(trace, line, |trace|)
    ensures w.b.notified == Report(Hits(trace, line, |trace|))[..|w.sim.log|]
    ensures w.sim.trace == [] ==> w.sim.log == Hits(trace, line, |trace|)
  {
    HitsGrow(trace, line, |trace| - |w.sim.trace|, |trace|);
  }

  lemma DetachEnds(o: Oclgrind, w: World, trace: seq<Event>, line: u32)
    requires InSession(trace, line, w)
    ensures var v := Perform(o, w, Detach);
      v.sim.host == Exited && v.sim.trace == [] && !v.b.halted && v.b.notified == w.b.notified
  {
    DrainExits(w.sim);
  }
}
