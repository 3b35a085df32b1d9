/** Whole runs of the debugger over an arbitrary instruction trace: where halts
    happen, what the debugger is told of them, and that no work-item stops twice
    running on one line. */
module Halts {
  import opened Types
  import opened Plugin
  import opened Backend
  import opened Session
  import opened Agreement

  // ---- The log against the trace ----

  predicate Boundary(e: Event) { e.KernelBegin? || e.KernelEnd? }

  /** Where in the trace a halt happened. */
  function At(trace: seq<Event>, h: Halt): int { |trace| - 1 - h.left }

  predicate NoBoundary(trace: seq<Event>, from: int, to: int)
    requires 0 <= from && to <= |trace|
  {
    forall k | from <= k < to :: !Boundary(trace[k])
  }

  /** Every halt is an instruction of the trace that has a line, and they come
      in trace order. */
  ghost predicate Logged(trace: seq<Event>, log: seq<Halt>, left: nat) {
    && (forall i | 0 <= i < |log| :: left <= log[i].left < |trace| && log[i].line != 0
          && trace[At(trace, log[i])] == Instruction(log[i].item, log[i].line))
    && (forall i, j | 0 <= i < j < |log| :: log[i].left > log[j].left)
  }

  /** The line a work-item last halted at in the kernel invocation still running
      when `left` events were to come: the newest log entry of that item, unless
      a kernel has begun or ended since. */
  function Recent(trace: seq<Event>, log: seq<Halt>, left: nat, index: u64): Option<u64>
    requires left <= |trace| && forall i | 0 <= i < |log| :: left <= log[i].left < |trace|
  {
    if log == [] then None
    else
      var last := log[|log| - 1];
      if !NoBoundary(trace, At(trace, last), |trace| - left) then None
      else if last.item.index == index then Some(last.line)
      else Recent(trace, log[..|log| - 1], left, index)
  }

  function Lookup(m: map<u64, u64>, index: u64): Option<u64> {
    if index in m then Some(m[index]) else None
  }

  /** No work-item halts at the line where it halted last in the same kernel
      invocation. */
  ghost predicate NoRepeats(trace: seq<Event>, log: seq<Halt>)
    requires Logged(trace, log, 0)
  {
    forall j | 0 <= j < |log| :: !Repeats(trace, log, j)
  }

  ghost predicate Repeats(trace: seq<Event>, log: seq<Halt>, j: int)
    requires Logged(trace, log, 0) && 0 <= j < |log|
  {
    exists i | 0 <= i < j ::
      && log[i].item.index == log[j].item.index && log[i].line == log[j].line
      && NoBoundary(trace, At(trace, log[i]), At(trace, log[j]))
      && forall k | i < k < j :: log[k].item.index != log[j].item.index
  }

  /** The size of the kernel running after the first n events, if one is. */
  function KernelAt(trace: seq<Event>, n: nat): Option<Size3>
    requires n <= |trace|
  {
    if n == 0 then None
    else
      match trace[n - 1]
      case KernelBegin(size) => Some(size)
      case KernelEnd => None
      case Instruction(_, _) => KernelAt(trace, n - 1)
  }

  /** The plugin knows the running kernel, and its last-line table tells exactly
      what the log says. */
  ghost predicate Faithful(trace: seq<Event>, sim: Sim) {
    && |sim.trace| <= |trace| && sim.trace == trace[|trace| - |sim.trace|..]
    && sim.p.kernel == KernelAt(trace, |trace| - |sim.trace|)
    && Logged(trace, sim.log, |sim.trace|)
    && (forall index: u64 :: Lookup(sim.p.lastLine, index) == Recent(trace, sim.log, |sim.trace|, index))
    && NoRepeats(trace, sim.log)
  }

  lemma {:induction false} RecentMovesOn(trace: seq<Event>, log: seq<Halt>, left: nat, index: u64)
    requires 0 < left <= |trace| && Logged(trace, log, left)
    ensures Recent(trace, log, left - 1, index) ==
      if Boundary(trace[|trace| - left]) then None else Recent(trace, log, left, index)
  {
    if log != [] {
      var last := log[|log| - 1];
      var k := |trace| - left;
      if Boundary(trace[k]) {
        assert !NoBoundary(trace, At(trace, last), k + 1);
      } else {
        assert NoBoundary(trace, At(trace, last), k) <==> NoBoundary(trace, At(trace, last), k + 1);
        RecentMovesOn(trace, log[..|log| - 1], left, index);
      }
    }
  }

  /** A repeat would be seen in the table. */
  lemma {:induction false} RecentFinds(trace: seq<Event>, log: seq<Halt>, left: nat, index: u64, i: nat)
    requires left <= |trace| && Logged(trace, log, left) && i < |log|
    requires log[i].item.index == index
    requires forall k | i < k < |log| :: log[k].item.index != index
    requires NoBoundary(trace, At(trace, log[i]), |trace| - left)
    ensures Recent(trace, log, left, index) == Some(log[i].line)
  {
    var n := |log| - 1;
    assert At(trace, log[n]) >= At(trace, log[i]);
    if i < n {
      RecentFinds(trace, log[..n], left, index, i);
    }
  }

  lemma ObserveIsFaithful(trace: seq<Event>, sim: Sim)
    requires Faithful(trace, sim) && sim.trace != []
    ensures var e := sim.trace[0]; var (q, halts) := Observe(sim.p, e);
      Faithful(trace, sim.(p := q, trace := sim.trace[1..],
                           log := if halts then sim.log + [Halt(e.item, e.line, |sim.trace| - 1)] else sim.log))
  {
    var e, left := sim.trace[0], |sim.trace|;
    assert e == trace[|trace| - left];
    var (q, halts) := Observe(sim.p, e);
    forall index: u64 ensures Recent(trace, sim.log, left - 1, index) ==
      if Boundary(e) then None else Lookup(sim.p.lastLine, index)
    {
      RecentMovesOn(trace, sim.log, left, index);
    }
    if halts {
      HaltIsFaithful(trace, sim, e.item, e.line);
    }
  }

  /** A halt's entry in the table is what the longer log says. */
  lemma HaltIsRecentAt(trace: seq<Event>, log: seq<Halt>, h: Halt, index: u64)
    requires h.left < |trace| && Logged(trace, log, h.left) && Logged(trace, log + [h], h.left)
    ensures Recent(trace, log + [h], h.left, index) ==
      if h.item.index == index then Some(h.line as u64) else Recent(trace, log, h.left, index)
  {
    var all := log + [h];
    assert all[..|all| - 1] == log && all[|all| - 1] == h;
    assert trace[At(trace, h)] == Instruction(h.item, h.line);
    assert NoBoundary(trace, At(trace, h), |trace| - h.left);
  }

  lemma HaltIsRecent(trace: seq<Event>, log: seq<Halt>, h: Halt, table: map<u64, u64>)
    requires h.left < |trace| && Logged(trace, log, h.left) && Logged(trace, log + [h], h.left)
    requires forall index: u64 :: Recent(trace, log, h.left, index) == Lookup(table, index)
    ensures var now := table[h.item.index := h.line as u64];
      forall index: u64 :: Lookup(now, index) == Recent(trace, log + [h], h.left, index)
  {
    hide Recent;
    var now := table[h.item.index := h.line as u64];
    forall index: u64 ensures Lookup(now, index) == Recent(trace, log + [h], h.left, index) {
      HaltIsRecentAt(trace, log, h, index);
      assert Recent(trace, log, h.left, index) == Lookup(table, index);
    }
  }

  lemma OldRepeats(trace: seq<Event>, log: seq<Halt>, h: Halt, j: int)
    requires Logged(trace, log, 0) && Logged(trace, log + [h], 0) && 0 <= j < |log|
    requires Repeats(trace, log + [h], j)
    ensures Repeats(trace, log, j)
  {
    var all := log + [h];
    assert forall k | 0 <= k < |log| :: all[k] == log[k];
    var i :| 0 <= i < j && all[i].item.index == all[j].item.index && all[i].line == all[j].line
      && NoBoundary(trace, At(trace, all[i]), At(trace, all[j]))
      && forall k | i < k < j :: all[k].item.index != all[j].item.index;
    assert log[i].item.index == log[j].item.index;
  }

  lemma NewRepeatIsRecent(trace: seq<Event>, log: seq<Halt>, h: Halt)
    requires Logged(trace, log, h.left) && Logged(trace, log + [h], h.left)
    requires Repeats(trace, log + [h], |log|)
    ensures Recent(trace, log, h.left, h.item.index) == Some(h.line as u64)
  {
    hide Recent;
    var all, n := log + [h], |log|;
    assert all[n] == h && forall k | 0 <= k < n :: all[k] == log[k];
    var i :| 0 <= i < n && all[i].item.index == h.item.index && all[i].line == h.line
      && NoBoundary(trace, At(trace, all[i]), At(trace, h))
      && forall k | i < k < n :: all[k].item.index != h.item.index;
    assert !Boundary(trace[At(trace, h)]);
    assert NoBoundary(trace, At(trace, log[i]), |trace| - h.left);
    RecentFinds(trace, log, h.left, h.item.index, i);
  }

  lemma HaltDoesNotRepeat(trace: seq<Event>, log: seq<Halt>, h: Halt)
    requires h.left < |trace| && Logged(trace, log, h.left) && Logged(trace, log + [h], h.left)
    requires NoRepeats(trace, log)
    requires Recent(trace, log, h.left, h.item.index) != Some(h.line as u64)
    ensures NoRepeats(trace, log + [h])
  {
    hide Repeats, Recent;
    forall j | 0 <= j <= |log| ensures !Repeats(trace, log + [h], j) {
      if Repeats(trace, log + [h], j) {
        if j < |log| {
          OldRepeats(trace, log, h, j);
        } else {
          NewRepeatIsRecent(trace, log, h);
        }
      }
    }
  }

  lemma HaltIsFaithful(trace: seq<Event>, sim: Sim, item: WorkItem, line: u32)
    requires Faithful(trace, sim) && sim.trace != [] && sim.trace[0] == Instruction(item, line)
    requires ShouldHalt(sim.p, item, line)
    requires forall index: u64 :: Recent(trace, sim.log, |sim.trace| - 1, index) == Lookup(sim.p.lastLine, index)
    ensures Faithful(trace, sim.(p := Observe(sim.p, sim.trace[0]).0, trace := sim.trace[1..],
                                 log := sim.log + [Halt(item, line, |sim.trace| - 1)]))
  {
    hide NoRepeats, Recent, KernelAt;
    var h := Halt(item, line, |sim.trace| - 1);
    assert trace[At(trace, h)] == sim.trace[0];
    assert Logged(trace, sim.log + [h], h.left);
    assert Lookup(sim.p.lastLine, item.index) != Some(line as u64);
    KernelStays(trace, |trace| - |sim.trace|);
    HaltIsRecent(trace, sim.log, h, sim.p.lastLine);
    HaltDoesNotRepeat(trace, sim.log, h);
    hide Lookup, Logged, ShouldHalt;
    assert sim.trace[1..] == trace[|trace| - h.left..];
  }

  lemma KernelStays(trace: seq<Event>, n: nat)
    requires n < |trace| && trace[n].Instruction?
    ensures KernelAt(trace, n + 1) == KernelAt(trace, n)
  {
  }

  lemma {:induction false} RunOnIsFaithful(trace: seq<Event>, sim: Sim)
    requires Faithful(trace, sim)
    ensures Faithful(trace, RunOn(sim))
    decreases |sim.trace|
  {
    hide Faithful, Observe;
    if sim.trace != [] {
      ObserveIsFaithful(trace, sim);
      var (q, halts) := Observe(sim.p, sim.trace[0]);
      if halts {
        FaithfulAnyHost(trace, sim.(p := q, trace := sim.trace[1..],
          log := sim.log + [Halt(sim.trace[0].item, sim.trace[0].line, |sim.trace| - 1)]), Serving);
      } else {
        assert sim.(log := sim.log) == sim;
        RunOnIsFaithful(trace, sim.(p := q, trace := sim.trace[1..]));
      }
    } else {
      FaithfulAnyHost(trace, sim, Exited);
    }
  }

  lemma FaithfulAnyHost(trace: seq<Event>, sim: Sim, host: Host)
    requires Faithful(trace, sim)
    ensures Faithful(trace, sim.(host := host))
  {
  }

  lemma {:induction false} DrainKeepsLog(sim: Sim)
    ensures Drain(sim).log == sim.log
    decreases |sim.trace|
  {
    if sim.trace != [] {
      DrainKeepsLog(sim.(p := Ignore(sim.p, sim.trace[0]), trace := sim.trace[1..]));
    }
  }

  // ---- What the debugger is told ----

  function Report(log: seq<Halt>): (items: seq<OCLWorkItem>)
    ensures |items| == |log| && forall i | 0 <= i < |log| :: items[i] == Seen(log[i])
  {
    seq(|log|, i requires 0 <= i < |log| => Seen(log[i]))
  }

  lemma ReportGrows(log: seq<Halt>, more: seq<Halt>)
    requires |more| == |log| + 1 && more[..|log|] == log
    ensures Report(more) == Report(log) + [Seen(more[|log|])]
  {
    assert more == log + [more[|log|]];
  }

  /** Over any lawful run, under any mix of operations: the stop callback has
      been told of every halt, in order, with the right coordinates and line;
      every halt is a located instruction of the trace; and within one kernel
      invocation the stops of one work-item never repeat a line running. */
  lemma {:induction false} StopsOverRuns(o: Oclgrind, trace: seq<Event>, ops: seq<Op>)
    requires LawfulRun(o, Start(trace), ops)
    ensures var w := Run(o, Start(trace), ops);
      && w.b.notified == Report(w.sim.log)
      && Logged(trace, w.sim.log, 0)
      && NoRepeats(trace, w.sim.log)
      && (w.sim.host != Exited ==> Faithful(trace, w.sim))
    decreases |ops|
  {
    hide Perform, Lawful, Faithful, NoRepeats, Ready, Seen;
    if ops == [] {
      NothingLoggedYet(trace);
    } else {
      var k := |ops| - 1;
      var w := Run(o, Start(trace), ops[..k]);
      StopsOverRuns(o, trace, ops[..k]);
      TablesAgreeOverRuns(o, trace, ops[..k]);
      OperationIsTold(o, trace, w, ops[k]);
    }
  }

  lemma NothingLoggedYet(trace: seq<Event>)
    ensures Faithful(trace, Start(trace).sim) && NoRepeats(trace, [])
  {
  }

  lemma OperationIsTold(o: Oclgrind, trace: seq<Event>, w: World, op: Op)
    requires Ready(w) && Lawful(w.b, op)
    requires w.b.notified == Report(w.sim.log) && Logged(trace, w.sim.log, 0) && NoRepeats(trace, w.sim.log)
    requires w.sim.host != Exited ==> Faithful(trace, w.sim)
    ensures var v := Perform(o, w, op);
      && v.b.notified == Report(v.sim.log) && Logged(trace, v.sim.log, 0) && NoRepeats(trace, v.sim.log)
      && (v.sim.host != Exited ==> Faithful(trace, v.sim))
  {
    if op.Launch? {
      LaunchIsTold(o, trace, w);
    } else if op.Detach? {
      DetachIsTold(o, trace, w);
    } else {
      hide Handle, Selectable, SelectedItem, RunOn, NoRepeats, Faithful, Perform, Ready, Resumed;
      StillServing(o, w, op);
      OperationEffect(o, w, op);
      if Resumed(o, w, op).Some? {
        var q := Resumed(o, w, op).value;
        var v, sim := Perform(o, w, op), w.sim.(p := q);
        ResumedIsFaithful(o, trace, w, op);
        RunOnKeeps(sim);
        RunOnIsFaithful(trace, sim);
        FaithfulLogs(trace, RunOn(sim));
        if v.sim.host == Serving {
          ReportGrows(w.sim.log, v.sim.log);
        }
      } else if w.sim.host != Exited {
        SameRunIsFaithful(trace, w.sim, Perform(o, w, op).sim);
      }
    }
  }

  /** An operation other than launching leaves a host that is not there where it
      is, and running on ends serving or at the end. */
  lemma StillServing(o: Oclgrind, w: World, op: Op)
    requires Ready(w) && Lawful(w.b, op) && !op.Launch? && !op.Detach?
    ensures var v := Perform(o, w, op);
      && (Resumed(o, w, op).None? ==> v.sim.host == w.sim.host)
      && (Resumed(o, w, op).Some? ==> w.sim.host == Serving)
  {
    hide Perform, Handle, Selectable, SelectedItem, RunOn;
    OperationEffect(o, w, op);
  }

  lemma ResumedIsFaithful(o: Oclgrind, trace: seq<Event>, w: World, op: Op)
    requires Faithful(trace, w.sim) && Resumed(o, w, op).Some?
    ensures Faithful(trace, w.sim.(p := Resumed(o, w, op).value))
  {
    hide Selectable, SelectedItem, NoRepeats, Recent, Logged, KernelAt;
  }

  lemma SameRunIsFaithful(trace: seq<Event>, sim: Sim, next: Sim)
    requires Faithful(trace, sim) && next == sim.(p := next.p) && SameRun(next.p, sim.p)
    ensures Faithful(trace, next)
  {
    hide NoRepeats, Recent, Logged, KernelAt;
  }

  lemma FaithfulLogs(trace: seq<Event>, sim: Sim)
    requires Faithful(trace, sim)
    ensures Logged(trace, sim.log, 0) && NoRepeats(trace, sim.log)
  {
    hide NoRepeats, Recent, KernelAt;
  }

  lemma LaunchIsTold(o: Oclgrind, trace: seq<Event>, w: World)
    requires Ready(w) && (w.sim.host != Exited ==> Faithful(trace, w.sim))
    ensures var v := Perform(o, w, Launch);
      v.b.notified == w.b.notified && v.sim.log == w.sim.log && (v.sim.host != Exited ==> Faithful(trace, v.sim))
  {
    hide Settle, Deliver, FreshIds, TablesAgree, Attends, Faithful;
    if w.sim.host == Absent {
      LaunchIsSound(o, w);
      SameRunIsFaithful(trace, w.sim.(host := Serving), Perform(o, w, Launch).sim) by {
        FaithfulAnyHost(trace, w.sim, Serving);
      }
    }
  }

  lemma DetachIsTold(o: Oclgrind, trace: seq<Event>, w: World)
    requires Ready(w) && (w.sim.host != Exited ==> Faithful(trace, w.sim))
    ensures var v := Perform(o, w, Detach);
      v.b.notified == w.b.notified && v.sim.log == w.sim.log && (v.sim.host != Exited ==> Faithful(trace, v.sim))
  {
    hide Faithful, FreshIds, TablesAgree, Attends;
    DrainExits(w.sim);
  }

  // ---- Stepping ----

  predicate ModeAllows(p: State, h: Halt) {
    match p.mode
    case Running => h.line in p.lines
    case StepIn => h.item.index == p.stepIndex
    case StepOver => h.item.index == p.stepIndex && h.item.depth <= p.stepDepth
  }

  /** The interpreter halts exactly where the mode says: on an armed line when
      continuing, in the stepped work-item when stepping, and no deeper than the
      step began when stepping over. */
  lemma {:induction false} RunOnHaltsRight(sim: Sim)
    ensures var r := RunOn(sim);
      r.host == Serving ==> r.log != [] && ModeAllows(sim.p, r.log[|r.log| - 1])
    decreases |sim.trace|
  {
    if sim.trace != [] {
      var (q, halts) := Observe(sim.p, sim.trace[0]);
      if !halts {
        RunOnHaltsRight(sim.(p := q, trace := sim.trace[1..]));
      }
    }
  }

  /** Event i of what is to come deserves a halt: a located instruction the mode
      allows, unless its work-item's last halt, in the kernel invocation it is
      still in, was at that very line. */
  predicate Deserves(p: State, trace: seq<Event>, i: int)
    requires 0 <= i < |trace|
  {
    var e := trace[i];
    e.Instruction? && e.line != 0 && ModeAllows(p, Halt(e.item, e.line, 0)) &&
    !(NoBoundary(trace, 0, i) && Lookup(p.lastLine, e.item.index) == Some(e.line as u64))
  }

  lemma DeservesLater(p: State, q: State, trace: seq<Event>, i: int)
    requires 0 < i < |trace|
    requires q.mode == p.mode && q.lines == p.lines && q.stepIndex == p.stepIndex && q.stepDepth == p.stepDepth
    requires q.lastLine == if Boundary(trace[0]) then map[] else p.lastLine
    ensures Deserves(q, trace[1..], i - 1) <==> Deserves(p, trace, i)
  {
    var rest := trace[1..];
    assert rest[i - 1] == trace[i];
    assert NoBoundary(trace, 0, i) <==> !Boundary(trace[0]) && NoBoundary(rest, 0, i - 1) by {
      if NoBoundary(trace, 0, i) {
        assert !Boundary(trace[0]);
        assert forall k | 0 <= k < i - 1 :: rest[k] == trace[k + 1];
      }
      if !Boundary(trace[0]) && NoBoundary(rest, 0, i - 1) {
        forall k | 0 <= k < i ensures !Boundary(trace[k]) {
          assert k > 0 ==> trace[k] == rest[k - 1];
        }
      }
    }
  }

  predicate IsFirstDeserving(sim: Sim, h: Halt) {
    var at := |sim.trace| - 1 - h.left;
    && 0 <= at < |sim.trace| && sim.trace[at] == Instruction(h.item, h.line)
    && Deserves(sim.p, sim.trace, at)
    && forall j | 0 <= j < at :: !Deserves(sim.p, sim.trace, j)
  }

  /** Resuming halts at the first event that deserves it, no sooner and no later,
      and only when there is none does the program run to its end. */
  lemma {:induction false} RunOnHaltsFirst(sim: Sim)
    ensures var r := RunOn(sim);
      && (r.host == Serving ==> r.log != [] && IsFirstDeserving(sim, r.log[|r.log| - 1]))
      && (r.host == Exited ==> forall j | 0 <= j < |sim.trace| :: !Deserves(sim.p, sim.trace, j))
    decreases |sim.trace|
  {
    if sim.trace != [] {
      var (q, halts) := Observe(sim.p, sim.trace[0]);
      assert NoBoundary(sim.trace, 0, 0);
      assert halts <==> Deserves(sim.p, sim.trace, 0);
      if !halts {
        hide Observe, Deserves;
        var next := sim.(p := q, trace := sim.trace[1..]);
        RunOnHaltsFirst(next);
        forall i | 0 < i < |sim.trace|
          ensures Deserves(q, next.trace, i - 1) <==> Deserves(sim.p, sim.trace, i)
        {
          ObserveLeaves(sim.p, sim.trace[0]);
          DeservesLater(sim.p, q, sim.trace, i);
        }
        assert forall j | 0 < j < |sim.trace| :: !Deserves(q, next.trace, j - 1) ==> !Deserves(sim.p, sim.trace, j);
      }
    }
  }

  lemma ObserveLeaves(p: State, e: Event)
    requires !Observe(p, e).1
    ensures var q := Observe(p, e).0;
      && q.mode == p.mode && q.lines == p.lines && q.stepIndex == p.stepIndex && q.stepDepth == p.stepDepth
      && q.lastLine == if Boundary(e) then map[] else p.lastLine
  {
  }
}
