/** The CPU backend's breakpoints: the backend and the debugger context below it
    number them independently, and every removal relies on the numbers agreeing. */
module CpuBreakpoints {
  import opened Types

  datatype Location = Location(file: string, line: u32)

  datatype Breakpoint = Breakpoint(id: nat, file: string, line: u32, resolved: bool, address: u64)

  /** What the loaded modules can resolve at the time of an operation: a host
      location to its address; and, once the kernel module and its debug
      information are there, a kernel location to an address and its line. */
  datatype Modules = Modules(
    target: bool,
    host: Location -> Option<u64>,
    kernelReady: bool,
    kernel: Location -> Option<(u64, u32)>)

  // ---- The debugger context's registry ----

  datatype Registry = Registry(bps: seq<Breakpoint>, next: nat)

  const Empty := Registry([], 1)

  predicate IsKernel(bp: Breakpoint) {
    bp.file == "" || (|bp.file| >= 3 && bp.file[|bp.file| - 3..] == ".cl")
  }

  function AtHost(m: Modules, bp: Breakpoint): Breakpoint {
    if bp.resolved || IsKernel(bp) then bp
    else
      match m.host(Location(bp.file, bp.line))
      case None => bp
      case Some(address) => bp.(resolved := true, address := address)
  }

  /** A kernel breakpoint moves to the line its address really has. */
  function AtKernel(m: Modules, bp: Breakpoint): Breakpoint {
    if bp.resolved || !IsKernel(bp) then bp
    else
      match m.kernel(Location(bp.file, bp.line))
      case None => bp
      case Some((address, line)) =>
        bp.(resolved := true, address := address, line := if line > 0 then line else bp.line)
  }

  function Resolved(m: Modules, bp: Breakpoint): Breakpoint {
    if !m.target then bp
    else if m.kernelReady then AtKernel(m, AtHost(m, bp))
    else AtHost(m, bp)
  }

  function ResolveAll(m: Modules, bps: seq<Breakpoint>): (r: seq<Breakpoint>)
    ensures |r| == |bps| && forall i | 0 <= i < |bps| :: r[i] == Resolved(m, bps[i])
  {
    seq(|bps|, i requires 0 <= i < |bps| => Resolved(m, bps[i]))
  }

  ghost predicate NewlyResolved(before: seq<Breakpoint>, after: seq<Breakpoint>)
    requires |before| == |after|
  {
    exists i | 0 <= i < |before| :: !before[i].resolved && after[i].resolved
  }

  function Added(r: Registry, loc: Location, m: Modules): Registry {
    Registry(ResolveAll(m, r.bps + [Breakpoint(r.next, loc.file, loc.line, false, 0)]), r.next + 1)
  }

  /** The first breakpoint with the id goes. */
  function Deleted(bps: seq<Breakpoint>, id: nat): seq<Breakpoint> {
    if bps == [] then [] else if bps[0].id == id then bps[1..] else [bps[0]] + Deleted(bps[1..], id)
  }

  lemma KeptOne(bps: seq<Breakpoint>, i: nat, id: nat)
    requires i < |bps| && bps[i].id != id
    ensures bps[..i] + Deleted(bps[i..], id) == bps[..i + 1] + Deleted(bps[i + 1..], id)
  {
    assert bps[i..][1..] == bps[i + 1..];
    assert bps[..i + 1] == bps[..i] + [bps[i]];
  }

  class DebuggerContext {
    var oclBreakpoints: seq<Breakpoint>
    var nextOclBpId: nat

    ghost function Abs(): Registry
      reads this
    {
      Registry(oclBreakpoints, nextOclBpId)
    }

    constructor ()
      ensures Abs() == Empty
    {
      oclBreakpoints, nextOclBpId := [], 1;
    }

    method AddOclBreakpoint(loc: Location, m: Modules) returns (id: nat)
      modifies this
      ensures id == old(nextOclBpId) && Abs() == Added(old(Abs()), loc, m)
    {
      id := nextOclBpId;
      nextOclBpId := nextOclBpId + 1;
      oclBreakpoints := oclBreakpoints + [Breakpoint(id, loc.file, loc.line, false, 0)];
      var _ := ResolvePendingOclBreakpoints(m);
    }

    method DeleteOclBreakpoint(id: nat) returns (found: bool)
      modifies this`oclBreakpoints
      ensures oclBreakpoints == Deleted(old(oclBreakpoints), id)
      ensures found <==> exists i | 0 <= i < |old(oclBreakpoints)| :: old(oclBreakpoints)[i].id == id
    {
      var i := 0;
      while i < |oclBreakpoints|
        invariant 0 <= i <= |oclBreakpoints| && oclBreakpoints == old(oclBreakpoints)
        invariant forall j | 0 <= j < i :: oclBreakpoints[j].id != id
        invariant Deleted(oclBreakpoints, id) == oclBreakpoints[..i] + Deleted(oclBreakpoints[i..], id)
      {
        if oclBreakpoints[i].id == id {
          assert Deleted(oclBreakpoints[i..], id) == oclBreakpoints[i..][1..];
          assert oclBreakpoints[i..][1..] == oclBreakpoints[i + 1..];
          oclBreakpoints := oclBreakpoints[..i] + oclBreakpoints[i + 1..];
          return true;
        }
        KeptOne(oclBreakpoints, i, id);
        i := i + 1;
      }
      assert oclBreakpoints[..i] + [] == oclBreakpoints;
      return false;
    }

    /** Two loops over the registry, updating it in place: host breakpoints, then
        kernel breakpoints once the kernel module is there. */
    method ResolvePendingOclBreakpoints(m: Modules) returns (anyResolved: bool)
      modifies this`oclBreakpoints
      ensures oclBreakpoints == ResolveAll(m, old(oclBreakpoints))
      ensures anyResolved <==> NewlyResolved(old(oclBreakpoints), oclBreakpoints)
    {
      anyResolved := false;
      if !m.target {
        return;
      }
      for i := 0 to |oclBreakpoints|
        invariant |oclBreakpoints| == |old(oclBreakpoints)|
        invariant forall j | 0 <= j < i :: oclBreakpoints[j] == AtHost(m, old(oclBreakpoints)[j])
        invariant forall j | i <= j < |oclBreakpoints| :: oclBreakpoints[j] == old(oclBreakpoints)[j]
        invariant anyResolved <==>
          exists j | 0 <= j < i :: !old(oclBreakpoints)[j].resolved && oclBreakpoints[j].resolved
      {
        var bp := AtHost(m, oclBreakpoints[i]);
        anyResolved := anyResolved || (bp.resolved && !oclBreakpoints[i].resolved);
        oclBreakpoints := oclBreakpoints[i := bp];
      }
      if !m.kernelReady {
        return;
      }
      for i := 0 to |oclBreakpoints|
        invariant |oclBreakpoints| == |old(oclBreakpoints)|
        invariant forall j | 0 <= j < i :: oclBreakpoints[j] == AtKernel(m, AtHost(m, old(oclBreakpoints)[j]))
        invariant forall j | i <= j < |oclBreakpoints| :: oclBreakpoints[j] == AtHost(m, old(oclBreakpoints)[j])
        invariant anyResolved <==>
          exists j | 0 <= j < |oclBreakpoints| :: !old(oclBreakpoints)[j].resolved && oclBreakpoints[j].resolved
      {
        ghost var before := oclBreakpoints;
        var bp := AtKernel(m, oclBreakpoints[i]);
        anyResolved := anyResolved || (bp.resolved && !oclBreakpoints[i].resolved);
        oclBreakpoints := oclBreakpoints[i := bp];
        assert forall j | 0 <= j < |oclBreakpoints| && j != i :: oclBreakpoints[j] == before[j];
      }
    }
  }

  // ---- The backend above it ----

  datatype Cpu = Cpu(pending: map<nat, Location>, next: nat, dbg: Option<Registry>)

  const Unlaunched := Cpu(map[], 1, None)

  /** A launch hands over what is pending while the modules are still as `before`
      says; `ok` tells whether the host program then starts. */
  datatype CpuOp = Set(loc: Location) | Remove(id: nat) | Launch(before: Modules, ok: bool) | Resolve

  /** Launch hands over what is pending in ascending id order. */
  function HandOver(r: Registry, pending: map<nat, Location>, from: nat, next: nat, m: Modules): Registry
    decreases next - from
  {
    if from >= next then r
    else if from in pending then HandOver(Added(r, pending[from], m), pending, from + 1, next, m)
    else HandOver(r, pending, from + 1, next, m)
  }

  function Acted(s: Cpu, op: CpuOp, m: Modules): Cpu {
    match op
    case Set(loc) =>
      Cpu(s.pending[s.next := loc], s.next + 1,
          if s.dbg.Some? then Some(Added(s.dbg.value, loc, m)) else None)
    case Remove(id) =>
      s.(pending := s.pending - {id},
         dbg := if s.dbg.Some? then Some(s.dbg.value.(bps := Deleted(s.dbg.value.bps, id))) else None)
    case Launch(before, ok) =>
      var r := HandOver(if s.dbg.Some? then s.dbg.value else Empty, s.pending, 1, s.next, before);
      s.(dbg := Some(if ok then r.(bps := ResolveAll(m, r.bps)) else r))
    case Resolve =>
      s.(dbg := if s.dbg.Some? then Some(s.dbg.value.(bps := ResolveAll(m, s.dbg.value.bps))) else None)
  }

  function Play(s: Cpu, ops: seq<(CpuOp, Modules)>): Cpu {
    if ops == [] then s else Acted(Play(s, ops[..|ops| - 1]), ops[|ops| - 1].0, ops[|ops| - 1].1)
  }

  predicate NoLaunch(ops: seq<(CpuOp, Modules)>) {
    forall i | 0 <= i < |ops| :: !ops[i].0.Launch?
  }

  ghost predicate ValidIds(s: Cpu) {
    s.next > 0 && forall id | id in s.pending :: 0 < id < s.next
  }

  class PoclCPUBackend {
    const dbg: DebuggerContext
    var hasDbg: bool
    var pendingBps: map<nat, Location>
    var nextBpId: nat

    ghost predicate Valid()
      reads this, dbg
    {
      ValidIds(Abs()) && (!hasDbg ==> dbg.Abs() == Empty)
    }

    ghost function Abs(): Cpu
      reads this, dbg
    {
      Cpu(pendingBps, nextBpId, if hasDbg then Some(dbg.Abs()) else None)
    }

    constructor ()
      ensures Abs() == Unlaunched && Valid() && fresh(dbg)
    {
      dbg := new DebuggerContext();
      hasDbg, pendingBps, nextBpId := false, map[], 1;
    }

    method SetBreakpoint(loc: Location, m: Modules) returns (id: nat)
      requires Valid()
      modifies this, dbg
      ensures Valid() && id == old(nextBpId) && Abs() == Acted(old(Abs()), Set(loc), m)
    {
      id := nextBpId;
      nextBpId := nextBpId + 1;
      pendingBps := pendingBps[id := loc];
      if hasDbg {
        var _ := dbg.AddOclBreakpoint(loc, m);
      }
    }

    method RemoveBreakpoint(id: nat, m: Modules)
      requires Valid()
      modifies this, dbg
      ensures Valid() && Abs() == Acted(old(Abs()), Remove(id), m)
    {
      pendingBps := pendingBps - {id};
      if hasDbg {
        var _ := dbg.DeleteOclBreakpoint(id);
      }
    }

    /** What is pending has been handed over even when the launch then fails. */
    method LaunchHost(before: Modules, ok: bool, m: Modules) returns (launched: bool)
      requires Valid()
      modifies this, dbg
      ensures Valid() && launched == ok && Abs() == Acted(old(Abs()), Launch(before, ok), m)
    {
      hasDbg := true;
      ghost var whole := HandOver(dbg.Abs(), pendingBps, 1, nextBpId, before);
      for id := 1 to nextBpId
        invariant hasDbg && pendingBps == old(pendingBps) && nextBpId == old(nextBpId)
        invariant HandOver(dbg.Abs(), pendingBps, id, nextBpId, before) == whole
      {
        if id in pendingBps {
          var _ := dbg.AddOclBreakpoint(pendingBps[id], before);
        }
      }
      if !ok {
        return false;
      }
      var _ := dbg.ResolvePendingOclBreakpoints(m);
      return true;
    }
  }

  // ---- Agreement of the two numberings ----

  ghost predicate DistinctIds(bps: seq<Breakpoint>) {
    forall i, j | 0 <= i < j < |bps| :: bps[i].id != bps[j].id
  }

  /** The registry lists exactly the pending ids, each once, with the same file,
      and with the same line until it is resolved. */
  ghost predicate Lists(bps: seq<Breakpoint>, pending: map<nat, Location>) {
    && DistinctIds(bps)
    && (forall i | 0 <= i < |bps| :: bps[i].id in pending && bps[i].file == pending[bps[i].id].file)
    && (forall i | 0 <= i < |bps| :: !bps[i].resolved ==> bps[i].line == pending[bps[i].id].line)
    && (forall id | id in pending :: exists i :: 0 <= i < |bps| && bps[i].id == id)
  }

  /** Both sides hold the same breakpoints under the same ids, and will give the
      next one the same id. */
  ghost predicate Agree(s: Cpu) {
    s.dbg.Some? ==> s.dbg.value.next == s.next && Lists(s.dbg.value.bps, s.pending)
  }

  /** No breakpoint set so far has been removed. */
  predicate NothingRemoved(s: Cpu) {
    forall id | 0 < id < s.next :: id in s.pending
  }

  /** The modules can place a breakpoint: a host one wherever the target has its
      location; a kernel one, which has no file or an OpenCL source, once the
      kernel module and its debug information are there. */
  ghost predicate Placeable(m: Modules, bp: Breakpoint) {
    m.target &&
    if bp.file == "" || exists front: string :: bp.file == front + ".cl"
    then m.kernelReady && m.kernel(Location(bp.file, bp.line)).Some?
    else m.host(Location(bp.file, bp.line)).Some?
  }

  lemma KernelFile(bp: Breakpoint)
    ensures IsKernel(bp) <==> bp.file == "" || exists front: string :: bp.file == front + ".cl"
  {
    if IsKernel(bp) && bp.file != "" {
      assert bp.file == bp.file[..|bp.file| - 3] + ".cl";
    }
    if front: string :| bp.file == front + ".cl" {
      assert bp.file[|bp.file| - 3..] == ".cl";
    }
  }

  /** Of several entries with one id only the first goes, and the others stay where
      they are. */
  lemma {:induction false} DeletedIsFirst(bps: seq<Breakpoint>, id: nat, i: nat)
    requires i < |bps| && bps[i].id == id && forall j | 0 <= j < i :: bps[j].id != id
    ensures Deleted(bps, id) == bps[..i] + bps[i + 1..]
  {
    if i > 0 {
      DeletedIsFirst(bps[1..], id, i - 1);
      assert bps[..i] == [bps[0]] + bps[1..][..i - 1];
      assert bps[1..][i..] == bps[i + 1..];
    } else {
      assert bps[..0] + bps[1..] == bps[1..];
    }
  }

  /** One pass, entry by entry: a resolved one is left alone; another is resolved
      exactly if it can be placed, then at the address it is placed at, a kernel
      one with the line of that address if it has one, and otherwise is left as
      it was. */
  lemma PassIs(m: Modules, bps: seq<Breakpoint>, i: nat)
    requires i < |bps|
    ensures var bp, r := bps[i], ResolveAll(m, bps)[i];
      && (bp.resolved || !Placeable(m, bp) ==> r == bp)
      && (!bp.resolved && Placeable(m, bp) ==>
            if bp.file == "" || exists front: string :: bp.file == front + ".cl" then
              var (address, line) := m.kernel(Location(bp.file, bp.line)).value;
              r == Breakpoint(bp.id, bp.file, if line > 0 then line else bp.line, true, address)
            else r == Breakpoint(bp.id, bp.file, bp.line, true, m.host(Location(bp.file, bp.line)).value))
  {
    KernelFile(bps[i]);
    hide IsKernel;
  }

  /** A breakpoint set in a running program is entered last, under the next id, with
      its own file and line; it is resolved right away exactly if it can be. */
  lemma SetAdds(s: Cpu, loc: Location, m: Modules)
    requires s.dbg.Some?
    ensures var r, t := s.dbg.value, Acted(s, Set(loc), m).dbg.value;
      && |t.bps| == |r.bps| + 1
      && var entry := t.bps[|r.bps|];
         && entry.id == r.next && entry.file == loc.file
         && (entry.resolved <==> Placeable(m, Breakpoint(r.next, loc.file, loc.line, false, 0)))
         && (!entry.resolved ==> entry.line == loc.line && entry.address == 0)
  {
    hide Resolved, Placeable;
    var r := s.dbg.value;
    var all := r.bps + [Breakpoint(r.next, loc.file, loc.line, false, 0)];
    PassIs(m, all, |r.bps|);
    if Placeable(m, all[|r.bps|]) {
      PlacedIsResolved(m, all, |r.bps|);
    }
    ResolvingKeepsIdentity(m, all[|r.bps|]);
  }

  /** A pass leaves nothing that could still be placed. */
  ghost predicate NothingLeft(m: Modules, bps: seq<Breakpoint>) {
    forall i | 0 <= i < |bps| :: bps[i].resolved || !Placeable(m, bps[i])
  }

  lemma PassLeavesNothing(m: Modules, bps: seq<Breakpoint>)
    ensures NothingLeft(m, ResolveAll(m, bps))
  {
    hide Resolved, Placeable;
    forall i | 0 <= i < |bps| ensures ResolveAll(m, bps)[i].resolved || !Placeable(m, ResolveAll(m, bps)[i]) {
      PassIs(m, bps, i);
      if !bps[i].resolved && Placeable(m, bps[i]) {
        PlacedIsResolved(m, bps, i);
      }
    }
  }

  lemma PlacedIsResolved(m: Modules, bps: seq<Breakpoint>, i: nat)
    requires i < |bps| && !bps[i].resolved && Placeable(m, bps[i])
    ensures ResolveAll(m, bps)[i].resolved
  {
    hide Resolved;
    PassIs(m, bps, i);
  }

  /** After a breakpoint is set in a running program, after a launch that succeeds
      and after a resolution pass, every breakpoint that can be placed has been. */
  lemma OperationLeavesNothing(s: Cpu, op: CpuOp, m: Modules)
    requires (op.Launch? && op.ok) || (s.dbg.Some? && (op.Set? || op.Resolve?))
    ensures var t := Acted(s, op, m); t.dbg.Some? && NothingLeft(m, t.dbg.value.bps)
  {
    hide ResolveAll, NothingLeft, HandOver;
    match op
    case Set(loc) =>
      var r := s.dbg.value;
      PassLeavesNothing(m, r.bps + [Breakpoint(r.next, loc.file, loc.line, false, 0)]);
    case Launch(before, _) =>
      PassLeavesNothing(m, HandOver(if s.dbg.Some? then s.dbg.value else Empty, s.pending, 1, s.next, before).bps);
    case Resolve => PassLeavesNothing(m, s.dbg.value.bps);
  }

  lemma ResolvingKeepsIdentity(m: Modules, bp: Breakpoint)
    ensures var r := Resolved(m, bp);
      r.id == bp.id && r.file == bp.file && (bp.resolved ==> r == bp) && (!r.resolved ==> r == bp)
  {
  }

  lemma ResolvingKeepsAgreement(s: Cpu, m: Modules)
    requires Agree(s) && s.dbg.Some?
    ensures Agree(s.(dbg := Some(s.dbg.value.(bps := ResolveAll(m, s.dbg.value.bps)))))
  {
    hide Resolved;
    var bps := s.dbg.value.bps;
    var after := ResolveAll(m, bps);
    forall i | 0 <= i < |bps|
      ensures after[i].id == bps[i].id && after[i].file == bps[i].file
      ensures !after[i].resolved ==> !bps[i].resolved && after[i].line == bps[i].line
    {
      ResolvingKeepsIdentity(m, bps[i]);
    }
    forall id | id in s.pending ensures exists i :: 0 <= i < |after| && after[i].id == id {
      var i :| 0 <= i < |bps| && bps[i].id == id;
      assert after[i].id == id;
    }
  }

  lemma SetKeepsAgreement(s: Cpu, loc: Location, m: Modules)
    requires Agree(s) && ValidIds(s)
    ensures Agree(Acted(s, Set(loc), m)) && ValidIds(Acted(s, Set(loc), m))
  {
    hide Resolved;
    if s.dbg.Some? {
      var bps := s.dbg.value.bps;
      var bp := Breakpoint(s.next, loc.file, loc.line, false, 0);
      var t := Cpu(s.pending[s.next := loc], s.next + 1, Some(Registry(bps + [bp], s.next + 1)));
      forall id | id in t.pending ensures exists i :: 0 <= i < |bps + [bp]| && (bps + [bp])[i].id == id {
        if id == s.next {
          assert (bps + [bp])[|bps|].id == id;
        } else {
          var i :| 0 <= i < |bps| && bps[i].id == id;
          assert (bps + [bp])[i].id == id;
        }
      }
      assert Agree(t);
      ResolvingKeepsAgreement(t, m);
    }
  }

  lemma {:induction false} DeletedHas(bps: seq<Breakpoint>, id: nat, bp: Breakpoint)
    requires DistinctIds(bps)
    ensures bp in Deleted(bps, id) <==> bp in bps && bp.id != id
  {
    if bps != [] {
      var rest := bps[1..];
      DeletedHas(rest, id, bp);
      assert bps == [bps[0]] + rest;
      if bps[0].id == id && bp in rest {
        var j :| 0 <= j < |rest| && rest[j] == bp;
        assert bps[j + 1] == bp;
      }
    }
  }

  lemma {:induction false} DeletedDistinct(bps: seq<Breakpoint>, id: nat)
    requires DistinctIds(bps)
    ensures DistinctIds(Deleted(bps, id))
  {
    if bps != [] && bps[0].id != id {
      var rest := bps[1..];
      DeletedDistinct(rest, id);
      var r := Deleted(rest, id);
      forall j | 0 <= j < |r| ensures r[j].id != bps[0].id {
        DeletedHas(rest, id, r[j]);
        assert r[j] in r;
        var k :| 0 <= k < |rest| && rest[k] == r[j];
        assert bps[k + 1] == r[j];
      }
    }
  }

  lemma DeletedLists(bps: seq<Breakpoint>, pending: map<nat, Location>, id: nat)
    requires Lists(bps, pending)
    ensures Lists(Deleted(bps, id), pending - {id})
  {
    hide Deleted, DistinctIds;
    DeletedDistinct(bps, id);
    var r := Deleted(bps, id);
    forall bp ensures bp in r <==> bp in bps && bp.id != id {
      DeletedHas(bps, id, bp);
    }
    forall k | k in pending - {id} ensures exists j :: 0 <= j < |r| && r[j].id == k {
      var i :| 0 <= i < |bps| && bps[i].id == k;
      assert bps[i] in r;
    }
    forall i | 0 <= i < |r| ensures r[i].id in pending - {id} && r[i].file == (pending - {id})[r[i].id].file {
      assert r[i] in bps;
    }
  }

  lemma RemoveKeepsAgreement(s: Cpu, id: nat, m: Modules)
    requires Agree(s) && ValidIds(s)
    ensures Agree(Acted(s, Remove(id), m)) && ValidIds(Acted(s, Remove(id), m))
  {
    hide Lists, Deleted;
    if s.dbg.Some? {
      DeletedLists(s.dbg.value.bps, s.pending, id);
    }
  }

  lemma OperationKeepsAgreement(s: Cpu, op: CpuOp, m: Modules)
    requires Agree(s) && ValidIds(s) && !op.Launch?
    ensures Agree(Acted(s, op, m)) && ValidIds(Acted(s, op, m))
  {
    match op
    case Set(loc) => SetKeepsAgreement(s, loc, m);
    case Remove(id) => RemoveKeepsAgreement(s, id, m);
    case Resolve =>
      if s.dbg.Some? {
        ResolvingKeepsAgreement(s, m);
      }
  }

  /** Handing over the ids from `from` on, when none of them is missing. */
  lemma {:induction false} HandOverAgrees(r: Registry, s: Cpu, from: nat, m: Modules)
    requires NothingRemoved(s) && 0 < from <= s.next
    requires Agree(Cpu(map id | id in s.pending && id < from :: s.pending[id], from, Some(r)))
    requires ValidIds(s)
    ensures Agree(Cpu(s.pending, s.next, Some(HandOver(r, s.pending, from, s.next, m))))
    decreases s.next - from
  {
    hide Resolved;
    var below := map id | id in s.pending && id < from :: s.pending[id];
    if from == s.next {
      assert below == s.pending;
    } else {
      var loc := s.pending[from];
      SetKeepsAgreement(Cpu(below, from, Some(r)), loc, m);
      assert below[from := loc] == map id | id in s.pending && id < from + 1 :: s.pending[id];
      HandOverAgrees(Added(r, loc, m), s, from + 1, m);
    }
  }

  lemma LaunchAgrees(s: Cpu, before: Modules, ok: bool, m: Modules)
    requires ValidIds(s) && s.dbg.None? && NothingRemoved(s)
    ensures Agree(Acted(s, Launch(before, ok), m)) && ValidIds(Acted(s, Launch(before, ok), m))
  {
    hide HandOver, Resolved;
    assert (map id | id in s.pending && id < 1 :: s.pending[id]) == map[];
    HandOverAgrees(Empty, s, 1, before);
    ResolvingKeepsAgreement(Cpu(s.pending, s.next, Some(HandOver(Empty, s.pending, 1, s.next, before))), m);
  }

  lemma {:induction false} HandOverCounts(r: Registry, s: Cpu, from: nat, m: Modules)
    requires from <= s.next
    ensures HandOver(r, s.pending, from, s.next, m).next <= r.next + (s.next - from)
    ensures HandOver(r, s.pending, from, s.next, m).next == r.next + (s.next - from) ==>
      forall id | from <= id < s.next :: id in s.pending
    decreases s.next - from
  {
    hide Resolved;
    if from < s.next {
      HandOverCounts(if from in s.pending then Added(r, s.pending[from], m) else r, s, from + 1, m);
    }
  }

  /** Right after the launch, whether or not it succeeds: the sides hold the same
      and will number the next breakpoint alike exactly when nothing set before
      it has been removed; otherwise the next id below lags behind. */
  lemma NumbersAgreeAfterLaunchIff(s: Cpu, before: Modules, ok: bool, m: Modules)
    requires ValidIds(s) && s.dbg.None?
    ensures Agree(Acted(s, Launch(before, ok), m)) <==> NothingRemoved(s)
    ensures !NothingRemoved(s) ==> Acted(s, Launch(before, ok), m).dbg.value.next < s.next
  {
    hide HandOver, Resolved;
    if NothingRemoved(s) {
      LaunchAgrees(s, before, ok, m);
    }
    HandOverCounts(Empty, s, 1, before);
  }

  // ---- What the two sides hold ----

  /** The context exists and lists exactly what is pending above. */
  ghost predicate Holds(s: Cpu) {
    s.dbg.Some? && Lists(s.dbg.value.bps, s.pending)
  }

  /** Only the breakpoints set last have been removed. */
  ghost predicate OnlyLastRemoved(s: Cpu) {
    forall i, j | 0 < i < j && j in s.pending :: i in s.pending
  }

  predicate Consecutive(r: Registry) {
    r.next == |r.bps| + 1 && forall i | 0 <= i < |r.bps| :: r.bps[i].id == i + 1
  }

  lemma {:induction false} HandOverConsecutive(r: Registry, pending: map<nat, Location>, from: nat, next: nat, m: Modules)
    requires Consecutive(r)
    ensures Consecutive(HandOver(r, pending, from, next, m))
    decreases next - from
  {
    hide Resolved;
    if from < next {
      if from in pending {
        AddedConsecutive(r, pending[from], m);
        HandOverConsecutive(Added(r, pending[from], m), pending, from + 1, next, m);
      } else {
        HandOverConsecutive(r, pending, from + 1, next, m);
      }
    }
  }

  lemma AddedConsecutive(r: Registry, loc: Location, m: Modules)
    requires Consecutive(r)
    ensures Consecutive(Added(r, loc, m))
  {
    hide Resolved;
    ResolvedConsecutive(Registry(r.bps + [Breakpoint(r.next, loc.file, loc.line, false, 0)], r.next + 1), m);
  }

  lemma ResolvedConsecutive(r: Registry, m: Modules)
    requires Consecutive(r)
    ensures Consecutive(r.(bps := ResolveAll(m, r.bps)))
  {
    hide Resolved;
    forall i | 0 <= i < |r.bps| ensures ResolveAll(m, r.bps)[i].id == i + 1 {
      ResolvingKeepsIdentity(m, r.bps[i]);
    }
  }

  /** The greatest pending id below n, or 0. */
  function Top(pending: map<nat, Location>, n: nat): (k: nat)
    ensures n > 0 ==> k < n
    ensures k > 0 ==> k in pending
    ensures forall id | k < id < n :: id !in pending
  {
    if n <= 1 then 0 else if n - 1 in pending then n - 1 else Top(pending, n - 1)
  }

  lemma {:induction false} HandOverStops(
    r: Registry, pending: map<nat, Location>, from: nat, top: nat, next: nat, m: Modules)
    requires from <= top <= next && forall id | top <= id < next :: id !in pending
    ensures HandOver(r, pending, from, next, m) == HandOver(r, pending, from, top, m)
    decreases next - from
  {
    hide Added;
    if from < next {
      if from < top {
        HandOverStops(if from in pending then Added(r, pending[from], m) else r, pending, from + 1, top, next, m);
      } else {
        HandOverStops(r, pending, from + 1, from + 1, next, m);
      }
    }
  }

  /** Right after the launch the sides hold the same breakpoints exactly when only
      the ones set last had been removed: the ids below are handed out afresh
      from 1 on. */
  lemma AgreeAfterLaunchIff(s: Cpu, before: Modules, ok: bool, m: Modules)
    requires ValidIds(s) && s.dbg.None?
    ensures Holds(Acted(s, Launch(before, ok), m)) <==> OnlyLastRemoved(s)
  {
    hide HandOver, Resolved, Lists;
    var t := Acted(s, Launch(before, ok), m);
    var r := HandOver(Empty, s.pending, 1, s.next, before);
    HandOverConsecutive(Empty, s.pending, 1, s.next, before);
    ResolvedConsecutive(r, m);
    if Holds(t) {
      ListedInOrder(t);
    }
    if OnlyLastRemoved(s) {
      var k := Top(s.pending, s.next);
      HandOverStops(Empty, s.pending, 1, k + 1, s.next, before);
      var short := Cpu(s.pending, k + 1, None);
      assert NothingRemoved(short) && ValidIds(short);
      LaunchAgrees(short, before, ok, m);
      AgreeIs(Acted(short, Launch(before, ok), m));
    }
  }

  lemma AgreeIs(s: Cpu)
    ensures Agree(s) && s.dbg.Some? ==> s.dbg.value.next == s.next && Holds(s)
  {
  }

  lemma ListedInOrder(s: Cpu)
    requires Holds(s) && Consecutive(s.dbg.value)
    ensures OnlyLastRemoved(s)
  {
    var bps := s.dbg.value.bps;
    forall i, j | 0 < i < j && j in s.pending ensures i in s.pending {
      var a :| 0 <= a < |bps| && bps[a].id == j;
      assert bps[i - 1].id == i;
    }
  }

  // ---- Whole runs ----

  /** Agreement, once there, stays through any operations but a second launch. */
  lemma {:induction false} AgreementStays(s: Cpu, ops: seq<(CpuOp, Modules)>)
    requires Agree(s) && ValidIds(s) && NoLaunch(ops)
    ensures Agree(Play(s, ops)) && ValidIds(Play(s, ops))
  {
    hide Agree, Acted, ValidIds;
    if ops != [] {
      var n := |ops| - 1;
      AgreementStays(s, ops[..n]);
      OperationKeepsAgreement(Play(s, ops[..n]), ops[n].0, ops[n].1);
    }
  }

  predicate BelowNext(r: Registry) {
    forall i | 0 <= i < |r.bps| :: r.bps[i].id < r.next
  }

  /** The next id below lags behind the one above. */
  predicate Drifted(s: Cpu) {
    s.dbg.Some? && s.dbg.value.next < s.next && BelowNext(s.dbg.value)
  }

  lemma AddedBelowNext(r: Registry, loc: Location, m: Modules)
    requires BelowNext(r)
    ensures BelowNext(Added(r, loc, m))
  {
    hide Resolved;
    var bps := r.bps + [Breakpoint(r.next, loc.file, loc.line, false, 0)];
    forall i | 0 <= i < |bps| ensures ResolveAll(m, bps)[i].id == bps[i].id {
      ResolvingKeepsIdentity(m, bps[i]);
    }
  }

  lemma {:induction false} DeletedIsPart(bps: seq<Breakpoint>, id: nat)
    ensures forall bp | bp in Deleted(bps, id) :: bp in bps
  {
    if bps != [] {
      DeletedIsPart(bps[1..], id);
    }
  }

  lemma OperationDrifts(s: Cpu, op: CpuOp, m: Modules)
    requires Drifted(s) && !op.Launch?
    ensures Drifted(Acted(s, op, m))
  {
    hide Resolved;
    var r := s.dbg.value;
    match op
    case Set(loc) => AddedBelowNext(r, loc, m);
    case Remove(id) =>
      DeletedIsPart(r.bps, id);
      forall i | 0 <= i < |Deleted(r.bps, id)| ensures Deleted(r.bps, id)[i].id < r.next {
        assert Deleted(r.bps, id)[i] in Deleted(r.bps, id);
      }
    case Resolve =>
      forall i | 0 <= i < |r.bps| ensures ResolveAll(m, r.bps)[i].id < r.next {
        ResolvingKeepsIdentity(m, r.bps[i]);
      }
  }

  /** A difference between the two next ids stays as well. */
  lemma {:induction false} DriftStays(s: Cpu, ops: seq<(CpuOp, Modules)>)
    requires Drifted(s) && NoLaunch(ops)
    ensures Drifted(Play(s, ops))
  {
    hide Acted, Drifted;
    if ops != [] {
      var n := |ops| - 1;
      DriftStays(s, ops[..n]);
      OperationDrifts(Play(s, ops[..n]), ops[n].0, ops[n].1);
    }
  }

  /** The next breakpoint set shows it: it has an id above that nothing has below. */
  lemma DriftShows(s: Cpu, loc: Location, m: Modules)
    requires Drifted(s)
    ensures !Holds(Acted(s, Set(loc), m))
  {
    hide Resolved;
    var r := s.dbg.value;
    var bps := r.bps + [Breakpoint(r.next, loc.file, loc.line, false, 0)];
    forall i | 0 <= i < |bps| ensures ResolveAll(m, bps)[i].id != s.next {
      ResolvingKeepsIdentity(m, bps[i]);
    }
    assert s.next in Acted(s, Set(loc), m).pending;
  }

  lemma {:induction false} PlayJoins(s: Cpu, ops1: seq<(CpuOp, Modules)>, ops2: seq<(CpuOp, Modules)>)
    ensures Play(s, ops1 + ops2) == Play(Play(s, ops1), ops2)
  {
    hide Acted;
    if ops2 == [] {
      assert ops1 + ops2 == ops1;
    } else {
      var n := |ops2| - 1;
      PlayJoins(s, ops1, ops2[..n]);
      assert (ops1 + ops2)[..|ops1| + n] == ops1 + ops2[..n];
    }
  }

  /** No operation of the list removes a breakpoint that is there. */
  ghost predicate RemovesNothing(ops: seq<(CpuOp, Modules)>) {
    forall i | 0 <= i < |ops| && ops[i].0.Remove? :: ops[i].0.id !in Play(Unlaunched, ops[..i]).pending
  }

  lemma RemovesOneMore(ops: seq<(CpuOp, Modules)>)
    requires ops != []
    ensures var n := |ops| - 1; RemovesNothing(ops) <==>
      RemovesNothing(ops[..n]) && (ops[n].0.Remove? ==> ops[n].0.id !in Play(Unlaunched, ops[..n]).pending)
  {
    hide Play;
    var n := |ops| - 1;
    forall i | 0 <= i < n ensures ops[..n][..i] == ops[..i] {
    }
    if RemovesNothing(ops) {
      forall i | 0 <= i < n && ops[..n][i].0.Remove?
        ensures ops[..n][i].0.id !in Play(Unlaunched, ops[..n][..i]).pending
      {
        assert ops[i] == ops[..n][i];
      }
    } else {
      var i :| 0 <= i < |ops| && ops[i].0.Remove? && ops[i].0.id in Play(Unlaunched, ops[..i]).pending;
      assert i < n ==> ops[..n][i] == ops[i];
    }
  }

  /** Before the launch: what the operations leave behind. */
  lemma {:induction false} BeforeLaunch(ops: seq<(CpuOp, Modules)>)
    requires NoLaunch(ops)
    ensures var s := Play(Unlaunched, ops);
      ValidIds(s) && s.dbg.None? && (NothingRemoved(s) <==> RemovesNothing(ops))
  {
    if ops != [] {
      hide RemovesNothing, Play;
      var n := |ops| - 1;
      BeforeLaunch(ops[..n]);
      RemovesOneMore(ops);
      OneMorePlayed(Unlaunched, ops);
      OneMoreBefore(Play(Unlaunched, ops[..n]), ops[n].0, ops[n].1);
    }
  }

  lemma OneMorePlayed(s: Cpu, ops: seq<(CpuOp, Modules)>)
    requires ops != []
    ensures var n := |ops| - 1; Play(s, ops) == Acted(Play(s, ops[..n]), ops[n].0, ops[n].1)
  {
  }

  lemma OneMoreBefore(s: Cpu, op: CpuOp, m: Modules)
    requires ValidIds(s) && s.dbg.None? && !op.Launch?
    ensures var t := Acted(s, op, m);
      ValidIds(t) && t.dbg.None? && (NothingRemoved(t) <==> NothingRemoved(s) && (op.Remove? ==> op.id !in s.pending))
  {
    var t := Acted(s, op, m);
    match op
    case Set(_) =>
      if NothingRemoved(t) {
        forall id | 0 < id < s.next ensures id in s.pending {
          assert id in t.pending;
        }
      }
    case Remove(id) =>
      if id in s.pending {
        assert 0 < id < t.next && id !in t.pending;
      } else {
        assert t.pending == s.pending;
      }
    case Resolve =>
  }

  /** After one launch, successful or not, and any later operations: the sides are
      in step if nothing was removed before it, and out of step for good if
      something was. */
  lemma AfterLaunch(pre: seq<(CpuOp, Modules)>, before: Modules, ok: bool, m: Modules, post: seq<(CpuOp, Modules)>)
    requires NoLaunch(pre) && NoLaunch(post)
    ensures var t := Play(Unlaunched, pre + [(Launch(before, ok), m)] + post);
      && t.dbg.Some?
      && (RemovesNothing(pre) ==> Agree(t))
      && (!RemovesNothing(pre) ==> Drifted(t))
  {
    hide Agree, Acted, RemovesNothing, Play, NothingRemoved, Drifted;
    var launch := (Launch(before, ok), m);
    var s, t := Play(Unlaunched, pre), Play(Unlaunched, pre + [launch]);
    BeforeLaunch(pre);
    OneMorePlayed(Unlaunched, pre + [launch]);
    assert (pre + [launch])[..|pre|] == pre;
    PlayJoins(Unlaunched, pre + [launch], post);
    LaunchedNext(s, before, ok, m);
    KeepsContext(t, post);
    if RemovesNothing(pre) {
      LaunchAgrees(s, before, ok, m);
      AgreementStays(t, post);
    } else {
      LaunchDrifts(s, before, ok, m);
      DriftStays(t, post);
    }
  }

  lemma LaunchDrifts(s: Cpu, before: Modules, ok: bool, m: Modules)
    requires ValidIds(s) && s.dbg.None? && !NothingRemoved(s)
    ensures Drifted(Acted(s, Launch(before, ok), m))
  {
    hide HandOver, Resolved;
    NumbersAgreeAfterLaunchIff(s, before, ok, m);
    HandOverConsecutive(Empty, s.pending, 1, s.next, before);
    ResolvedConsecutive(HandOver(Empty, s.pending, 1, s.next, before), m);
  }

  lemma {:induction false} KeepsContext(s: Cpu, ops: seq<(CpuOp, Modules)>)
    requires s.dbg.Some?
    ensures Play(s, ops).dbg.Some?
  {
    hide ResolveAll, Deleted, HandOver;
    if ops != [] {
      KeepsContext(s, ops[..|ops| - 1]);
    }
  }

  /** What the sides hold once a breakpoint has been set after the launch: the same
      exactly when nothing was removed before it. */
  lemma SettingShowsIff(pre: seq<(CpuOp, Modules)>, before: Modules, ok: bool, m: Modules, post: seq<(CpuOp, Modules)>,
                        loc: Location, now: Modules)
    requires NoLaunch(pre) && NoLaunch(post)
    ensures Holds(Play(Unlaunched, pre + [(Launch(before, ok), m)] + (post + [(Set(loc), now)]))) <==>
      RemovesNothing(pre)
  {
    hide Agree, Acted, RemovesNothing, Play, Drifted, Holds;
    var longer := post + [(Set(loc), now)];
    var launched := pre + [(Launch(before, ok), m)];
    AfterLaunch(pre, before, ok, m, longer);
    AgreeIs(Play(Unlaunched, launched + longer));
    AfterLaunch(pre, before, ok, m, post);
    if !RemovesNothing(pre) {
      assert launched + longer == (launched + post) + [(Set(loc), now)];
      OneMorePlayed(Unlaunched, launched + longer);
      assert (launched + longer)[..|launched + post|] == launched + post;
      DriftShows(Play(Unlaunched, launched + post), loc, now);
    }
  }

  /** Over every run with one launch, successful or not: the two sides hold the same
      breakpoints under the same ids and files, whatever is set, removed and
      resolved later, exactly when nothing was removed before the launch. */
  lemma IdSpacesAgree(pre: seq<(CpuOp, Modules)>, before: Modules, ok: bool, m: Modules)
    requires NoLaunch(pre)
    ensures (forall post | NoLaunch(post) :: Holds(Play(Unlaunched, pre + [(Launch(before, ok), m)] + post))) <==>
      RemovesNothing(pre)
  {
    hide Agree, Acted, RemovesNothing, Play, Drifted, Holds;
    var launched := pre + [(Launch(before, ok), m)];
    if RemovesNothing(pre) {
      forall post | NoLaunch(post) ensures Holds(Play(Unlaunched, launched + post)) {
        AfterLaunch(pre, before, ok, m, post);
        AgreeIs(Play(Unlaunched, launched + post));
      }
    } else {
      var loc := Location("", 1);
      SettingShowsIff(pre, before, ok, m, [], loc, m);
      var post: seq<(CpuOp, Modules)> := [] + [(Set(loc), m)];
      assert NoLaunch(post) && !Holds(Play(Unlaunched, launched + post));
    }
  }

  lemma LaunchedNext(s: Cpu, before: Modules, ok: bool, m: Modules)
    ensures var t := Acted(s, Launch(before, ok), m); t.dbg.Some? && t.next == s.next
  {
  }

  /** A run that diverges: with one breakpoint set and removed before the launch,
      the next one set is 2 above and 1 below, and removing it above leaves it
      in place below. */
  lemma RemovalDiverges(loc: Location, before: Modules, m: Modules)
    ensures var ops := [(Set(loc), before), (Remove(1), before), (Launch(before, true), m), (Set(loc), m), (Remove(2), m)];
      var t := Play(Unlaunched, ops);
      t.pending == map[] && t.dbg.Some? && |t.dbg.value.bps| == 1 && t.dbg.value.bps[0].id == 1
  {
    hide Play, Resolved;
    var ops := [(Set(loc), before), (Remove(1), before), (Launch(before, true), m), (Set(loc), m), (Remove(2), m)];
    var s0 := Cpu(map[], 2, None);
    assert Acted(Acted(Unlaunched, Set(loc), before), Remove(1), before) == s0;
    var s1 := Acted(s0, Launch(before, true), m);
    assert HandOver(Empty, map[], 1, 2, before) == Empty by {
      assert HandOver(Empty, map[], 2, 2, before) == Empty;
    }
    assert s1 == Cpu(map[], 2, Some(Empty));
    var bp := Breakpoint(1, loc.file, loc.line, false, 0);
    ResolvingKeepsIdentity(m, bp);
    var s2 := Cpu(map[2 := loc], 3, Some(Registry([Resolved(m, bp)], 2)));
    assert ResolveAll(m, [] + [bp]) == [Resolved(m, bp)];
    assert Acted(s1, Set(loc), m) == s2;
    assert Deleted([Resolved(m, bp)], 2) == [Resolved(m, bp)] + Deleted([], 2);
    PlayFive(Unlaunched, ops);
  }

  lemma PlayFive(s: Cpu, ops: seq<(CpuOp, Modules)>)
    requires |ops| == 5
    ensures Play(s, ops) ==
      Acted(Acted(Acted(Acted(Acted(s, ops[0].0, ops[0].1), ops[1].0, ops[1].1), ops[2].0, ops[2].1),
                  ops[3].0, ops[3].1), ops[4].0, ops[4].1)
  {
    hide Acted;
    assert Play(s, ops[..0]) == s;
    forall k | 0 <= k < 5 ensures Play(s, ops[..k + 1]) == Acted(Play(s, ops[..k]), ops[k].0, ops[k].1) {
      assert ops[..k + 1][..k] == ops[..k];
    }
    assert ops[..5] == ops;
  }

  // ---- Resolved breakpoints ----

  ghost predicate Numbered(r: Registry) { DistinctIds(r.bps) && BelowNext(r) }

  /** The id has been given out, and no entry has it any more. */
  predicate Gone(r: Registry, id: nat) {
    id < r.next && forall i | 0 <= i < |r.bps| :: r.bps[i].id != id
  }

  lemma ResolvingKeeps(r: Registry, m: Modules, bp: Breakpoint)
    requires Numbered(r) && bp.resolved
    ensures var t := r.(bps := ResolveAll(m, r.bps));
      Numbered(t) && (bp in r.bps ==> bp in t.bps) && (Gone(r, bp.id) ==> Gone(t, bp.id))
  {
    hide Resolved;
    var after := ResolveAll(m, r.bps);
    forall i | 0 <= i < |r.bps| ensures after[i].id == r.bps[i].id && (r.bps[i].resolved ==> after[i] == r.bps[i]) {
      ResolvingKeepsIdentity(m, r.bps[i]);
    }
    if bp in r.bps {
      var i :| 0 <= i < |r.bps| && r.bps[i] == bp;
      assert after[i] == bp;
    }
  }

  lemma AddingKeeps(r: Registry, loc: Location, m: Modules, bp: Breakpoint)
    requires Numbered(r) && bp.resolved
    ensures var t := Added(r, loc, m);
      Numbered(t) && (bp in r.bps ==> bp in t.bps) && (Gone(r, bp.id) ==> Gone(t, bp.id))
  {
    hide ResolveAll;
    ResolvingKeeps(Registry(r.bps + [Breakpoint(r.next, loc.file, loc.line, false, 0)], r.next + 1), m, bp);
  }

  lemma {:induction false} HandingOverKeeps(
    r: Registry, pending: map<nat, Location>, from: nat, next: nat, m: Modules, bp: Breakpoint)
    requires Numbered(r) && bp.resolved
    ensures var t := HandOver(r, pending, from, next, m);
      Numbered(t) && (bp in r.bps ==> bp in t.bps) && (Gone(r, bp.id) ==> Gone(t, bp.id))
    decreases next - from
  {
    hide Added, Numbered, Gone;
    if from < next {
      if from in pending {
        AddingKeeps(r, pending[from], m, bp);
        HandingOverKeeps(Added(r, pending[from], m), pending, from + 1, next, m, bp);
      } else {
        HandingOverKeeps(r, pending, from + 1, next, m, bp);
      }
    }
  }

  lemma DeletingKeeps(r: Registry, id: nat, bp: Breakpoint)
    requires Numbered(r)
    ensures var t := r.(bps := Deleted(r.bps, id));
      && Numbered(t) && (bp in r.bps && bp.id != id ==> bp in t.bps) && (Gone(r, bp.id) ==> Gone(t, bp.id))
      && (bp.id == id && id < r.next ==> Gone(t, id))
  {
    hide Deleted, DistinctIds;
    DeletedDistinct(r.bps, id);
    DeletedHas(r.bps, id, bp);
    var left := Deleted(r.bps, id);
    forall i | 0 <= i < |left| ensures left[i] in r.bps && left[i].id != id {
      DeletedHas(r.bps, id, left[i]);
      assert left[i] in left;
    }
  }

  lemma OperationKeepsResolved(s: Cpu, op: CpuOp, m: Modules, bp: Breakpoint)
    requires s.dbg.Some? && Numbered(s.dbg.value) && bp.resolved && bp.id < s.dbg.value.next
    ensures var t := Acted(s, op, m);
      && t.dbg.Some? && Numbered(t.dbg.value) && bp.id < t.dbg.value.next
      && (bp in s.dbg.value.bps && op != Remove(bp.id) ==> bp in t.dbg.value.bps)
      && (op == Remove(bp.id) || Gone(s.dbg.value, bp.id) ==> Gone(t.dbg.value, bp.id))
  {
    hide ResolveAll, Deleted, Added, HandOver, Numbered, DistinctIds;
    var r := s.dbg.value;
    match op
    case Set(loc) =>
      AddingKeeps(r, loc, m, bp);
      AddedNext(r, loc, m);
    case Remove(id) => DeletingKeeps(r, id, bp);
    case Launch(before, _) =>
      HandingOverKeeps(r, s.pending, 1, s.next, before, bp);
      HandedNext(r, s.pending, 1, s.next, before);
      ResolvingKeeps(HandOver(r, s.pending, 1, s.next, before), m, bp);
    case Resolve => ResolvingKeeps(r, m, bp);
  }

  lemma AddedNext(r: Registry, loc: Location, m: Modules)
    ensures Added(r, loc, m).next == r.next + 1
  {
  }

  lemma {:induction false} HandedNext(r: Registry, pending: map<nat, Location>, from: nat, next: nat, m: Modules)
    ensures HandOver(r, pending, from, next, m).next >= r.next
    decreases next - from
  {
    hide ResolveAll;
    if from < next {
      HandedNext(if from in pending then Added(r, pending[from], m) else r, pending, from + 1, next, m);
    }
  }

  /** Over any operations, launches included: a resolved breakpoint stays in the
      registry as it is, with its address and line, exactly until its id is
      removed. */
  lemma {:induction false} ResolvedStays(s: Cpu, ops: seq<(CpuOp, Modules)>, bp: Breakpoint)
    requires s.dbg.Some? && Numbered(s.dbg.value) && bp in s.dbg.value.bps && bp.resolved
    ensures var t := Play(s, ops);
      && t.dbg.Some? && Numbered(t.dbg.value) && bp.id < t.dbg.value.next
      && (bp in t.dbg.value.bps <==> forall i | 0 <= i < |ops| :: ops[i].0 != Remove(bp.id))
      && (bp !in t.dbg.value.bps ==> Gone(t.dbg.value, bp.id))
  {
    hide Acted, DistinctIds;
    if ops != [] {
      var n := |ops| - 1;
      ResolvedStays(s, ops[..n], bp);
      OperationKeepsResolved(Play(s, ops[..n]), ops[n].0, ops[n].1, bp);
      hide BelowNext;
      var t := Play(s, ops);
      assert forall i | 0 <= i < n :: ops[..n][i] == ops[i];
      assert Gone(t.dbg.value, bp.id) ==> bp !in t.dbg.value.bps;
    }
  }
}
