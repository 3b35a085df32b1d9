/** Which host thread runs which work-group, and the identity of a work-item as
    it goes from group and local id to global id and back. */
module Tracker {
  import opened Types
  import opened NdRange

  // ---- Work-item identity ----

  /** The global id the context extractor rebuilds from a group and a local id. */
  function GlobalId(d: Size3, group: Size3, id: Size3): Size3 {
    Size3(Add64(Mul64(group.x, d.x), id.x), Add64(Mul64(group.y, d.y), id.y), Add64(Mul64(group.z, d.z), id.z))
  }

  function LocalOf(d: Size3, p: Size3): Size3
    requires d.x > 0 && d.y > 0 && d.z > 0
  {
    Size3(p.x % d.x, p.y % d.y, p.z % d.z)
  }

  lemma SplitIsUnique(g: int, l: int, r: int)
    requires l > 0 && 0 <= r < l
    ensures (g * l + r) / l == g && (g * l + r) % l == r
  {
    var p := g * l + r;
    var q := p / l;
    DivBounds(p, l);
    if q < g {
      Scale(q + 1, g, l);
      Grow(q, l);
    } else if q > g {
      Scale(g + 1, q, l);
      Grow(g, l);
    }
  }

  lemma CoordinateRoundTrip(global: u64, l: u64, g: u64, r: u64)
    requires l > 0 && global + l <= U64 && g < GroupCount(global, l) && r < l
    ensures var p := Add64(Mul64(g, l), r); p == g * l + r && p / l == g && p % l == r
  {
    hide GroupCount, Add64, Mul64;
    EdgesFit(global, l, g);
    NoWrap(g, l);
    NoWrap(g * l, r);
    SplitIsUnique(g, l, r);
  }

  /** For every group of a launch and every local id below the local size, a zero
      local size counting as one: the rebuilt global id does not wrap, divides
      back to that group and that local id on every axis, and lies in the group's
      box exactly when it lies in the global range. */
  lemma IdentityRoundTrip(global: Size3, local: Size3, group: Size3, id: Size3)
    requires Fits(global, local) && Within(group, GroupCounts(global, local))
    requires var lx, ly, lz := if local.x == 0 then 1 else local.x, if local.y == 0 then 1 else local.y,
      if local.z == 0 then 1 else local.z;
      id.x < lx && id.y < ly && id.z < lz
    ensures var lx, ly, lz := if local.x == 0 then 1 else local.x, if local.y == 0 then 1 else local.y,
      if local.z == 0 then 1 else local.z;
      var p := GlobalId(Dims(local), group, id);
      && p.x == group.x * lx + id.x && p.y == group.y * ly + id.y && p.z == group.z * lz + id.z
      && p.x / lx == group.x && p.y / ly == group.y && p.z / lz == group.z
      && p.x % lx == id.x && p.y % ly == id.y && p.z % lz == id.z
      && (Holds(BoxOf(global, Dims(local), group), p) <==> InRange(global, p))
  {
    hide GroupCount, BoxOf, Add64, Mul64, Holds;
    var d := Dims(local);
    CoordinateRoundTrip(global.x, d.x, group.x, id.x);
    CoordinateRoundTrip(global.y, d.y, group.y, id.y);
    CoordinateRoundTrip(global.z, d.z, group.z, id.z);
    BoxHoldsIff(global, local, group, GlobalId(d, group, id));
  }

  lemma CoordinateRebuilt(l: u64, p: u64)
    requires l > 0
    ensures Add64(Mul64(p / l, l), p % l) == p
  {
    assert (p / l) * l + p % l == p;
    assert 0 <= p / l;
    Scale(0, p / l, l);
    NoWrap(p / l, l);
    NoWrap((p / l) * l, p % l);
  }

  /** Conversely every global id is rebuilt from its own group and local id, which
      are the quotients and remainders by the local size of each axis. */
  lemma IdentityRebuilt(local: Size3, p: Size3)
    ensures var lx, ly, lz := if local.x == 0 then 1 else local.x, if local.y == 0 then 1 else local.y,
      if local.z == 0 then 1 else local.z;
      var d := Dims(local);
      var group, id := GroupOf(d, p), LocalOf(d, p);
      && group.x == p.x / lx && group.y == p.y / ly && group.z == p.z / lz
      && id.x == p.x % lx && id.y == p.y % ly && id.z == p.z % lz
      && GlobalId(d, group, id) == p
  {
    hide Add64, Mul64;
    var d := Dims(local);
    CoordinateRebuilt(d.x, p.x);
    CoordinateRebuilt(d.y, p.y);
    CoordinateRebuilt(d.z, p.z);
  }

  // ---- The tracker ----

  datatype Tracking = Tracking(threads: map<u64, Size3>, global: Size3, local: Size3)

  datatype Update = Record(thread: u64, group: Size3) | SetRange(global: Size3, local: Size3) | Clear

  const Untracked := Tracking(map[], Size3(0, 0, 0), Size3(1, 1, 1))

  function Updated(t: Tracking, u: Update): Tracking {
    match u
    case Record(thread, group) => t.(threads := t.threads[thread := group])
    case SetRange(global, local) => t.(global := global, local := local)
    case Clear => t.(threads := map[])
  }

  function Replay(us: seq<Update>): Tracking {
    if us == [] then Untracked else Updated(Replay(us[..|us| - 1]), us[|us| - 1])
  }

  /** The group a thread was last recorded in since the last clear. */
  function LatestGroup(us: seq<Update>, thread: u64): Option<Size3> {
    if us == [] then None
    else
      var n := |us| - 1;
      match us[n]
      case Clear => None
      case Record(t, group) => if t == thread then Some(group) else LatestGroup(us[..n], thread)
      case SetRange(_, _) => LatestGroup(us[..n], thread)
  }

  function LatestLocal(us: seq<Update>): Size3 {
    if us == [] then Size3(1, 1, 1)
    else if us[|us| - 1].SetRange? then us[|us| - 1].local
    else LatestLocal(us[..|us| - 1])
  }

  function LatestGlobal(us: seq<Update>): Size3 {
    if us == [] then Size3(0, 0, 0)
    else if us[|us| - 1].SetRange? then us[|us| - 1].global
    else LatestGlobal(us[..|us| - 1])
  }

  lemma {:induction false} ReplayIsLatest(us: seq<Update>, thread: u64)
    ensures var t := Replay(us);
      && (thread in t.threads <==> LatestGroup(us, thread).Some?)
      && (thread in t.threads ==> Some(t.threads[thread]) == LatestGroup(us, thread))
      && t.local == LatestLocal(us) && t.global == LatestGlobal(us)
  {
    if us != [] {
      ReplayIsLatest(us[..|us| - 1], thread);
    }
  }

  /** What a lookup by global id may answer: a thread recorded in the item's
      group, or 0. */
  ghost predicate Finds(t: Tracking, p: Size3, thread: u64) {
    var group := GroupOf(Dims(t.local), p);
    && (thread != 0 ==> thread in t.threads && t.threads[thread] == group)
    && (thread == 0 ==> forall k | k in t.threads && k != 0 :: t.threads[k] == group ==>
          0 in t.threads && t.threads[0] == group)
  }

  /** After any updates: a non-zero answer is a thread whose latest recorded
      group is that of the work-item under the latest local size; and as long as
      thread ids are not 0, the answer 0 means that no thread's is. */
  lemma LookupIsLatest(us: seq<Update>, p: Size3, thread: u64)
    requires Finds(Replay(us), p, thread)
    ensures var l, group := LatestLocal(us), GroupOf(Dims(LatestLocal(us)), p);
      && group.x == p.x / (if l.x == 0 then 1 else l.x)
      && group.y == p.y / (if l.y == 0 then 1 else l.y)
      && group.z == p.z / (if l.z == 0 then 1 else l.z)
      && (thread != 0 ==> LatestGroup(us, thread) == Some(group))
      && ((forall i | 0 <= i < |us| :: us[i].Record? ==> us[i].thread != 0) ==>
            (thread == 0 <==> forall k: u64 :: LatestGroup(us, k) != Some(group)))
  {
    ReplayIsLatest(us, 0);
    GroupByAxis(LatestLocal(us), p);
    hide GroupOf, Dims;
    var t := Replay(us);
    forall k: u64
      ensures (k in t.threads <==> LatestGroup(us, k).Some?)
      ensures k in t.threads ==> Some(t.threads[k]) == LatestGroup(us, k)
      ensures t.local == LatestLocal(us)
    {
      ReplayIsLatest(us, k);
    }
    ReplayIsLatest(us, 0);
    if forall i | 0 <= i < |us| :: us[i].Record? ==> us[i].thread != 0 {
      NeverRecorded(us, 0);
    }
  }

  lemma GroupByAxis(local: Size3, p: Size3)
    ensures var group := GroupOf(Dims(local), p);
      && group.x == p.x / (if local.x == 0 then 1 else local.x)
      && group.y == p.y / (if local.y == 0 then 1 else local.y)
      && group.z == p.z / (if local.z == 0 then 1 else local.z)
  {
  }

  lemma {:induction false} NeverRecorded(us: seq<Update>, thread: u64)
    requires forall i | 0 <= i < |us| :: us[i].Record? ==> us[i].thread != thread
    ensures LatestGroup(us, thread).None?
  {
    if us != [] {
      NeverRecorded(us[..|us| - 1], thread);
    }
  }

  class WorkGroupTracker {
    var threadToWg: map<u64, Size3>
    var globalSize: Size3
    var localSize: Size3

    ghost function Abs(): Tracking
      reads this
    {
      Tracking(threadToWg, globalSize, localSize)
    }

    constructor ()
      ensures Abs() == Untracked
    {
      threadToWg, globalSize, localSize := map[], Size3(0, 0, 0), Size3(1, 1, 1);
    }

    method RecordWg(hostThreadId: u64, wgId: Size3)
      modifies this
      ensures Abs() == Updated(old(Abs()), Record(hostThreadId, wgId))
    {
      threadToWg := threadToWg[hostThreadId := wgId];
    }

    method SetNdrange(global: Size3, local: Size3)
      modifies this
      ensures Abs() == Updated(old(Abs()), SetRange(global, local))
    {
      globalSize, localSize := global, local;
    }

    method ClearThreads()
      modifies this
      ensures Abs() == Updated(old(Abs()), Clear)
    {
      threadToWg := map[];
    }

    /** Walks the table in whatever order it has. */
    method HostThreadForWi(globalId: Size3) returns (thread: u64)
      ensures Finds(Abs(), globalId, thread)
    {
      var target := GroupOf(Dims(localSize), globalId);
      var todo := threadToWg.Keys;
      while todo != {}
        invariant todo <= threadToWg.Keys
        invariant forall k | k in threadToWg && k !in todo :: threadToWg[k] != target
        decreases |todo|
      {
        var k :| k in todo;
        if threadToWg[k] == target {
          return k;
        }
        todo := todo - {k};
      }
      return 0;
    }

    method WgForThread(hostThreadId: u64) returns (group: Size3)
      ensures group == if hostThreadId in threadToWg then threadToWg[hostThreadId] else Size3(0, 0, 0)
    {
      if hostThreadId in threadToWg {
        return threadToWg[hostThreadId];
      }
      return Size3(0, 0, 0);
    }
  }
}
