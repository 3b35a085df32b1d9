/** NDRange geometry: how many work-groups a launch has and which work-items
    each of them holds, in the 64-bit arithmetic of the original. */
module NdRange {
  import opened Types

  // ---- 64-bit arithmetic ----

  function Add64(a: u64, b: u64): u64 { (a + b) % U64 }
  function Sub64(a: u64, b: u64): u64 { (a - b) % U64 }
  function Mul64(a: u64, b: u64): u64 { (a * b) % U64 }

  /** A zero local size counts as one. */
  function Dim(n: u64): (d: u64)
    ensures d > 0
  {
    if n > 0 then n else 1
  }

  function Dims(local: Size3): Size3 { Size3(Dim(local.x), Dim(local.y), Dim(local.z)) }

  // ---- Group counts ----

  function GroupCount(global: u64, l: u64): u64
    requires l > 0
  {
    var s := Sub64(Add64(global, l), 1);
    QuotientFits(s, l);
    s / l
  }

  lemma QuotientFits(s: int, l: int)
    requires 0 <= s && l > 0
    ensures 0 <= s / l <= s
  {
    DivBounds(s, l);
    var q := s / l;
    if q > s {
      Scale(s + 1, q, l);
      Scale(1, l, s + 1);
    } else if q < 0 {
      Scale(q + 1, 0, l);
      Grow(q, l);
    }
  }

  function GroupCounts(global: Size3, local: Size3): Size3 {
    var d := Dims(local);
    Size3(GroupCount(global.x, d.x), GroupCount(global.y, d.y), GroupCount(global.z, d.z))
  }

  /** n groups of l are just enough for the range. */
  predicate JustEnough(n: int, global: int, l: int) {
    n * l >= global && (n == 0 || (n - 1) * l < global)
  }

  /** The computed count is the ceiling of the quotient exactly when range plus
      local size fits 64 bits; beyond that it is always wrong. */
  lemma CountIsCeilingIff(global: u64, l: u64)
    requires l > 0
    ensures JustEnough(GroupCount(global, l), global, l) <==> global + l <= U64
  {
    hide Add64, Sub64;
    RoundedUp(global, l);
    var s := Sub64(Add64(global, l), 1);
    DivBounds(s, l);
    Grow(s / l, l);
    if global + l > U64 {
      SmallQuotient(s, l);
    }
  }

  lemma RoundedUp(global: u64, l: u64)
    requires l > 0
    ensures Sub64(Add64(global, l), 1) == global + l - 1 - if global + l <= U64 then 0 else U64
  {
    var s := global + l;
    if s < U64 {
      assert Add64(global, l) == s;
    } else {
      assert Add64(global, l) == s - U64;
    }
  }

  lemma SmallQuotient(s: int, l: int)
    requires 0 <= s < l
    ensures s / l == 0
  {
  }

  lemma DivBounds(s: int, l: int)
    requires l > 0
    ensures (s / l) * l <= s < (s / l) * l + l
  {
  }

  lemma Grow(n: int, l: int)
    ensures (n - 1) * l == n * l - l && (n + 1) * l == n * l + l
  {
  }

  // ---- Boxes ----

  datatype Bound = Bound(group: Size3, low: Size3, high: Size3, items: u64)

  function Low(g: u64, l: u64): u64 { Mul64(g, l) }

  function High(global: u64, g: u64, l: u64): u64 {
    Sub64(Min(global, Mul64(Add64(g, 1), l)), 1)
  }

  function Extent(low: u64, high: u64): u64 { Add64(Sub64(high, low), 1) }

  function BoxOf(global: Size3, d: Size3, g: Size3): Bound {
    var low := Size3(Low(g.x, d.x), Low(g.y, d.y), Low(g.z, d.z));
    var high := Size3(High(global.x, g.x, d.x), High(global.y, g.y, d.y), High(global.z, g.z, d.z));
    Bound(g, low, high,
          Mul64(Mul64(Extent(low.x, high.x), Extent(low.y, high.y)), Extent(low.z, high.z)))
  }

  /** The boxes of the first n groups of a row, of a plane, of the volume, in the
      order the loops visit them. */
  function Row(global: Size3, d: Size3, y: u64, z: u64, n: u64): seq<Bound> {
    if n == 0 then [] else Row(global, d, y, z, n - 1) + [BoxOf(global, d, Size3(n - 1, y, z))]
  }

  function Plane(global: Size3, d: Size3, width: u64, z: u64, n: u64): seq<Bound> {
    if n == 0 then [] else Plane(global, d, width, z, n - 1) + Row(global, d, n - 1, z, width)
  }

  function Volume(global: Size3, d: Size3, width: u64, height: u64, n: u64): seq<Bound> {
    if n == 0 then []
    else Volume(global, d, width, height, n - 1) + Plane(global, d, width, n - 1, height)
  }

  function WorkGroups(global: Size3, local: Size3): seq<Bound> {
    var num := GroupCounts(global, local);
    Volume(global, Dims(local), num.x, num.y, num.z)
  }

  method ComputeWorkGroups(global: Size3, local: Size3, num: Size3) returns (bounds: seq<Bound>)
    ensures bounds == Volume(global, Dims(local), num.x, num.y, num.z)
  {
    hide BoxOf, Dims;
    var d := Dims(local);
    bounds := [];
    var gz: u64 := 0;
    while gz < num.z
      invariant gz <= num.z
      invariant bounds == Volume(global, d, num.x, num.y, gz)
    {
      ghost var below := bounds;
      var gy: u64 := 0;
      while gy < num.y
        invariant gy <= num.y
        invariant bounds == below + Plane(global, d, num.x, gz, gy)
      {
        ghost var before := bounds;
        var gx: u64 := 0;
        while gx < num.x
          invariant gx <= num.x
          invariant bounds == before + Row(global, d, gy, gz, gx)
        {
          var box := BoxOf(global, d, Size3(gx, gy, gz));
          assert (before + Row(global, d, gy, gz, gx)) + [box] == before + (Row(global, d, gy, gz, gx) + [box]);
          bounds := bounds + [box];
          gx := gx + 1;
        }
        gy := gy + 1;
      }
      gz := gz + 1;
    }
  }

  // ---- One dimension ----

  /** Range plus local size fits 64 bits in every dimension. */
  predicate Fits(global: Size3, local: Size3) {
    var d := Dims(local);
    global.x + d.x <= U64 && global.y + d.y <= U64 && global.z + d.z <= U64
  }

  lemma Scale(a: int, b: int, l: int)
    requires a <= b && l >= 0
    ensures a * l <= b * l
  {
  }

  lemma NoWrap(a: u64, b: u64)
    ensures a + b < U64 ==> Add64(a, b) == a + b
    ensures b <= a ==> Sub64(a, b) == a - b
    ensures a * b < U64 ==> Mul64(a, b) == a * b
  {
    Scale(0, a, b);
  }

  /** The last group still starts inside the range, so its end does not wrap. */
  lemma EdgesFit(global: u64, l: u64, g: u64)
    requires l > 0 && global + l <= U64 && g < GroupCount(global, l)
    ensures 0 <= g * l < global && (g + 1) * l == g * l + l < U64
  {
    hide GroupCount;
    var n := GroupCount(global, l);
    CountIsCeilingIff(global, l);
    Scale(g, n - 1, l);
    Scale(0, g, l);
    Grow(g, l);
  }

  /** No coordinate of a box wraps or underflows. */
  lemma EdgesAreExact(global: u64, l: u64, g: u64)
    requires l > 0 && global + l <= U64 && g < GroupCount(global, l)
    ensures Low(g, l) == g * l < global
    ensures High(global, g, l) == Min(global, (g + 1) * l) - 1
    ensures g * l <= High(global, g, l) < global
    ensures Extent(Low(g, l), High(global, g, l)) == Min(global, (g + 1) * l) - g * l
  {
    hide GroupCount, Low, High, Extent;
    EdgesFit(global, l, g);
    assert g + 1 < U64 by {
      Scale(1, l, g + 1);
      assert (g + 1) * l == l * (g + 1);
    }
    LowIs(g, l);
    HighIs(global, g, l);
    ExtentIs(Low(g, l), High(global, g, l));
  }

  lemma LowIs(g: u64, l: u64)
    requires g * l < U64
    ensures Low(g, l) == g * l
  {
    NoWrap(g, l);
  }

  lemma HighIs(global: u64, g: u64, l: u64)
    requires g + 1 < U64 && 0 < (g + 1) * l < U64 && global > 0
    ensures High(global, g, l) == Min(global, (g + 1) * l) - 1
  {
    hide Add64, Sub64, Mul64;
    NoWrap(g, 1);
    NoWrap(g + 1, l);
    NoWrap(Min(global, (g + 1) * l), 1);
  }

  lemma ExtentIs(low: u64, high: u64)
    requires low <= high < U64 - 1
    ensures Extent(low, high) == high - low + 1
  {
  }

  /** A point of the range lies in the stretch of group p / l and of no other. */
  lemma StretchOf(global: u64, l: u64, g: u64, p: u64)
    requires l > 0 && global + l <= U64 && g < GroupCount(global, l)
    ensures Low(g, l) <= p <= High(global, g, l) <==> p < global && p / l == g
  {
    EdgesAreExact(global, l, g);
    DivBounds(p, l);
    Grow(g, l);
    var q := p / l;
    if q < g {
      Scale(q + 1, g, l);
      Grow(q, l);
    } else if q > g {
      Scale(g + 1, q, l);
    }
  }

  lemma GroupExists(global: u64, l: u64, p: u64)
    requires l > 0 && global + l <= U64 && p < global
    ensures p / l < GroupCount(global, l)
  {
    CountIsCeilingIff(global, l);
    DivBounds(p, l);
    var n := GroupCount(global, l);
    if p / l >= n {
      Scale(n, p / l, l);
    }
  }

  // ---- The boxes partition the range ----

  predicate InRange(global: Size3, p: Size3) { p.x < global.x && p.y < global.y && p.z < global.z }

  predicate Holds(b: Bound, p: Size3) {
    b.low.x <= p.x <= b.high.x && b.low.y <= p.y <= b.high.y && b.low.z <= p.z <= b.high.z
  }

  function GroupOf(d: Size3, p: Size3): Size3
    requires d.x > 0 && d.y > 0 && d.z > 0
  {
    Size3(p.x / d.x, p.y / d.y, p.z / d.z)
  }

  predicate Within(g: Size3, num: Size3) { g.x < num.x && g.y < num.y && g.z < num.z }

  /** A box of the launch holds exactly the points of the range that divide back
      to its group. */
  lemma BoxHoldsIff(global: Size3, local: Size3, g: Size3, p: Size3)
    requires Fits(global, local) && Within(g, GroupCounts(global, local))
    ensures Holds(BoxOf(global, Dims(local), g), p) <==> InRange(global, p) && GroupOf(Dims(local), p) == g
  {
    hide GroupCount, Low, High;
    var d := Dims(local);
    StretchOf(global.x, d.x, g.x, p.x);
    StretchOf(global.y, d.y, g.y, p.y);
    StretchOf(global.z, d.z, g.z, p.z);
  }

  /** The list holds the box of each group of the region, once, and no other. */
  ghost predicate Tiles(global: Size3, d: Size3, bounds: seq<Bound>, region: Size3 -> bool) {
    && (forall i | 0 <= i < |bounds| :: region(bounds[i].group) && bounds[i] == BoxOf(global, d, bounds[i].group))
    && (forall i, j | 0 <= i < j < |bounds| :: bounds[i].group != bounds[j].group)
    && (forall g | region(g) :: exists i :: 0 <= i < |bounds| && bounds[i].group == g)
  }

  lemma TilesJoin(global: Size3, d: Size3, b1: seq<Bound>, r1: Size3 -> bool, b2: seq<Bound>, r2: Size3 -> bool,
                  r: Size3 -> bool)
    requires Tiles(global, d, b1, r1) && Tiles(global, d, b2, r2)
    requires forall g :: r(g) <==> r1(g) || r2(g)
    requires forall g :: !(r1(g) && r2(g))
    ensures Tiles(global, d, b1 + b2, r)
  {
    hide BoxOf;
    var b := b1 + b2;
    forall g | r(g) ensures exists i :: 0 <= i < |b| && b[i].group == g {
      if r1(g) {
        var i :| 0 <= i < |b1| && b1[i].group == g;
        assert b[i] == b1[i];
      } else {
        var i :| 0 <= i < |b2| && b2[i].group == g;
        assert b[|b1| + i] == b2[i];
      }
    }
  }

  function RowRegion(y: u64, z: u64, n: u64): Size3 -> bool { (g: Size3) => g.x < n && g.y == y && g.z == z }
  function PlaneRegion(width: u64, z: u64, n: u64): Size3 -> bool { (g: Size3) => g.x < width && g.y < n && g.z == z }
  function VolumeRegion(num: Size3): Size3 -> bool { (g: Size3) => Within(g, num) }

  lemma {:induction false} RowTiles(global: Size3, d: Size3, y: u64, z: u64, n: u64)
    ensures Tiles(global, d, Row(global, d, y, z, n), RowRegion(y, z, n))
  {
    hide BoxOf;
    if n > 0 {
      RowTiles(global, d, y, z, n - 1);
      var g := Size3(n - 1, y, z);
      var one := [BoxOf(global, d, g)];
      BoxIsOf(global, d, g);
      assert one[0].group == g;
      TilesJoin(global, d, Row(global, d, y, z, n - 1), RowRegion(y, z, n - 1), one, (h: Size3) => h == g, RowRegion(y, z, n));
    }
  }

  lemma BoxIsOf(global: Size3, d: Size3, g: Size3)
    ensures BoxOf(global, d, g).group == g
  {
  }

  lemma {:induction false} PlaneTiles(global: Size3, d: Size3, width: u64, z: u64, n: u64)
    ensures Tiles(global, d, Plane(global, d, width, z, n), PlaneRegion(width, z, n))
  {
    hide BoxOf, Tiles;
    if n == 0 {
      NothingTiles(global, d, PlaneRegion(width, z, n));
    } else {
      PlaneTiles(global, d, width, z, n - 1);
      RowTiles(global, d, n - 1, z, width);
      TilesJoin(global, d, Plane(global, d, width, z, n - 1), PlaneRegion(width, z, n - 1),
                Row(global, d, n - 1, z, width), RowRegion(n - 1, z, width), PlaneRegion(width, z, n));
    }
  }

  lemma NothingTiles(global: Size3, d: Size3, region: Size3 -> bool)
    requires forall g :: !region(g)
    ensures Tiles(global, d, [], region)
  {
  }

  lemma {:induction false} VolumeTiles(global: Size3, d: Size3, width: u64, height: u64, n: u64)
    ensures Tiles(global, d, Volume(global, d, width, height, n), VolumeRegion(Size3(width, height, n)))
  {
    hide BoxOf, Tiles;
    if n == 0 {
      NothingTiles(global, d, VolumeRegion(Size3(width, height, n)));
    } else {
      VolumeTiles(global, d, width, height, n - 1);
      PlaneTiles(global, d, width, n - 1, height);
      TilesJoin(global, d, Volume(global, d, width, height, n - 1), VolumeRegion(Size3(width, height, n - 1)),
                Plane(global, d, width, n - 1, height), PlaneRegion(width, n - 1, height),
                VolumeRegion(Size3(width, height, n)));
    }
  }

  /** The listed boxes partition the launch: every work-item of the global range
      lies in one and only one of them, nothing outside the range lies in any,
      and the one it lies in is that of its coordinates divided by the local
      size. Local sizes need not divide; zero sizes are included. */
  lemma BoxesPartitionRange(global: Size3, local: Size3, p: Size3)
    requires Fits(global, local)
    ensures var bounds := WorkGroups(global, local);
      && (InRange(global, p) <==> exists i :: 0 <= i < |bounds| && Holds(bounds[i], p))
      && (forall i, j | 0 <= i < |bounds| && 0 <= j < |bounds| && Holds(bounds[i], p) && Holds(bounds[j], p) :: i == j)
      && (forall i | 0 <= i < |bounds| && Holds(bounds[i], p) :: bounds[i].group == GroupOf(Dims(local), p))
  {
    hide GroupCount, BoxOf, Holds, GroupOf, Volume;
    var d, num, bounds := Dims(local), GroupCounts(global, local), WorkGroups(global, local);
    VolumeTiles(global, d, num.x, num.y, num.z);
    assert Tiles(global, d, bounds, VolumeRegion(num));
    forall i | 0 <= i < |bounds|
      ensures Holds(bounds[i], p) <==> InRange(global, p) && bounds[i].group == GroupOf(d, p)
    {
      assert VolumeRegion(num)(bounds[i].group);
      BoxHoldsIff(global, local, bounds[i].group, p);
    }
    if InRange(global, p) {
      PointHasGroup(global, local, p);
      assert VolumeRegion(num)(GroupOf(d, p));
      var i :| 0 <= i < |bounds| && bounds[i].group == GroupOf(d, p);
      assert Holds(bounds[i], p);
    }
  }

  lemma PointHasGroup(global: Size3, local: Size3, p: Size3)
    requires Fits(global, local) && InRange(global, p)
    ensures Within(GroupOf(Dims(local), p), GroupCounts(global, local))
  {
    hide GroupCount;
    var d := Dims(local);
    GroupExists(global.x, d.x, p.x);
    GroupExists(global.y, d.y, p.y);
    GroupExists(global.z, d.z, p.z);
  }

  // ---- The same, axis by axis ----

  /** One axis of a box: it starts at a multiple of the local size and ends before
      the next, or where the range ends. */
  predicate IsStretch(global: int, l: int, g: int, low: int, high: int) {
    low == g * l && high == Min(global, g * l + l) - 1 && low <= high
  }

  lemma AxisOf(global: u64, l: u64, g: u64)
    requires l > 0 && global + l <= U64 && g < GroupCount(global, l)
    ensures IsStretch(global, l, g, Low(g, l), High(global, g, l))
  {
    hide GroupCount, Low, High;
    EdgesAreExact(global, l, g);
    Grow(g, l);
  }

  /** With the local size of each axis, a zero counting as one: the group counts are
      the ceilings of the quotients, each box is the stretch of its group on every
      axis, and holds the work-items that divide back to it. */
  lemma BoxesByAxis(global: Size3, local: Size3, i: nat, p: Size3)
    requires var lx, ly, lz := if local.x == 0 then 1 else local.x, if local.y == 0 then 1 else local.y,
      if local.z == 0 then 1 else local.z;
      global.x + lx <= U64 && global.y + ly <= U64 && global.z + lz <= U64
    requires i < |WorkGroups(global, local)|
    ensures var lx, ly, lz := if local.x == 0 then 1 else local.x, if local.y == 0 then 1 else local.y,
      if local.z == 0 then 1 else local.z;
      var num, b := GroupCounts(global, local), WorkGroups(global, local)[i];
      && JustEnough(num.x, global.x, lx) && JustEnough(num.y, global.y, ly) && JustEnough(num.z, global.z, lz)
      && b.group.x < num.x && b.group.y < num.y && b.group.z < num.z
      && IsStretch(global.x, lx, b.group.x, b.low.x, b.high.x)
      && IsStretch(global.y, ly, b.group.y, b.low.y, b.high.y)
      && IsStretch(global.z, lz, b.group.z, b.low.z, b.high.z)
      && (b.low.x <= p.x <= b.high.x && b.low.y <= p.y <= b.high.y && b.low.z <= p.z <= b.high.z <==>
            && p.x < global.x && p.y < global.y && p.z < global.z
            && b.group.x == p.x / lx && b.group.y == p.y / ly && b.group.z == p.z / lz)
  {
    hide GroupCount, Volume, Low, High, IsStretch, JustEnough;
    var d, num, b := Dims(local), GroupCounts(global, local), WorkGroups(global, local)[i];
    CountIsCeilingIff(global.x, d.x);
    CountIsCeilingIff(global.y, d.y);
    CountIsCeilingIff(global.z, d.z);
    VolumeTiles(global, d, num.x, num.y, num.z);
    assert VolumeRegion(num)(b.group) && b == BoxOf(global, d, b.group);
    AxisOf(global.x, d.x, b.group.x);
    AxisOf(global.y, d.y, b.group.y);
    AxisOf(global.z, d.z, b.group.z);
    BoxHoldsIff(global, local, b.group, p);
  }

  // ---- The order of the boxes ----

  lemma {:induction false} RowAt(global: Size3, d: Size3, y: u64, z: u64, n: u64, x: u64)
    ensures |Row(global, d, y, z, n)| == n
    ensures x < n ==> Row(global, d, y, z, n)[x] == BoxOf(global, d, Size3(x, y, z))
  {
    hide BoxOf;
    if n > 0 {
      RowAt(global, d, y, z, n - 1, x);
    }
  }

  lemma {:induction false} PlaneAt(global: Size3, d: Size3, width: u64, z: u64, n: u64, x: u64, y: u64)
    ensures |Plane(global, d, width, z, n)| == n * width
    ensures x < width && y < n ==>
      y * width + x < n * width && Plane(global, d, width, z, n)[y * width + x] == BoxOf(global, d, Size3(x, y, z))
  {
    hide BoxOf, Row;
    if n > 0 {
      PlaneAt(global, d, width, z, n - 1, x, y);
      RowAt(global, d, n - 1, z, width, x);
      Grow(n, width);
      if x < width && y < n {
        Scale(y, n - 1, width);
        if y < n - 1 {
          Scale(y + 1, n - 1, width);
          Grow(y, width);
        }
      }
    }
  }

  /** The loops list the boxes with x fastest and z slowest. */
  lemma {:induction false} VolumeAt(global: Size3, d: Size3, width: u64, height: u64, n: u64, g: Size3)
    ensures |Volume(global, d, width, height, n)| == n * (height * width)
    ensures g.x < width && g.y < height && g.z < n ==>
      var at := g.z * (height * width) + (g.y * width + g.x);
      0 <= at < n * (height * width) && Volume(global, d, width, height, n)[at] == BoxOf(global, d, g)
  {
    hide BoxOf, Plane;
    var area := height * width;
    Scale(0, height, width);
    if n > 0 {
      VolumeAt(global, d, width, height, n - 1, g);
      PlaneAt(global, d, width, n - 1, height, g.x, g.y);
      Grow(n, area);
      if g.x < width && g.y < height && g.z < n {
        Scale(0, g.y, width);
        PlaneAt(global, d, width, g.z, height, g.x, g.y);
        Scale(0, g.z, area);
        if g.z < n - 1 {
          Scale(g.z + 1, n - 1, area);
          Grow(g.z, area);
        } else {
          assert Size3(g.x, g.y, n - 1) == g;
        }
      }
    }
  }

  ghost predicate Covers(bounds: seq<Bound>, global: Size3) {
    forall p :: InRange(global, p) <==> exists i :: 0 <= i < |bounds| && Holds(bounds[i], p)
  }

  lemma NoGroupsNoBoxes(global: Size3, d: Size3, num: Size3)
    requires num.x == 0 || num.y == 0 || num.z == 0
    ensures Volume(global, d, num.x, num.y, num.z) == []
  {
    hide BoxOf, Volume;
    VolumeTiles(global, d, num.x, num.y, num.z);
    var bounds := Volume(global, d, num.x, num.y, num.z);
    assert bounds != [] ==> VolumeRegion(num)(bounds[0].group);
  }

  /** No groups at all: for an empty range, or when the sum wraps. */
  lemma NoGroupsIff(global: u64, l: u64)
    requires l > 0
    ensures GroupCount(global, l) == 0 <==> global == 0 || global + l > U64
  {
    hide Add64, Sub64;
    RoundedUp(global, l);
    var s := Sub64(Add64(global, l), 1);
    DivBounds(s, l);
    if global == 0 || global + l > U64 {
      SmallQuotient(s, l);
    }
  }

  /** The exact condition for the boxes to cover the range and nothing else: range
      plus local size fits 64 bits in every dimension, or the range is empty.
      Otherwise no box is listed at all. */
  lemma CoverIff(global: Size3, local: Size3)
    ensures Covers(WorkGroups(global, local), global) <==>
      Fits(global, local) || global.x == 0 || global.y == 0 || global.z == 0
    ensures !Fits(global, local) ==> WorkGroups(global, local) == []
  {
    hide GroupCount, Volume, Holds;
    var d, num := Dims(local), GroupCounts(global, local);
    NoGroupsIff(global.x, d.x);
    NoGroupsIff(global.y, d.y);
    NoGroupsIff(global.z, d.z);
    if Fits(global, local) {
      forall p: Size3 {
        BoxesPartitionRange(global, local, p);
      }
    } else {
      NoGroupsNoBoxes(global, d, num);
      assert InRange(global, Size3(0, 0, 0)) <==> global.x > 0 && global.y > 0 && global.z > 0;
    }
  }

  // ---- Item counts ----

  function Items(bounds: seq<Bound>): nat {
    if bounds == [] then 0 else Items(bounds[..|bounds| - 1]) + bounds[|bounds| - 1].items
  }

  lemma {:induction false} ItemsJoin(b1: seq<Bound>, b2: seq<Bound>)
    ensures Items(b1 + b2) == Items(b1) + Items(b2)
  {
    if b2 == [] {
      assert b1 + b2 == b1;
    } else {
      var n := |b2| - 1;
      ItemsJoin(b1, b2[..n]);
      assert (b1 + b2)[..|b1 + b2| - 1] == b1 + b2[..n];
    }
  }

  /** How much of the range the first n groups of a dimension cover. */
  function Covered(global: u64, l: u64, n: nat): int { Min(global, n * l) }

  lemma CoveredBounds(global: u64, l: u64, n: nat)
    ensures 0 <= Covered(global, l, n) <= global
  {
    Scale(0, n, l);
  }

  lemma NoneCovered(global: u64, l: u64)
    ensures Covered(global, l, 0) == 0
  {
  }

  lemma AllCovered(global: u64, l: u64)
    requires l > 0 && global + l <= U64
    ensures Covered(global, l, GroupCount(global, l)) == global
  {
    CountIsCeilingIff(global, l);
  }

  /** The stretch of group g, in one dimension. */
  function Length(global: u64, l: u64, g: nat): int { Covered(global, l, g + 1) - Covered(global, l, g) }

  lemma LengthIsExtent(global: u64, l: u64, g: u64)
    requires l > 0 && global + l <= U64 && g < GroupCount(global, l)
    ensures Extent(Low(g, l), High(global, g, l)) == Length(global, l, g)
    ensures 0 < Length(global, l, g) <= global
  {
    EdgesAreExact(global, l, g);
    CoveredBounds(global, l, g);
    CoveredBounds(global, l, g + 1);
  }

  /** The largest box, that of the first group, can be counted in 64 bits. */
  predicate LargestFits(global: Size3, local: Size3) {
    var d := Dims(local);
    Min(global.x, d.x) * Min(global.y, d.y) * Min(global.z, d.z) < U64
  }

  /** A count of items against the number wanted: never more, exact if every box
      fits, and less once it includes the first box and that does not fit. */
  predicate Tally(items: int, want: int, fits: bool, first: bool) {
    items <= want && (fits ==> items == want) && (!fits && first ==> items < want)
  }

  lemma TallyAdds(i1: int, w1: int, f1: bool, i2: int, w2: int, f2: bool, fits: bool)
    requires Tally(i1, w1, fits, f1) && Tally(i2, w2, fits, f2)
    ensures Tally(i1 + i2, w1 + w2, fits, f1 || f2)
  {
  }

  lemma ProductGrows(a: int, b: int, c: int, x: int, y: int, z: int)
    requires 0 <= a <= x && 0 <= b <= y && 0 <= c <= z
    ensures 0 <= a * b && 0 <= a * b * c <= x * y * z
  {
    Scale(a, x, b);
    Scale(b, y, x);
    assert a * b <= x * b <= x * y;
    Scale(0, a, b);
    Scale(0, c, a * b);
    Scale(c, z, a * b);
    Scale(a * b, x * y, z);
  }

  lemma WrapsTwice(p: int, c: int)
    ensures ((p % U64) * c) % U64 == (p * c) % U64
  {
    var q, r := p / U64, p % U64;
    Distribute(q * U64, r, c);
    assert p * c == (q * c) * U64 + r * c;
    WrapsWhole(q * c, r * c);
  }

  lemma WrapsWhole(k: int, n: int)
    ensures (k * U64 + n) % U64 == n % U64
  {
  }

  lemma LengthIsAtMost(global: u64, l: u64, g: nat)
    ensures Length(global, l, g) <= Min(global, l)
    ensures Length(global, l, 0) == Min(global, l)
  {
    Grow(g, l);
    Scale(0, g, l);
  }

  /** A box counts its work-items modulo 2^64. */
  lemma BoxItems(global: Size3, local: Size3, g: Size3)
    requires Fits(global, local) && Within(g, GroupCounts(global, local))
    ensures var d := Dims(local);
      Tally(BoxOf(global, d, g).items,
            Product(Length(global.x, d.x, g.x), Length(global.y, d.y, g.y), Length(global.z, d.z, g.z)),
            LargestFits(global, local), g == Size3(0, 0, 0))
  {
    hide Length, Low, High, GroupCount, Extent, Min;
    var d := Dims(local);
    LengthIsExtent(global.x, d.x, g.x);
    LengthIsExtent(global.y, d.y, g.y);
    LengthIsExtent(global.z, d.z, g.z);
    LengthIsAtMost(global.x, d.x, g.x);
    LengthIsAtMost(global.y, d.y, g.y);
    LengthIsAtMost(global.z, d.z, g.z);
    var a, b, c := Length(global.x, d.x, g.x), Length(global.y, d.y, g.y), Length(global.z, d.z, g.z);
    ProductGrows(a, b, c, Min(global.x, d.x), Min(global.y, d.y), Min(global.z, d.z));
    WrapsTwice(a * b, c);
    assert BoxOf(global, d, g).items == (a * b * c) % U64;
  }

  lemma Distribute(a: int, b: int, c: int)
    ensures (a + b) * c == a * c + b * c && c * (a + b) == c * a + c * b
  {
  }

  function Product(a: int, b: int, c: int): int { a * b * c }

  lemma ShareProduct(a: int, b: int, m: int, n: int)
    ensures Product(a + b, m, n) == Product(a, m, n) + Product(b, m, n)
    ensures Product(m, a + b, n) == Product(m, a, n) + Product(m, b, n)
    ensures Product(m, n, a + b) == Product(m, n, a) + Product(m, n, b)
  {
    Distribute(a, b, m);
    Distribute(a * m, b * m, n);
    Distribute(m * a, m * b, n);
    Distribute(a, b, m * n);
  }

  lemma ItemsOneMore(bounds: seq<Bound>, b: Bound)
    ensures Items(bounds + [b]) == Items(bounds) + b.items
  {
    assert (bounds + [b])[..|bounds|] == bounds;
  }

  lemma OneMoreLength(global: u64, l: u64, n: nat)
    ensures Covered(global, l, n) + Length(global, l, n) == Covered(global, l, n + 1)
  {
  }

  lemma NothingTallied(b: int, c: int, fits: bool)
    ensures Tally(0, Product(0, b, c), fits, false)
    ensures Tally(0, Product(b, 0, c), fits, false)
    ensures Tally(0, Product(b, c, 0), fits, false)
  {
  }

  lemma NoRow(global: Size3, d: Size3, y: u64, z: u64)
    ensures Items(Row(global, d, y, z, 0)) == 0
  {
  }

  lemma RowGrows(global: Size3, d: Size3, y: u64, z: u64, n: u64)
    requires n > 0
    ensures Row(global, d, y, z, n) == Row(global, d, y, z, n - 1) + [BoxOf(global, d, Size3(n - 1, y, z))]
  {
  }

  lemma {:induction false} RowItems(global: Size3, local: Size3, y: u64, z: u64, n: u64)
    requires Fits(global, local)
    requires var num := GroupCounts(global, local); n <= num.x && y < num.y && z < num.z
    ensures var d := Dims(local);
      Tally(Items(Row(global, d, y, z, n)),
            Product(Covered(global.x, d.x, n), Length(global.y, d.y, y), Length(global.z, d.z, z)),
            LargestFits(global, local), n > 0 && y == 0 && z == 0)
  {
    hide BoxOf, GroupCount, GroupCounts, Covered, LargestFits, Length, Tally, Product, Row, Items, Fits, Dims;
    var d, fits := Dims(local), LargestFits(global, local);
    var ly, lz := Length(global.y, d.y, y), Length(global.z, d.z, z);
    if n == 0 {
      NoneCovered(global.x, d.x);
      NothingTallied(ly, lz, fits);
      NoRow(global, d, y, z);
    } else {
      RowItems(global, local, y, z, n - 1);
      var b := BoxOf(global, d, Size3(n - 1, y, z));
      BoxItems(global, local, Size3(n - 1, y, z));
      RowGrows(global, d, y, z, n);
      var row, had, more := Row(global, d, y, z, n - 1), Covered(global.x, d.x, n - 1), Length(global.x, d.x, n - 1);
      ItemsOneMore(row, b);
      ShareProduct(had, more, ly, lz);
      OneMoreLength(global.x, d.x, n - 1);
      TallyAdds(Items(row), Product(had, ly, lz), n > 1 && y == 0 && z == 0, b.items, Product(more, ly, lz),
                Size3(n - 1, y, z) == Size3(0, 0, 0), fits);
    }
  }

  lemma NoPlane(global: Size3, d: Size3, width: u64, z: u64)
    ensures Items(Plane(global, d, width, z, 0)) == 0
  {
  }

  lemma PlaneGrows(global: Size3, d: Size3, width: u64, z: u64, n: u64)
    requires n > 0
    ensures Plane(global, d, width, z, n) == Plane(global, d, width, z, n - 1) + Row(global, d, n - 1, z, width)
  {
  }

  lemma {:induction false} PlaneItems(global: Size3, local: Size3, z: u64, n: u64)
    requires Fits(global, local)
    requires var num := GroupCounts(global, local); n <= num.y && z < num.z
    ensures var d, num := Dims(local), GroupCounts(global, local);
      Tally(Items(Plane(global, d, num.x, z, n)),
            Product(global.x, Covered(global.y, d.y, n), Length(global.z, d.z, z)),
            LargestFits(global, local), num.x > 0 && n > 0 && z == 0)
  {
    hide BoxOf, GroupCount, Row, Plane, Items, Covered, LargestFits, Length, Tally, Product;
    var d, width, fits := Dims(local), GroupCounts(global, local).x, LargestFits(global, local);
    var lz := Length(global.z, d.z, z);
    if n == 0 {
      NoneCovered(global.y, d.y);
      NothingTallied(global.x, lz, fits);
      NoPlane(global, d, width, z);
    } else {
      PlaneGrows(global, d, width, z, n);
      PlaneItems(global, local, z, n - 1);
      RowItems(global, local, n - 1, z, width);
      AllCovered(global.x, d.x);
      var plane, row := Plane(global, d, width, z, n - 1), Row(global, d, n - 1, z, width);
      var had, more := Covered(global.y, d.y, n - 1), Length(global.y, d.y, n - 1);
      ItemsJoin(plane, row);
      ShareProduct(had, more, global.x, lz);
      OneMoreLength(global.y, d.y, n - 1);
      TallyAdds(Items(plane), Product(global.x, had, lz), width > 0 && n > 1 && z == 0,
                Items(row), Product(global.x, more, lz), width > 0 && n == 1 && z == 0, fits);
    }
  }

  lemma NoVolume(global: Size3, d: Size3, width: u64, height: u64)
    ensures Items(Volume(global, d, width, height, 0)) == 0
  {
  }

  lemma VolumeGrows(global: Size3, d: Size3, width: u64, height: u64, n: u64)
    requires n > 0
    ensures Volume(global, d, width, height, n) ==
      Volume(global, d, width, height, n - 1) + Plane(global, d, width, n - 1, height)
  {
  }

  lemma {:induction false} VolumeItems(global: Size3, local: Size3, n: u64)
    requires Fits(global, local) && n <= GroupCounts(global, local).z
    ensures var d, num := Dims(local), GroupCounts(global, local);
      Tally(Items(Volume(global, d, num.x, num.y, n)), Product(global.x, global.y, Covered(global.z, d.z, n)),
            LargestFits(global, local), num.x > 0 && num.y > 0 && n > 0)
  {
    hide BoxOf, GroupCount, Plane, Volume, Items, Covered, LargestFits, Length, Tally, Product;
    var d, num, fits := Dims(local), GroupCounts(global, local), LargestFits(global, local);
    if n == 0 {
      NoneCovered(global.z, d.z);
      NothingTallied(global.x, global.y, fits);
      NoVolume(global, d, num.x, num.y);
    } else {
      VolumeGrows(global, d, num.x, num.y, n);
      VolumeItems(global, local, n - 1);
      PlaneItems(global, local, n - 1, num.y);
      AllCovered(global.y, d.y);
      var volume, plane := Volume(global, d, num.x, num.y, n - 1), Plane(global, d, num.x, n - 1, num.y);
      var had, more := Covered(global.z, d.z, n - 1), Length(global.z, d.z, n - 1);
      ItemsJoin(volume, plane);
      ShareProduct(had, more, global.x, global.y);
      OneMoreLength(global.z, d.z, n - 1);
      TallyAdds(Items(volume), Product(global.x, global.y, had), num.x > 0 && num.y > 0 && n > 1,
                Items(plane), Product(global.x, global.y, more), num.x > 0 && num.y > 0 && n == 1, fits);
    }
  }

  lemma SomeGroup(global: u64, l: u64)
    requires l > 0 && global + l <= U64
    ensures global > 0 ==> GroupCount(global, l) > 0
  {
    CountIsCeilingIff(global, l);
  }

  /** The item counts of all boxes add up to the size of the global range exactly
      when the largest box can be counted in 64 bits; the range itself need not
      be. Otherwise they add up to less. */
  lemma ItemsAddUp(global: Size3, local: Size3)
    requires Fits(global, local)
    ensures Items(WorkGroups(global, local)) == global.x * global.y * global.z <==> LargestFits(global, local)
    ensures Items(WorkGroups(global, local)) <= global.x * global.y * global.z
  {
    hide GroupCount, Volume, Covered;
    var d := Dims(local);
    VolumeItems(global, local, GroupCounts(global, local).z);
    AllCovered(global.z, d.z);
    if !LargestFits(global, local) {
      assert global.x > 0 && global.y > 0 && global.z > 0;
      SomeGroup(global.x, d.x);
      SomeGroup(global.y, d.y);
      SomeGroup(global.z, d.z);
    }
  }

  /** A launch of one group of 2^32 by 2^32 work-items: its one box counts none. */
  lemma OneHugeBox()
    ensures var n := Size3(0x1_0000_0000, 0x1_0000_0000, 1);
      Fits(n, n) && !LargestFits(n, n) && Items(WorkGroups(n, n)) == 0
  {
    hide BoxOf;
    var n := Size3(0x1_0000_0000, 0x1_0000_0000, 1);
    assert GroupCounts(n, n) == Size3(1, 1, 1);
    var box := BoxOf(n, n, Size3(0, 0, 0));
    assert Row(n, n, 0, 0, 1) == [box];
    assert Plane(n, n, 1, 0, 1) == [box];
    assert Volume(n, n, 1, 1, 1) == [box];
    HugeBoxWraps();
    ItemsOneMore([], box);
  }

  lemma HugeBoxWraps()
    ensures var n := Size3(0x1_0000_0000, 0x1_0000_0000, 1); BoxOf(n, n, Size3(0, 0, 0)).items == 0
  {
    hide Low, High, Extent;
    ExtentOfWhole(0x1_0000_0000);
    ExtentOfWhole(1);
  }

  lemma ExtentOfWhole(n: u64)
    requires 0 < n <= 0x1_0000_0000
    ensures Extent(Low(0, n), High(n, 0, n)) == n
  {
    LowIs(0, n);
    HighIs(n, 0, n);
    ExtentIs(0, n - 1);
  }
}
