/** Which variables are in scope, and which of several of one name is kept, said
    without the walk: by the places in the debug-entry trees the variables have. */
module ScopeOrder {
  import opened Types
  import opened Scopes

  // ---- Places and their order ----

  /** A place is a list of numbers: unit, subprogram, and then the child taken at
      each level. The earlier place is the one smaller at the first difference. */
  predicate Before(p: seq<nat>, q: seq<nat>)
    decreases |p|
  {
    q != [] && (p == [] || p[0] < q[0] || (p[0] == q[0] && Before(p[1..], q[1..])))
  }

  lemma {:induction false} PrefixedBefore(front: seq<nat>, p: seq<nat>, q: seq<nat>)
    ensures Before(front + p, front + q) <==> Before(p, q)
  {
    if front == [] {
      assert front + p == p && front + q == q;
    } else {
      assert (front + p)[1..] == front[1..] + p && (front + q)[1..] == front[1..] + q;
      PrefixedBefore(front[1..], p, q);
    }
  }

  datatype Placed = Placed(place: seq<nat>, v: Var)

  ghost predicate Ordered(ps: seq<Placed>) {
    forall i, j | 0 <= i < j < |ps| :: Before(ps[i].place, ps[j].place)
  }

  function Vars(ps: seq<Placed>): (vs: seq<Var>)
    ensures |vs| == |ps| && forall i | 0 <= i < |ps| :: vs[i] == ps[i].v
  {
    seq(|ps|, i requires 0 <= i < |ps| => ps[i].v)
  }

  function Under(front: seq<nat>, ps: seq<Placed>): (r: seq<Placed>)
    ensures |r| == |ps| && forall i | 0 <= i < |ps| :: r[i] == Placed(front + ps[i].place, ps[i].v)
  {
    seq(|ps|, i requires 0 <= i < |ps| => Placed(front + ps[i].place, ps[i].v))
  }

  lemma UnderIsOrdered(front: seq<nat>, ps: seq<Placed>)
    requires Ordered(ps)
    ensures Ordered(Under(front, ps))
  {
    forall i, j | 0 <= i < j < |ps| ensures Before(Under(front, ps)[i].place, Under(front, ps)[j].place) {
      PrefixedBefore(front, ps[i].place, ps[j].place);
    }
  }

  lemma JoinIsOrdered(a: seq<Placed>, b: seq<Placed>)
    requires Ordered(a) && Ordered(b)
    requires forall i, j | 0 <= i < |a| && 0 <= j < |b| :: Before(a[i].place, b[j].place)
    ensures Ordered(a + b)
  {
  }

  lemma VarsJoin(a: seq<Placed>, b: seq<Placed>)
    ensures Vars(a + b) == Vars(a) + Vars(b)
  {
  }

  lemma InUnder(front: seq<nat>, ps: seq<Placed>, path: seq<nat>, v: Var)
    ensures Placed(front + path, v) in Under(front, ps) <==> Placed(path, v) in ps
  {
    if Placed(front + path, v) in Under(front, ps) {
      var i :| 0 <= i < |ps| && Under(front, ps)[i] == Placed(front + path, v);
      assert (front + path)[|front|..] == path && (front + ps[i].place)[|front|..] == ps[i].place;
      assert ps[i] == Placed(path, v);
    }
    if Placed(path, v) in ps {
      var i :| 0 <= i < |ps| && ps[i] == Placed(path, v);
      assert Under(front, ps)[i] == Placed(front + path, v);
    }
  }

  // ---- The walk with its places ----

  function Met(die: Die, pc: u64): seq<Placed>
    decreases die, 1
  {
    MetAll(die.children, pc)
  }

  function MetAll(dies: seq<Die>, pc: u64): seq<Placed>
    decreases dies, 0
  {
    if dies == [] then []
    else
      var n := |dies| - 1;
      MetAll(dies[..n], pc) +
      (if IsVariable(dies[n]) then [Placed([n], dies[n].variable)]
       else if Entered(dies[n], pc) then Under([n], Met(dies[n], pc)) else [])
  }

  lemma {:induction false} MetIsWalked(dies: seq<Die>, pc: u64)
    ensures Vars(MetAll(dies, pc)) == WalkAll(dies, pc)
    decreases dies
  {
    hide Entered, IsVariable;
    if dies != [] {
      var n := |dies| - 1;
      MetIsWalked(dies[..n], pc);
      MetIsWalked(dies[n].children, pc);
      var last := if IsVariable(dies[n]) then [Placed([n], dies[n].variable)]
        else if Entered(dies[n], pc) then Under([n], Met(dies[n], pc)) else [];
      VarsJoin(MetAll(dies[..n], pc), last);
      assert Vars(last) == if IsVariable(dies[n]) then [dies[n].variable]
        else if Entered(dies[n], pc) then Walk(dies[n], pc) else [];
    }
  }

  /** Places met begin with the number of a child. */
  lemma {:induction false} MetBegins(dies: seq<Die>, pc: u64)
    ensures forall i | 0 <= i < |MetAll(dies, pc)| ::
      MetAll(dies, pc)[i].place != [] && MetAll(dies, pc)[i].place[0] < |dies|
  {
    hide Met, Entered, IsVariable;
    if dies != [] {
      MetBegins(dies[..|dies| - 1], pc);
    }
  }

  /** The walk meets the variables in the order of their places. */
  lemma {:induction false} MetIsOrdered(dies: seq<Die>, pc: u64)
    ensures Ordered(MetAll(dies, pc))
    decreases dies
  {
    hide Entered, IsVariable;
    if dies != [] {
      var n := |dies| - 1;
      MetIsOrdered(dies[..n], pc);
      MetIsOrdered(dies[n].children, pc);
      MetBegins(dies[..n], pc);
      var front := MetAll(dies[..n], pc);
      var last := if IsVariable(dies[n]) then [Placed([n], dies[n].variable)]
        else if Entered(dies[n], pc) then Under([n], Met(dies[n], pc)) else [];
      UnderIsOrdered([n], Met(dies[n], pc));
      JoinIsOrdered(front, last);
    }
  }

  /** The child, or a path below it, is or leads to the variable. */
  ghost predicate Leads(child: Die, pc: u64, rest: seq<nat>, v: Var) {
    if rest == [] then IsVariable(child) && child.variable == v
    else !IsVariable(child) && Entered(child, pc) && Reaches(child, pc, rest, v)
  }

  function MetAt(n: nat, child: Die, pc: u64): seq<Placed> {
    if IsVariable(child) then [Placed([n], child.variable)]
    else if Entered(child, pc) then Under([n], Met(child, pc)) else []
  }

  lemma MetAtIff(n: nat, child: Die, pc: u64, path: seq<nat>, v: Var)
    requires path != [] ==> (Placed(path[1..], v) in Met(child, pc) <==> Reaches(child, pc, path[1..], v))
    ensures Placed(path, v) in MetAt(n, child, pc) <==> path != [] && path[0] == n && Leads(child, pc, path[1..], v)
  {
    hide Entered, IsVariable, Met, Reaches;
    ReachesSomewhere(child, pc, v);
    if path != [] && path[0] == n {
      assert path == [n] + path[1..];
      InUnder([n], Met(child, pc), path[1..], v);
      assert path[1..] == [] <==> path == [n];
    }
  }

  lemma ReachesSomewhere(die: Die, pc: u64, v: Var)
    ensures !Reaches(die, pc, [], v)
  {
  }

  lemma {:induction false} MetAllIff(dies: seq<Die>, pc: u64, path: seq<nat>, v: Var)
    ensures Placed(path, v) in MetAll(dies, pc) <==>
      path != [] && path[0] < |dies| && Leads(dies[path[0]], pc, path[1..], v)
    decreases dies
  {
    hide Entered, IsVariable, Leads;
    if dies != [] {
      var n := |dies| - 1;
      MetAllIff(dies[..n], pc, path, v);
      if path != [] {
        MetAllIff(dies[n].children, pc, path[1..], v);
        ReachesIs(dies[n], pc, path[1..], v);
      }
      MetAtIff(n, dies[n], pc, path, v);
      assert MetAll(dies, pc) == MetAll(dies[..n], pc) + MetAt(n, dies[n], pc);
    }
  }

  lemma ReachesIs(die: Die, pc: u64, path: seq<nat>, v: Var)
    ensures Reaches(die, pc, path, v) <==>
      path != [] && path[0] < |die.children| && Leads(die.children[path[0]], pc, path[1..], v)
  {
  }

  /** The places met are the paths that lead to a variable. */
  lemma MetIff(die: Die, pc: u64, path: seq<nat>, v: Var)
    ensures Placed(path, v) in Met(die, pc) <==> Reaches(die, pc, path, v)
  {
    MetAllIff(die.children, pc, path, v);
    ReachesIs(die, pc, path, v);
  }

  // ---- The units of a program ----

  /** A compile unit: its subprogram at the program counter, if any, and the
      children of its root. */
  datatype Unit = Unit(subprogram: Option<Die>, topLevel: seq<Die>)

  function Subprograms(dies: seq<Die>, pc: u64): seq<Var> {
    if dies == [] then []
    else
      var n := |dies| - 1;
      Subprograms(dies[..n], pc) + (if dies[n].tag.Subprogram? then Walk(dies[n], pc) else [])
  }

  predicate Nameless(vs: seq<Var>) { forall i | 0 <= i < |vs| :: vs[i].name == "" }

  /** Everything looked at, unit by unit: the subprogram at the program counter;
      and as long as nothing named has turned up, every subprogram of the unit. */
  function Listing(units: seq<Unit>, pc: u64): seq<Var> {
    if units == [] then []
    else
      var n := |units| - 1;
      var u := units[n];
      var here := Listing(units[..n], pc) + (if u.subprogram.Some? then Walk(u.subprogram.value, pc) else []);
      here + (if Nameless(here) then Subprograms(u.topLevel, pc) else [])
  }

  /** Some named variable can be reached. */
  ghost predicate FromHere(u: Unit, pc: u64, v: Var) {
    u.subprogram.Some? && Reachable(u.subprogram.value, pc, v)
  }

  ghost predicate FromAny(u: Unit, pc: u64, v: Var) {
    exists i | 0 <= i < |u.topLevel| :: u.topLevel[i].tag.Subprogram? && Reachable(u.topLevel[i], pc, v)
  }

  /** Nothing named can be reached in the units before the k-th. */
  ghost predicate NothingBefore(units: seq<Unit>, k: int, pc: u64)
    requires 0 <= k <= |units|
  {
    forall v: Var, j | v.name != "" && 0 <= j < k :: !FromHere(units[j], pc, v) && !FromAny(units[j], pc, v)
  }

  /** Nor from the subprogram at the program counter of the k-th itself. */
  ghost predicate NothingYet(units: seq<Unit>, k: int, pc: u64)
    requires 0 <= k < |units|
  {
    NothingBefore(units, k, pc) && forall v: Var | v.name != "" :: !FromHere(units[k], pc, v)
  }

  /** The variable at a place that is looked at: in unit place[0], under its
      subprogram at the program counter (0), or, as long as nothing named has
      turned up, under entry place[1] - 1 of the unit if that is a subprogram. */
  ghost predicate LookedAt(units: seq<Unit>, pc: u64, place: seq<nat>, v: Var) {
    |place| >= 2 && place[0] < |units| &&
    var u := units[place[0]];
    if place[1] == 0 then u.subprogram.Some? && Reaches(u.subprogram.value, pc, place[2..], v)
    else
      && NothingYet(units, place[0], pc)
      && place[1] <= |u.topLevel| && u.topLevel[place[1] - 1].tag.Subprogram?
      && Reaches(u.topLevel[place[1] - 1], pc, place[2..], v)
  }

  /** Of the variables of its name looked at, the one at the earliest place. */
  ghost predicate Wins(units: seq<Unit>, pc: u64, place: seq<nat>, v: Var) {
    && v.name != "" && LookedAt(units, pc, place, v)
    && forall other, w: Var | LookedAt(units, pc, other, w) && w.name == v.name ::
         other == place || Before(place, other)
  }

  // ---- What is listed is what is looked at ----

  lemma NamelessWalk(die: Die, pc: u64)
    ensures Nameless(Walk(die, pc)) <==> forall v: Var | v.name != "" :: !Reachable(die, pc, v)
  {
    hide Walk, Reachable;
    var vs := Walk(die, pc);
    forall v: Var ensures v in vs <==> Reachable(die, pc, v) {
      WalkIsReach(die, pc, v);
      assert Walked(die, pc, v) <==> v in vs;
    }
    if !Nameless(vs) {
      var i :| 0 <= i < |vs| && vs[i].name != "";
      assert vs[i] in vs;
    }
    if v: Var :| v.name != "" && v in vs {
      var i :| 0 <= i < |vs| && vs[i] == v;
    }
  }

  lemma NamelessJoin(a: seq<Var>, b: seq<Var>)
    ensures Nameless(a + b) <==> Nameless(a) && Nameless(b)
  {
    if Nameless(a + b) {
      assert forall i | 0 <= i < |a| :: a[i] == (a + b)[i];
      assert forall i | 0 <= i < |b| :: b[i] == (a + b)[|a| + i];
    }
  }

  lemma {:induction false} NamelessSubprograms(dies: seq<Die>, pc: u64)
    ensures Nameless(Subprograms(dies, pc)) <==>
      forall i, v: Var | 0 <= i < |dies| && dies[i].tag.Subprogram? && v.name != "" :: !Reachable(dies[i], pc, v)
  {
    hide Walk, Reachable, Nameless;
    if dies == [] {
      NamelessNothing();
    } else {
      var n := |dies| - 1;
      NamelessSubprograms(dies[..n], pc);
      NamelessWalk(dies[n], pc);
      NamelessNothing();
      NamelessJoin(Subprograms(dies[..n], pc), if dies[n].tag.Subprogram? then Walk(dies[n], pc) else []);
      assert forall i | 0 <= i < n :: dies[..n][i] == dies[i];
    }
  }

  lemma NamelessNothing()
    ensures Nameless([])
  {
  }

  function Here(u: Unit, pc: u64): seq<Var> {
    if u.subprogram.Some? then Walk(u.subprogram.value, pc) else []
  }

  lemma NamelessHere(u: Unit, pc: u64)
    ensures Nameless(Here(u, pc)) <==> forall v: Var | v.name != "" :: !FromHere(u, pc, v)
  {
    hide Walk, Reachable, Nameless;
    NamelessNothing();
    if u.subprogram.Some? {
      NamelessWalk(u.subprogram.value, pc);
    }
  }

  lemma NothingInPrefix(units: seq<Unit>, n: nat, pc: u64)
    requires n <= |units|
    ensures NothingBefore(units[..n], n, pc) <==> NothingBefore(units, n, pc)
  {
    hide FromHere, FromAny;
    assert forall j | 0 <= j < n :: units[..n][j] == units[j];
    if NothingBefore(units[..n], n, pc) {
      forall v: Var, j | v.name != "" && 0 <= j < n ensures !FromHere(units[j], pc, v) && !FromAny(units[j], pc, v) {
        assert units[..n][j] == units[j];
      }
    }
  }

  lemma NothingOneMore(units: seq<Unit>, n: nat, pc: u64)
    requires n < |units|
    ensures NothingBefore(units, n + 1, pc) <==>
      NothingYet(units, n, pc) && forall v: Var | v.name != "" :: !FromAny(units[n], pc, v)
  {
    hide FromHere, FromAny;
  }

  lemma NamelessAny(u: Unit, pc: u64)
    ensures Nameless(Subprograms(u.topLevel, pc)) <==> forall v: Var | v.name != "" :: !FromAny(u, pc, v)
  {
    hide Walk, Reachable, Nameless, Subprograms;
    NamelessSubprograms(u.topLevel, pc);
  }

  lemma {:induction false} NamelessListing(units: seq<Unit>, pc: u64)
    ensures Nameless(Listing(units, pc)) <==> NothingBefore(units, |units|, pc)
    ensures units != [] ==>
      (Nameless(Listing(units[..|units| - 1], pc) + Here(units[|units| - 1], pc)) <==>
         NothingYet(units, |units| - 1, pc))
  {
    hide Nameless, FromHere, FromAny, Subprograms, NothingBefore;
    if units == [] {
      NamelessNothing();
      NothingBeforeAny(units, pc);
    } else {
      var n := |units| - 1;
      var u := units[n];
      NamelessListing(units[..n], pc);
      NothingInPrefix(units, n, pc);
      NothingOneMore(units, n, pc);
      NamelessHere(u, pc);
      NamelessAny(u, pc);
      var here := Listing(units[..n], pc) + Here(u, pc);
      NamelessJoin(Listing(units[..n], pc), Here(u, pc));
      NamelessJoin(here, if Nameless(here) then Subprograms(u.topLevel, pc) else []);
    }
  }

  lemma NothingBeforeAny(units: seq<Unit>, pc: u64)
    ensures NothingBefore(units, 0, pc)
  {
  }

  // ---- The listing with its places ----

  function SubsMet(k: nat, dies: seq<Die>, pc: u64): seq<Placed> {
    if dies == [] then []
    else
      var n := |dies| - 1;
      SubsMet(k, dies[..n], pc) + (if dies[n].tag.Subprogram? then Under([k, n + 1], Met(dies[n], pc)) else [])
  }

  function HereMet(k: nat, u: Unit, pc: u64): seq<Placed> {
    if u.subprogram.Some? then Under([k, 0], Met(u.subprogram.value, pc)) else []
  }

  function Seen(units: seq<Unit>, pc: u64): seq<Placed> {
    if units == [] then []
    else
      var n := |units| - 1;
      var here := Seen(units[..n], pc) + HereMet(n, units[n], pc);
      here + (if Nameless(Vars(here)) then SubsMet(n, units[n].topLevel, pc) else [])
  }

  lemma HereIsWalked(k: nat, u: Unit, pc: u64)
    ensures Vars(HereMet(k, u, pc)) == Here(u, pc)
  {
    if u.subprogram.Some? {
      MetIsWalked(u.subprogram.value.children, pc);
    }
  }

  lemma {:induction false} SubsAreWalked(k: nat, dies: seq<Die>, pc: u64)
    ensures Vars(SubsMet(k, dies, pc)) == Subprograms(dies, pc)
  {
    if dies != [] {
      var n := |dies| - 1;
      SubsAreWalked(k, dies[..n], pc);
      MetIsWalked(dies[n].children, pc);
      VarsJoin(SubsMet(k, dies[..n], pc),
               if dies[n].tag.Subprogram? then Under([k, n + 1], Met(dies[n], pc)) else []);
    }
  }

  lemma {:induction false} SeenIsListed(units: seq<Unit>, pc: u64)
    ensures Vars(Seen(units, pc)) == Listing(units, pc)
  {
    hide Nameless, HereMet, SubsMet, Subprograms, Walk;
    if units != [] {
      var n := |units| - 1;
      SeenIsListed(units[..n], pc);
      HereIsWalked(n, units[n], pc);
      SubsAreWalked(n, units[n].topLevel, pc);
      var here := Seen(units[..n], pc) + HereMet(n, units[n], pc);
      VarsJoin(Seen(units[..n], pc), HereMet(n, units[n], pc));
      VarsJoin(here, if Nameless(Vars(here)) then SubsMet(n, units[n].topLevel, pc) else []);
    }
  }

  /** Places under a unit begin with its number; those under its subprogram at the
      program counter come before those under its other entries. */
  lemma HereBegins(k: nat, u: Unit, pc: u64)
    ensures Ordered(HereMet(k, u, pc))
    ensures forall i | 0 <= i < |HereMet(k, u, pc)| ::
      |HereMet(k, u, pc)[i].place| >= 2 && HereMet(k, u, pc)[i].place[0] == k && HereMet(k, u, pc)[i].place[1] == 0
  {
    hide Before;
    if u.subprogram.Some? {
      MetIsOrdered(u.subprogram.value.children, pc);
      UnderIsOrdered([k, 0], Met(u.subprogram.value, pc));
    }
  }

  lemma {:induction false} SubsBegin(k: nat, dies: seq<Die>, pc: u64)
    ensures Ordered(SubsMet(k, dies, pc))
    ensures forall i | 0 <= i < |SubsMet(k, dies, pc)| ::
      var place := SubsMet(k, dies, pc)[i].place;
      |place| >= 2 && place[0] == k && 1 <= place[1] <= |dies|
  {
    if dies != [] {
      var n := |dies| - 1;
      SubsBegin(k, dies[..n], pc);
      MetIsOrdered(dies[n].children, pc);
      UnderIsOrdered([k, n + 1], Met(dies[n], pc));
      var front := SubsMet(k, dies[..n], pc);
      var last := if dies[n].tag.Subprogram? then Under([k, n + 1], Met(dies[n], pc)) else [];
      forall i, j | 0 <= i < |front| && 0 <= j < |last| ensures Before(front[i].place, last[j].place) {
        SecondSmaller(front[i].place, last[j].place);
      }
      JoinIsOrdered(front, last);
    }
  }

  lemma SecondSmaller(p: seq<nat>, q: seq<nat>)
    requires |p| >= 2 && |q| >= 2 && p[0] == q[0] && p[1] < q[1]
    ensures Before(p, q)
  {
    assert p[1..][0] == p[1] && q[1..][0] == q[1];
  }

  lemma {:induction false} SeenBegins(units: seq<Unit>, pc: u64)
    ensures Ordered(Seen(units, pc))
    ensures forall i | 0 <= i < |Seen(units, pc)| ::
      |Seen(units, pc)[i].place| >= 2 && Seen(units, pc)[i].place[0] < |units|
  {
    hide Nameless, HereMet, SubsMet;
    if units != [] {
      var n := |units| - 1;
      SeenBegins(units[..n], pc);
      HereBegins(n, units[n], pc);
      SubsBegin(n, units[n].topLevel, pc);
      var front, mine, subs := Seen(units[..n], pc), HereMet(n, units[n], pc), SubsMet(n, units[n].topLevel, pc);
      JoinIsOrdered(front, mine);
      var here := front + mine;
      forall i, j | 0 <= i < |here| && 0 <= j < |subs| ensures Before(here[i].place, subs[j].place) {
        if i >= |front| {
          SecondSmaller(here[i].place, subs[j].place);
        }
      }
      JoinIsOrdered(here, subs);
    }
  }

  lemma HereMetIff(k: nat, u: Unit, pc: u64, place: seq<nat>, v: Var)
    ensures Placed(place, v) in HereMet(k, u, pc) <==>
      |place| >= 2 && place[0] == k && place[1] == 0 && u.subprogram.Some? &&
      Reaches(u.subprogram.value, pc, place[2..], v)
  {
    hide Met, Reaches;
    if u.subprogram.Some? {
      if |place| >= 2 && place[0] == k && place[1] == 0 {
        assert place == [k, 0] + place[2..];
        InUnder([k, 0], Met(u.subprogram.value, pc), place[2..], v);
        MetIff(u.subprogram.value, pc, place[2..], v);
      } else {
        HereBegins(k, u, pc);
      }
    }
  }

  lemma {:induction false} SubsMetIff(k: nat, dies: seq<Die>, pc: u64, place: seq<nat>, v: Var)
    ensures Placed(place, v) in SubsMet(k, dies, pc) <==>
      |place| >= 2 && place[0] == k && 1 <= place[1] <= |dies| && dies[place[1] - 1].tag.Subprogram? &&
      Reaches(dies[place[1] - 1], pc, place[2..], v)
  {
    hide Met, Reaches;
    SubsBegin(k, dies, pc);
    if dies != [] {
      var n := |dies| - 1;
      SubsMetIff(k, dies[..n], pc, place, v);
      SubsBegin(k, dies[..n], pc);
      if |place| >= 2 && place[0] == k && place[1] == n + 1 {
        assert place == [k, n + 1] + place[2..];
        InUnder([k, n + 1], Met(dies[n], pc), place[2..], v);
        MetIff(dies[n], pc, place[2..], v);
      }
    }
  }

  /** Listed are exactly the variables looked at. */
  lemma {:induction false} SeenIff(units: seq<Unit>, pc: u64, place: seq<nat>, v: Var)
    ensures Placed(place, v) in Seen(units, pc) <==> LookedAt(units, pc, place, v)
  {
    hide Nameless, HereMet, SubsMet, Reaches, NothingBefore, FromHere;
    SeenBegins(units, pc);
    if units != [] {
      var n := |units| - 1;
      var u := units[n];
      SeenIff(units[..n], pc, place, v);
      SeenBegins(units[..n], pc);
      HereMetIff(n, u, pc, place, v);
      SubsMetIff(n, u.topLevel, pc, place, v);
      HereIsWalked(n, u, pc);
      SeenIsListed(units[..n], pc);
      VarsJoin(Seen(units[..n], pc), HereMet(n, u, pc));
      NamelessListing(units, pc);
      if |place| >= 2 && place[0] < n {
        NothingInPrefix(units, place[0], pc);
        NothingInPrefix(units[..n], place[0], pc);
        assert units[..n][..place[0]] == units[..place[0]];
        assert units[..n][place[0]] == units[place[0]];
      }
    }
  }

  // ---- The first of each name ----

  lemma {:induction false} FirstsAre(vs: seq<Var>, n: nat, v: Var)
    requires n <= |vs|
    ensures v in Firsts(vs, n) <==> exists i | 0 <= i < n :: vs[i] == v && IsFirst(vs, i)
  {
    hide IsFirst;
    if n > 0 {
      FirstsAre(vs, n - 1, v);
    }
  }

  lemma {:induction false} NotBeforeBoth(p: seq<nat>, q: seq<nat>)
    ensures !(Before(p, q) && Before(q, p)) && !Before(p, p)
    decreases |p|
  {
    if p != [] {
      NotBeforeBoth(p[1..], if q == [] then [] else q[1..]);
    }
  }

  lemma FirstWins(units: seq<Unit>, pc: u64, i: nat)
    requires i < |Listing(units, pc)| && IsFirst(Listing(units, pc), i)
    ensures |Seen(units, pc)| == |Listing(units, pc)|
    ensures Wins(units, pc, Seen(units, pc)[i].place, Listing(units, pc)[i])
  {
    hide LookedAt, Seen, Listing, Before;
    SeenIsListed(units, pc);
    SeenBegins(units, pc);
    var seen, vs := Seen(units, pc), Listing(units, pc);
    assert vs[i] == seen[i].v;
    SeenIff(units, pc, seen[i].place, vs[i]);
    assert seen[i] in seen;
    forall other, w: Var | LookedAt(units, pc, other, w) && w.name == vs[i].name
      ensures other == seen[i].place || Before(seen[i].place, other)
    {
      SeenIff(units, pc, other, w);
      var j :| 0 <= j < |seen| && seen[j] == Placed(other, w);
      assert vs[j] == w;
      assert j >= i;
    }
  }

  lemma WinnerIsFirst(units: seq<Unit>, pc: u64, place: seq<nat>, v: Var) returns (i: nat)
    requires Wins(units, pc, place, v)
    ensures i < |Listing(units, pc)| && Listing(units, pc)[i] == v && IsFirst(Listing(units, pc), i)
    ensures i < |Seen(units, pc)| && Seen(units, pc)[i] == Placed(place, v)
  {
    hide LookedAt, Seen, Listing, Before;
    SeenIsListed(units, pc);
    SeenBegins(units, pc);
    var seen, vs := Seen(units, pc), Listing(units, pc);
    SeenIff(units, pc, place, v);
    i :| 0 <= i < |seen| && seen[i] == Placed(place, v);
    assert vs[i] == v;
    forall j | 0 <= j < i ensures vs[j].name != v.name {
      if vs[j].name == v.name {
        assert seen[j] in seen && seen[j].v == vs[j];
        SeenIff(units, pc, seen[j].place, seen[j].v);
        assert Before(seen[j].place, place);
        NotBeforeBoth(seen[j].place, place);
      }
    }
  }

  /** The result holds a variable exactly if it wins somewhere, and lists them in
      the order of those places. */
  ghost predicate InScope(units: seq<Unit>, pc: u64, vars: seq<Var>) {
    && (forall v: Var :: v in vars <==> exists place :: Wins(units, pc, place, v))
    && (forall i, j | 0 <= i < j < |vars| :: WinsSooner(units, pc, vars[i], vars[j]))
  }

  ghost predicate WinsSooner(units: seq<Unit>, pc: u64, v: Var, w: Var) {
    exists p, q :: Wins(units, pc, p, v) && Wins(units, pc, q, w) && Before(p, q)
  }

  lemma AtSooner(units: seq<Unit>, pc: u64, p: seq<nat>, v: Var, q: seq<nat>, w: Var)
    requires Wins(units, pc, p, v) && Wins(units, pc, q, w) && Before(p, q)
    ensures WinsSooner(units, pc, v, w)
  {
    hide Wins;
  }

  /** Which indices of the listing are kept, in ascending order. */
  lemma {:induction false} FirstsAscend(vs: seq<Var>, n: nat) returns (at: seq<nat>)
    requires n <= |vs|
    ensures |at| == |Firsts(vs, n)|
    ensures forall i | 0 <= i < |at| :: at[i] < n && IsFirst(vs, at[i]) && Firsts(vs, n)[i] == vs[at[i]]
    ensures forall i, j | 0 <= i < j < |at| :: at[i] < at[j]
  {
    hide IsFirst;
    if n == 0 {
      at := [];
    } else {
      at := FirstsAscend(vs, n - 1);
      if IsFirst(vs, n - 1) {
        at := at + [n - 1];
      }
    }
  }

  lemma FirstsInScope(units: seq<Unit>, pc: u64)
    ensures InScope(units, pc, Firsts(Listing(units, pc), |Listing(units, pc)|))
  {
    hide Wins, WinsSooner, Listing, Seen, IsFirst, Before, Firsts;
    var vs := Listing(units, pc);
    var vars := Firsts(vs, |vs|);
    forall v: Var ensures v in vars <==> exists place :: Wins(units, pc, place, v) {
      FirstsAre(vs, |vs|, v);
      if v in vars {
        var i :| 0 <= i < |vs| && vs[i] == v && IsFirst(vs, i);
        FirstWins(units, pc, i);
      }
      if place :| Wins(units, pc, place, v) {
        var i := WinnerIsFirst(units, pc, place, v);
      }
    }
    var at := FirstsAscend(vs, |vs|);
    SeenBegins(units, pc);
    forall i, j | 0 <= i < j < |vars|
      ensures WinsSooner(units, pc, vars[i], vars[j])
    {
      FirstWins(units, pc, at[i]);
      FirstWins(units, pc, at[j]);
      AtSooner(units, pc, Seen(units, pc)[at[i]].place, vars[i], Seen(units, pc)[at[j]].place, vars[j]);
    }
  }

  lemma {:induction false} FoldEmptyIff(vs: seq<Var>)
    ensures Fold([], vs) == [] <==> Nameless(vs)
  {
    if vs != [] {
      var n := |vs| - 1;
      FoldEmptyIff(vs[..n]);
      assert Nameless(vs) <==> Nameless(vs[..n]) && vs[n].name == "";
    }
  }

  method CollectSubprograms(dies: seq<Die>, pc: u64, vars: seq<Var>) returns (out: seq<Var>)
    ensures out == Fold(vars, Subprograms(dies, pc))
  {
    out := vars;
    for i := 0 to |dies|
      invariant out == Fold(vars, Subprograms(dies[..i], pc))
    {
      assert dies[..i + 1][..i] == dies[..i];
      if dies[i].tag.Subprogram? {
        FoldJoin(vars, Subprograms(dies[..i], pc), Walk(dies[i], pc));
        out := CollectDieVars(dies[i], pc, out);
      } else {
        assert Subprograms(dies[..i], pc) + [] == Subprograms(dies[..i], pc);
      }
    }
    assert dies[..|dies|] == dies;
  }

  // ---- The methods ----

  /** The variables in scope: of each name that is looked at, the variable at the
      earliest place, in the order of their places; unnamed ones are left out. */
  method VariablesInScope(units: seq<Unit>, pc: u64) returns (vars: seq<Var>)
    ensures InScope(units, pc, vars) && Distinct(vars)
  {
    hide Fold, Listing, Firsts, Distinct, HasName, InScope;
    vars := [];
    NothingListed(pc);
    for i := 0 to |units|
      invariant vars == Fold([], Listing(units[..i], pc))
    {
      vars := UnitVars(units[..i], units[i], pc, vars);
      assert units[..i] + [units[i]] == units[..i + 1];
    }
    assert units[..|units|] == units;
    var all := Listing(units, pc);
    FoldIsFirsts(all, |all|);
    FirstsAreDistinct(all, |all|);
    FirstsInScope(units, pc);
    assert all[..|all|] == all;
  }

  lemma NothingListed(pc: u64)
    ensures Fold([], Listing([], pc)) == []
  {
  }

  method UnitVars(ghost done: seq<Unit>, u: Unit, pc: u64, vars: seq<Var>) returns (out: seq<Var>)
    requires vars == Fold([], Listing(done, pc))
    ensures out == Fold([], Listing(done + [u], pc))
  {
    assert (done + [u])[..|done|] == done;
    out := vars;
    ghost var here := Listing(done, pc) + (if u.subprogram.Some? then Walk(u.subprogram.value, pc) else []);
    if u.subprogram.Some? {
      FoldJoin([], Listing(done, pc), Walk(u.subprogram.value, pc));
      out := CollectDieVars(u.subprogram.value, pc, out);
    } else {
      assert here == Listing(done, pc);
    }
    FoldEmptyIff(here);
    if out == [] {
      FoldJoin([], here, Subprograms(u.topLevel, pc));
      out := CollectSubprograms(u.topLevel, pc, out);
    } else {
      assert here + [] == here;
    }
  }
}
