/** Which variables are in scope at a program counter: the recursive walk of the
    debug-entry tree, keeping the first variable of each name. */
module Scopes {
  import opened Types

  datatype Tag = Variable | Parameter | Inlined | Block | Subprogram | Other

  /** A variable as the walk records it: its name and the entry it comes from. */
  datatype Var = Var(name: string, offset: nat)

  /** A debug entry: its tag, its variable (for variables and parameters), the
      address ranges it covers and its children. */
  datatype Die = Die(tag: Tag, variable: Var, ranges: seq<(u64, u64)>, children: seq<Die>)

  predicate Covers(die: Die, pc: u64) {
    exists i | 0 <= i < |die.ranges| :: die.ranges[i].0 <= pc < die.ranges[i].1
  }

  predicate IsVariable(die: Die) { die.tag.Variable? || die.tag.Parameter? }

  /** The walk goes into inlined subroutines always, and into lexical blocks that
      cover the program counter, or all of them when it is 0. */
  predicate Entered(die: Die, pc: u64) {
    die.tag.Inlined? || (die.tag.Block? && (pc == 0 || Covers(die, pc)))
  }

  /** Ranges are half open: of two blocks that meet at an address, exactly one is
      entered at each address of the two, the second at the one they share. */
  lemma NeighboursSplit(first: Die, second: Die, low: u64, middle: u64, high: u64, pc: u64)
    requires first.tag.Block? && second.tag.Block? && low <= middle <= high
    requires first.ranges == [(low, middle)] && second.ranges == [(middle, high)]
    ensures pc != 0 ==> (Entered(first, pc) <==> low <= pc < middle) && (Entered(second, pc) <==> middle <= pc < high)
    ensures pc != 0 ==> (low <= pc < high <==> Entered(first, pc) != Entered(second, pc))
    ensures pc == 0 ==> Entered(first, pc) && Entered(second, pc)
  {
    assert first.ranges[0] == (low, middle) && second.ranges[0] == (middle, high);
  }

  /** More ranges cover more: an entry is covered where any of its ranges is. */
  lemma RangesJoin(die: Die, more: seq<(u64, u64)>, pc: u64)
    ensures Covers(die.(ranges := die.ranges + more), pc) <==> Covers(die, pc) || Covers(die.(ranges := more), pc)
  {
    var all := die.ranges + more;
    assert forall i | 0 <= i < |die.ranges| :: all[i] == die.ranges[i];
    assert forall i | 0 <= i < |more| :: all[|die.ranges| + i] == more[i];
  }

  // ---- The walk ----

  /** Every variable the walk meets, in the order it meets them. */
  function Walk(die: Die, pc: u64): seq<Var>
    decreases die, 1
  {
    WalkAll(die.children, pc)
  }

  function WalkAll(dies: seq<Die>, pc: u64): seq<Var>
    decreases dies, 0
  {
    if dies == [] then []
    else
      var n := |dies| - 1;
      WalkAll(dies[..n], pc) +
      (if IsVariable(dies[n]) then [dies[n].variable] else if Entered(dies[n], pc) then Walk(dies[n], pc) else [])
  }

  /** What the walk does with one child, by its tag: variables and parameters are
      recorded, inlined subroutines always gone into, lexical blocks where the
      program counter is in one of their ranges, or everywhere when it is 0, and
      everything else is passed over. */
  lemma OneChild(child: Die, pc: u64)
    ensures WalkAll([child], pc) ==
      match child.tag
      case Variable => [child.variable]
      case Parameter => [child.variable]
      case Inlined => Walk(child, pc)
      case Block =>
        if pc == 0 || exists i | 0 <= i < |child.ranges| :: child.ranges[i].0 <= pc < child.ranges[i].1
        then Walk(child, pc) else []
      case Subprogram => []
      case Other => []
  {
    hide Walk;
    OneMoreChild([child], 0, pc);
    assert [child][..1] == [child] && [child][..0] == [];
  }

  /** A chain of children leads from the entry to the variable, through entered
      entries only. */
  ghost predicate Reaches(die: Die, pc: u64, path: seq<nat>, v: Var)
    decreases |path|
  {
    path != [] && path[0] < |die.children| &&
    var child := die.children[path[0]];
    if |path| == 1 then IsVariable(child) && child.variable == v
    else !IsVariable(child) && Entered(child, pc) && Reaches(child, pc, path[1..], v)
  }

  ghost predicate Reachable(die: Die, pc: u64, v: Var) {
    exists path: seq<nat> :: Reaches(die, pc, path, v)
  }

  predicate Walked(die: Die, pc: u64, v: Var) { v in Walk(die, pc) }

  /** The walk meets exactly the variables that can be reached. */
  lemma WalkIsReach(die: Die, pc: u64, v: Var)
    ensures Walked(die, pc, v) <==> Reachable(die, pc, v)
  {
    hide Reaches, Walk;
    if Walked(die, pc, v) {
      var path := WalkedIsReached(die, pc, v);
    }
    if Reachable(die, pc, v) {
      var path: seq<nat> :| Reaches(die, pc, path, v);
      ReachedIsWalked(die, pc, path, v);
    }
  }

  lemma {:induction false} WalkedIsReached(die: Die, pc: u64, v: Var) returns (path: seq<nat>)
    requires v in Walk(die, pc)
    ensures Reaches(die, pc, path, v)
    decreases die
  {
    WalkAllMeets(die.children, pc, v);
    var i :| 0 <= i < |die.children| && Meets(die.children[i], pc, v);
    var child := die.children[i];
    if IsVariable(child) {
      path := [i];
    } else {
      var rest := WalkedIsReached(child, pc, v);
      path := [i] + rest;
      assert path[1..] == rest;
    }
  }

  lemma {:induction false} ReachedIsWalked(die: Die, pc: u64, path: seq<nat>, v: Var)
    requires Reaches(die, pc, path, v)
    ensures v in Walk(die, pc)
    decreases |path|
  {
    WalkAllMeets(die.children, pc, v);
    var child := die.children[path[0]];
    if |path| > 1 {
      ReachedIsWalked(child, pc, path[1..], v);
    }
    assert Meets(child, pc, v);
  }

  predicate Meets(child: Die, pc: u64, v: Var) {
    if IsVariable(child) then child.variable == v else Entered(child, pc) && v in Walk(child, pc)
  }

  lemma {:induction false} WalkAllMeets(dies: seq<Die>, pc: u64, v: Var)
    ensures v in WalkAll(dies, pc) <==> exists i | 0 <= i < |dies| :: Meets(dies[i], pc, v)
  {
    if dies != [] {
      hide Walk, IsVariable, Entered;
      var n := |dies| - 1;
      WalkAllMeets(dies[..n], pc, v);
      OneMoreChild(dies, n, pc);
      assert dies[..n + 1] == dies;
      assert forall i | 0 <= i < n :: dies[..n][i] == dies[i];
    }
  }

  // ---- First name wins ----

  predicate HasName(vars: seq<Var>, name: string) {
    exists i | 0 <= i < |vars| :: vars[i].name == name
  }

  function Append(vars: seq<Var>, v: Var): seq<Var> {
    if v.name == "" || HasName(vars, v.name) then vars else vars + [v]
  }

  function Fold(vars: seq<Var>, vs: seq<Var>): seq<Var> {
    if vs == [] then vars else Append(Fold(vars, vs[..|vs| - 1]), vs[|vs| - 1])
  }

  lemma {:induction false} FoldJoin(vars: seq<Var>, a: seq<Var>, b: seq<Var>)
    ensures Fold(vars, a + b) == Fold(Fold(vars, a), b)
  {
    if b == [] {
      assert a + b == a;
    } else {
      var n := |b| - 1;
      FoldJoin(vars, a, b[..n]);
      assert (a + b)[..|a + b| - 1] == a + b[..n];
    }
  }

  /** Named, and no variable before it has its name. */
  predicate IsFirst(vs: seq<Var>, i: int)
    requires 0 <= i < |vs|
  {
    vs[i].name != "" && forall j | 0 <= j < i :: vs[j].name != vs[i].name
  }

  /** The variables that are the first of their name, in order. */
  function Firsts(vs: seq<Var>, n: nat): seq<Var>
    requires n <= |vs|
  {
    if n == 0 then []
    else if IsFirst(vs, n - 1) then Firsts(vs, n - 1) + [vs[n - 1]]
    else Firsts(vs, n - 1)
  }

  lemma FirstIff(vs: seq<Var>, n: nat)
    requires n < |vs|
    ensures IsFirst(vs, n) <==> vs[n].name != "" && !HasName(vs[..n], vs[n].name)
  {
    assert forall j | 0 <= j < n :: vs[..n][j] == vs[j];
  }

  /** Collecting loses no name and keeps of each the first. */
  lemma {:induction false} FoldIsFirsts(vs: seq<Var>, n: nat)
    requires n <= |vs|
    ensures Fold([], vs[..n]) == Firsts(vs, n)
    ensures forall name | name != "" :: HasName(Firsts(vs, n), name) <==> HasName(vs[..n], name)
  {
    if n == 0 {
      assert vs[..n] == [];
    } else {
      hide IsFirst, HasName;
      FoldIsFirsts(vs, n - 1);
      var v := vs[n - 1];
      assert vs[..n][..n - 1] == vs[..n - 1];
      FirstIff(vs, n - 1);
      forall name | name != "" ensures HasName(Firsts(vs, n), name) <==> HasName(vs[..n], name) {
        NameJoins(Firsts(vs, n - 1), v, name);
        NameJoins(vs[..n - 1], v, name);
        assert vs[..n - 1] + [v] == vs[..n];
      }
    }
  }

  lemma NameJoins(vars: seq<Var>, v: Var, name: string)
    ensures HasName(vars + [v], name) <==> HasName(vars, name) || v.name == name
  {
    assert (vars + [v])[|vars|] == v;
    assert forall i | 0 <= i < |vars| :: (vars + [v])[i] == vars[i];
  }

  predicate Distinct(vars: seq<Var>) {
    (forall i | 0 <= i < |vars| :: vars[i].name != "") &&
    forall i, j | 0 <= i < j < |vars| :: vars[i].name != vars[j].name
  }

  lemma {:induction false} FirstsAreDistinct(vs: seq<Var>, n: nat)
    requires n <= |vs|
    ensures Distinct(Firsts(vs, n))
  {
    if n > 0 {
      FirstsAreDistinct(vs, n - 1);
      FoldIsFirsts(vs, n - 1);
      FirstIff(vs, n - 1);
      if IsFirst(vs, n - 1) {
        var name := vs[n - 1].name;
        assert !HasName(vs[..n - 1], name);
        assert !HasName(Firsts(vs, n - 1), name);
      }
    }
  }

  // ---- The methods ----

  method AppendUniqueVar(vars: seq<Var>, v: Var) returns (out: seq<Var>)
    ensures out == Append(vars, v)
  {
    if v.name == "" {
      return vars;
    }
    var exists' := false;
    for i := 0 to |vars|
      invariant exists' <==> exists j | 0 <= j < i :: vars[j].name == v.name
    {
      exists' := exists' || vars[i].name == v.name;
    }
    return if exists' then vars else vars + [v];
  }

  /** The recursive walk with its accumulator. That it is accepted at all says
      that the recursion ends on every tree. */
  method CollectDieVars(die: Die, pc: u64, vars: seq<Var>) returns (out: seq<Var>)
    ensures out == Fold(vars, Walk(die, pc))
    decreases die
  {
    hide Walk, WalkAll, Fold, Append;
    out := vars;
    NoChildren(vars, pc);
    for i := 0 to |die.children|
      invariant out == Fold(vars, WalkAll(die.children[..i], pc))
    {
      var child := die.children[i];
      ghost var before := WalkAll(die.children[..i], pc);
      OneMoreChild(die.children, i, pc);
      if child.tag.Variable? || child.tag.Parameter? {
        FoldJoin(vars, before, [child.variable]);
        FoldOne(out, child.variable);
        out := AppendUniqueVar(out, child.variable);
      } else if child.tag.Inlined? {
        FoldJoin(vars, before, Walk(child, pc));
        out := CollectDieVars(child, pc, out);
      } else if child.tag.Block? {
        if pc == 0 || Covers(child, pc) {
          FoldJoin(vars, before, Walk(child, pc));
          out := CollectDieVars(child, pc, out);
        } else {
          assert before + [] == before;
        }
      } else {
        assert before + [] == before;
      }
    }
    assert die.children[..|die.children|] == die.children;
    WalkIsAll(die, pc);
  }

  lemma NoChildren(vars: seq<Var>, pc: u64)
    ensures Fold(vars, WalkAll([], pc)) == vars
  {
  }

  lemma WalkIsAll(die: Die, pc: u64)
    ensures Walk(die, pc) == WalkAll(die.children, pc)
  {
  }

  lemma OneMoreChild(dies: seq<Die>, i: nat, pc: u64)
    requires i < |dies|
    ensures WalkAll(dies[..i + 1], pc) == WalkAll(dies[..i], pc) +
      (if IsVariable(dies[i]) then [dies[i].variable] else if Entered(dies[i], pc) then Walk(dies[i], pc) else [])
  {
    assert dies[..i + 1][..i] == dies[..i];
  }

  lemma FoldOne(vars: seq<Var>, v: Var)
    ensures Fold(vars, [v]) == Append(vars, v)
  {
    assert [v][..0] == [];
  }
}
