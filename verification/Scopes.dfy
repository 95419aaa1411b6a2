/** What queries and systems access, and the conflict test that decides who may run beside whom. */
module Scopes {
  import opened Prelude
  import opened BitSets

  // ---------------------------------------------------------------------------------------------
  // Scopes as values
  // ---------------------------------------------------------------------------------------------

  /** The component ids one query reads, writes and excludes. */
  datatype Scope = Scope(read: set<nat>, write: set<nat>, exclude: set<nat>)

  /** The scope selects the archetypes with this component set. */
  predicate Matches(s: Scope, cs: set<nat>) {
    s.read <= cs && s.write <= cs && s.exclude * cs == {}
  }

  /** One side writes what the other reads or writes. */
  ghost predicate Collide(a: Scope, b: Scope) {
    a.read * b.write != {} || a.write * b.read != {} || a.write * b.write != {}
  }

  /** One side excludes what the other requires. */
  ghost predicate KeptApart(a: Scope, b: Scope) {
    a.exclude * b.read != {} || a.exclude * b.write != {} || b.exclude * a.read != {} || b.exclude * a.write != {}
  }

  ghost predicate Conflicts(a: Scope, b: Scope) {
    !KeptApart(a, b) && Collide(a, b)
  }

  /** The scope does not exclude what it requires itself. */
  ghost predicate Satisfiable(s: Scope) {
    s.exclude * s.read == {} && s.exclude * s.write == {}
  }

  ghost function Union(a: Scope, b: Scope): Scope {
    Scope(a.read + b.read, a.write + b.write, a.exclude + b.exclude)
  }

  /**
    The test is sound for all scopes and exact for satisfiable ones: some component set is matched
    by both, and their accesses collide, exactly when the test says so and neither scope excludes
    what it requires itself.
   */
  lemma ConflictIsExact(a: Scope, b: Scope)
    ensures (exists cs :: Matches(a, cs) && Matches(b, cs) && Collide(a, b)) <==> Conflicts(a, b) && Satisfiable(a) && Satisfiable(b)
  {
    forall cs | Matches(a, cs) && Matches(b, cs)
      ensures !KeptApart(a, b) && Satisfiable(a) && Satisfiable(b)
    {
      MatchedIsApart(a, b, cs);
    }
    if Conflicts(a, b) && Satisfiable(a) && Satisfiable(b) {
      var cs := a.read + a.write + b.read + b.write;
      SplitExcluded(a.exclude, a.read, a.write, b.read, b.write);
      SplitExcluded(b.exclude, a.read, a.write, b.read, b.write);
      assert Matches(a, cs) && Matches(b, cs);
    }
  }

  lemma MatchedIsApart(a: Scope, b: Scope, cs: set<nat>)
    requires Matches(a, cs) && Matches(b, cs)
    ensures !KeptApart(a, b) && Satisfiable(a) && Satisfiable(b)
  {
    WithinMatched(a.exclude, a.read, cs);
    WithinMatched(a.exclude, a.write, cs);
    WithinMatched(a.exclude, b.read, cs);
    WithinMatched(a.exclude, b.write, cs);
    WithinMatched(b.exclude, a.read, cs);
    WithinMatched(b.exclude, a.write, cs);
    WithinMatched(b.exclude, b.read, cs);
    WithinMatched(b.exclude, b.write, cs);
  }

  lemma WithinMatched(x: set<nat>, y: set<nat>, cs: set<nat>)
    requires y <= cs && x * cs == {}
    ensures x * y == {}
  {
    if id :| id in x * y {
      assert id in x * cs;
    }
  }

  lemma SplitExcluded(x: set<nat>, r: set<nat>, w: set<nat>, r': set<nat>, w': set<nat>)
    requires x * r == {} && x * w == {} && x * r' == {} && x * w' == {}
    ensures x * (r + w + r' + w') == {}
  {
    forall id | id in x
      ensures id !in r && id !in w && id !in r' && id !in w'
    {
      assert (id in r ==> id in x * r) && (id in w ==> id in x * w) && (id in r' ==> id in x * r') && (id in w' ==> id in x * w');
    }
  }

  /** A scope that excludes what it requires matches nothing, yet the test may still report a conflict. */
  lemma UnsatisfiableScopesMayConflict()
    ensures var a, b := Scope({}, {1, 2}, {2}), Scope({1}, {}, {});
            Conflicts(a, b) && !exists cs :: Matches(a, cs) && Matches(b, cs)
  {
    var a, b := Scope({}, {1, 2}, {2}), Scope({1}, {}, {});
    assert 1 in a.write * b.read;
    forall cs
      ensures !Matches(a, cs)
    {
      assert 2 in a.write && (2 in cs ==> 2 in a.exclude * cs);
    }
  }

  /** Folding one element of a query into another selects the archetypes both select. */
  lemma UnionMatches(a: Scope, b: Scope, cs: set<nat>)
    ensures Matches(Union(a, b), cs) <==> Matches(a, cs) && Matches(b, cs)
  {
    assert (a.exclude + b.exclude) * cs == a.exclude * cs + b.exclude * cs;
  }

  lemma ConflictsSymmetric(a: Scope, b: Scope)
    ensures Conflicts(a, b) <==> Conflicts(b, a)
  {
    assert a.read * b.write == b.write * a.read && a.write * b.read == b.read * a.write && a.write * b.write == b.write * a.write;
  }

  /** No parameter of one system conflicts with a parameter of the other. */
  ghost predicate Compatible(xs: seq<Scope>, ys: seq<Scope>) {
    forall i, j :: 0 <= i < |xs| && 0 <= j < |ys| ==> !Conflicts(xs[i], ys[j])
  }

  /** The parameters of one system may be alive together. */
  ghost predicate Coherent(xs: seq<Scope>) {
    forall i, j :: 0 <= i < j < |xs| ==> !Conflicts(xs[i], xs[j])
  }

  /** Compatible systems never meet on an archetype with one writing what the other touches. */
  lemma CompatibleNeverCollide(xs: seq<Scope>, ys: seq<Scope>, i: nat, j: nat, cs: set<nat>)
    requires Compatible(xs, ys) && i < |xs| && j < |ys| && Matches(xs[i], cs) && Matches(ys[j], cs)
    ensures xs[i].write * (ys[j].read + ys[j].write) == {} && ys[j].write * (xs[i].read + xs[i].write) == {}
  {
    ConflictIsExact(xs[i], ys[j]);
    assert !Collide(xs[i], ys[j]);
    assert xs[i].write * (ys[j].read + ys[j].write) == xs[i].write * ys[j].read + xs[i].write * ys[j].write;
    assert ys[j].write * (xs[i].read + xs[i].write) == xs[i].read * ys[j].write + xs[i].write * ys[j].write;
  }

  // ---------------------------------------------------------------------------------------------
  // Scopes as the program keeps them
  // ---------------------------------------------------------------------------------------------

  class AccessScope {
    const read: ComponentBitSet
    const write: ComponentBitSet
    const exclude: ComponentBitSet

    constructor ()
      ensures Valid() && View() == Scope({}, {}, {}) && fresh(read) && fresh(write) && fresh(exclude)
    {
      read := new ComponentBitSet();
      write := new ComponentBitSet();
      exclude := new ComponentBitSet();
    }

    ghost predicate Valid() {
      read != write && read != exclude && write != exclude
    }

    ghost function View(): Scope
      reads read, write, exclude
    {
      Scope(read.Ids(), write.Ids(), exclude.Ids())
    }

    method CollideWith(other: AccessScope) returns (r: bool)
      ensures r <==> Collide(View(), other.View())
    {
      r := read.Intersects(other.write);
      if !r {
        r := write.Intersects(other.read);
      }
      if !r {
        r := write.Intersects(other.write);
      }
    }

    method MatchesArchetypesDisjointFrom(other: AccessScope) returns (r: bool)
      ensures r <==> KeptApart(View(), other.View())
    {
      r := exclude.Intersects(other.read);
      if !r {
        r := exclude.Intersects(other.write);
      }
      if !r {
        r := other.exclude.Intersects(read);
      }
      if !r {
        r := other.exclude.Intersects(write);
      }
    }

    method ConflictsWith(other: AccessScope) returns (r: bool)
      ensures r <==> Conflicts(View(), other.View())
    {
      var apart := MatchesArchetypesDisjointFrom(other);
      if apart {
        return false;
      }
      r := CollideWith(other);
    }

    /** Whether an archetype with these component ids is one the scope selects. */
    method BelongTo(components: ComponentBitSet) returns (r: bool)
      ensures r <==> Matches(View(), components.Ids())
    {
      r := components.ContainsAll(read);
      if r {
        r := components.ContainsAll(write);
      }
      if r {
        var excluded := components.Intersects(exclude);
        assert exclude.Ids() * components.Ids() == components.Ids() * exclude.Ids();
        r := !excluded;
      }
    }

    /** The scope of a tuple grows by one element: refused exactly on a collision, else the union of both. */
    method Extend(other: AccessScope) returns (ok: bool)
      requires Valid() && {read, write, exclude} !! {other.read, other.write, other.exclude}
      modifies read, write, exclude
      ensures ok <==> !old(Collide(View(), other.View()))
      ensures View() == if ok then old(Union(View(), other.View())) else old(View())
      ensures other.View() == old(other.View())
    {
      var collide := CollideWith(other);
      if collide {
        return false;
      }
      read.UnionWith(other.read);
      write.UnionWith(other.write);
      exclude.UnionWith(other.exclude);
      return true;
    }
  }

  class AccessScopes {
    var scopes: seq<AccessScope>

    constructor ()
      ensures scopes == []
    {
      scopes := [];
    }

    /** Everything the scopes are made of. */
    ghost function Sets(): set<object>
      reads this
    {
      (set s | s in scopes :: s.read) + (set s | s in scopes :: s.write) + (set s | s in scopes :: s.exclude)
    }

    ghost function View(): (v: seq<Scope>)
      reads this, Sets()
      ensures |v| == |scopes| && forall i :: 0 <= i < |v| ==> v[i] == scopes[i].View()
    {
      ViewOf(scopes)
    }

    /** Registers one parameter unless it conflicts with one registered before. */
    method Push(scope: AccessScope) returns (ok: bool)
      modifies this
      ensures ok <==> forall i :: 0 <= i < |old(scopes)| ==> !old(Conflicts(scopes[i].View(), scope.View()))
      ensures scopes == if ok then old(scopes) + [scope] else old(scopes)
    {
      for i := 0 to |scopes|
        invariant scopes == old(scopes)
        invariant forall j :: 0 <= j < i ==> !Conflicts(scopes[j].View(), scope.View())
      {
        var conflict := scopes[i].ConflictsWith(scope);
        if conflict {
          return false;
        }
      }
      scopes := scopes + [scope];
      return true;
    }

    method CanParallelWith(other: AccessScopes) returns (r: bool)
      ensures r <==> Compatible(View(), other.View())
    {
      hide Conflicts;
      for i := 0 to |scopes|
        invariant forall k, j :: 0 <= k < i && 0 <= j < |other.scopes| ==> !Conflicts(scopes[k].View(), other.scopes[j].View())
      {
        for j := 0 to |other.scopes|
          invariant forall k :: 0 <= k < j ==> !Conflicts(scopes[i].View(), other.scopes[k].View())
        {
          var conflict := scopes[i].ConflictsWith(other.scopes[j]);
          if conflict {
            assert Conflicts(View()[i], other.View()[j]);
            return false;
          }
        }
      }
      return true;
    }
  }

  ghost function ViewOf(scopes: seq<AccessScope>): (v: seq<Scope>)
    reads set s | s in scopes :: s.read, set s | s in scopes :: s.write, set s | s in scopes :: s.exclude
    ensures |v| == |scopes| && forall i :: 0 <= i < |v| ==> v[i] == scopes[i].View()
  {
    if scopes == [] then [] else ViewOf(scopes[..|scopes| - 1]) + [scopes[|scopes| - 1].View()]
  }

  ghost function ViewsOf(params: seq<seq<AccessScope>>): (v: seq<seq<Scope>>)
    reads set p, s | p in params && s in p :: s.read, set p, s | p in params && s in p :: s.write, set p, s | p in params && s in p :: s.exclude
    ensures |v| == |params| && forall i :: 0 <= i < |v| ==> v[i] == ViewOf(params[i])
  {
    if params == [] then [] else ViewsOf(params[..|params| - 1]) + [ViewOf(params[|params| - 1])]
  }

  /** The scopes of a system's parameters, unless two of them conflict. */
  method CollectScopes(params: seq<AccessScope>) returns (ok: bool, scopes: AccessScopes)
    ensures fresh(scopes) && (ok <==> Coherent(ViewOf(params))) && (ok ==> scopes.scopes == params)
  {
    hide Conflicts;
    scopes := new AccessScopes();
    for i := 0 to |params|
      invariant fresh(scopes) && scopes.scopes == params[..i]
      invariant forall k, j :: 0 <= k < j < i ==> !Conflicts(params[k].View(), params[j].View())
    {
      var pushed := scopes.Push(params[i]);
      if !pushed {
        ghost var k :| 0 <= k < i && Conflicts(params[k].View(), params[i].View());
        assert Conflicts(ViewOf(params)[k], ViewOf(params)[i]);
        return false, scopes;
      }
    }
    return true, scopes;
  }

  // ---------------------------------------------------------------------------------------------
  // Systems
  // ---------------------------------------------------------------------------------------------

  datatype GroupError = SystemSpecIsNotRegistered(at: nat) | ParallelGroupConflict(at: nat, with_: nat)

  /** Every system of the group is registered, and every two of them are compatible. */
  ghost predicate MayRunTogether(known: map<nat, seq<Scope>>, group: seq<nat>) {
    && (forall i :: 0 <= i < |group| ==> group[i] in known)
    && forall i, j :: 0 <= i < j < |group| ==> Compatible(known[group[i]], known[group[j]])
  }

  class SystemSpecs {
    var specs: map<nat, AccessScopes>

    constructor ()
      ensures specs == map[]
    {
      specs := map[];
    }

    /** What each registered system type accesses. */
    ghost function View(): map<nat, seq<Scope>>
      reads this, specs.Values, set t, o | t in specs && o in specs[t].Sets() :: o
    {
      map t | t in specs :: specs[t].View()
    }

    /** Records what a system accesses, once; parameters that alias each other are refused. */
    method Register(system: nat, params: seq<AccessScope>) returns (ok: bool)
      modifies this
      ensures ok <==> system in old(View()) || Coherent(old(ViewOf(params)))
      ensures system in old(specs) || !ok ==> specs == old(specs)
      ensures View() == if ok && system !in old(View()) then old(View())[system := old(ViewOf(params))] else old(View())
    {
      hide Conflicts, Coherent, ViewOf;
      if system in specs {
        return true;
      }
      var scopes;
      ok, scopes := CollectScopes(params);
      if ok {
        specs := specs[system := scopes];
      }
    }

    /** A group may run in parallel when every system is registered and every two of them are compatible. */
    method CheckGroupCanParallel(group: seq<nat>, ghost known: map<nat, seq<Scope>>) returns (r: Result<(), GroupError>)
      requires known == View()
      ensures r.Success? <==>
        && (forall i :: 0 <= i < |group| ==> group[i] in specs)
        && forall i, j :: 0 <= i < j < |group| ==> Compatible(specs[group[i]].View(), specs[group[j]].View())
      ensures r.Success? <==> MayRunTogether(known, group)
      ensures r.Failure? && r.error.ParallelGroupConflict? ==>
        && r.error.at < r.error.with_ < |group| && group[r.error.at] in specs && group[r.error.with_] in specs
        && !Compatible(specs[group[r.error.at]].View(), specs[group[r.error.with_]].View())
      ensures r.Failure? && r.error.SystemSpecIsNotRegistered? ==> r.error.at < |group| && group[r.error.at] !in specs
    {
      hide Compatible, ViewOf;
      for i := 0 to |group|
        invariant i > 0 ==> forall k :: 0 <= k < |group| ==> group[k] in specs
        invariant forall k, j :: 0 <= k < i && k < j < |group| ==> Compatible(specs[group[k]].View(), specs[group[j]].View())
      {
        if group[i] !in specs {
          return Failure(SystemSpecIsNotRegistered(i));
        }
        r := CheckAgainstRest(group, i);
        if r.Failure? {
          return;
        }
      }
      return Success(());
    }

    method CheckAgainstRest(group: seq<nat>, i: nat) returns (r: Result<(), GroupError>)
      requires i < |group| && group[i] in specs
      ensures r.Success? <==> forall j :: i < j < |group| ==> group[j] in specs && Compatible(specs[group[i]].View(), specs[group[j]].View())
      ensures r.Failure? && r.error.ParallelGroupConflict? ==>
        r.error.at == i < r.error.with_ < |group| && group[r.error.with_] in specs
        && !Compatible(specs[group[i]].View(), specs[group[r.error.with_]].View())
      ensures r.Failure? && r.error.SystemSpecIsNotRegistered? ==> i < r.error.at < |group| && group[r.error.at] !in specs
    {
      hide Compatible, ViewOf;
      for j := i + 1 to |group|
        invariant forall k :: i < k < j ==> group[k] in specs && Compatible(specs[group[i]].View(), specs[group[k]].View())
      {
        if group[j] !in specs {
          return Failure(SystemSpecIsNotRegistered(j));
        }
        var compatible := specs[group[i]].CanParallelWith(specs[group[j]]);
        if !compatible {
          return Failure(ParallelGroupConflict(i, j));
        }
      }
      return Success(());
    }
  }
}
