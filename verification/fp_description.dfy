/**
 * A provisioned feature-pack description with dependencies on other
 * provisioned feature-packs (`ProvisionedFeaturePackWithDependenciesDescription`):
 * its builder keys each dependency by the dependency's coordinates and keeps
 * the order in which coordinates were first added.
 */
module FpDescription {
  import opened Base
  import opened Coords

  /**
   * A `ProvisionedFeaturePackDescription`: the coordinates and the explicitly
   * excluded and included packages. Its own equality is taken to be the
   * equality of these three fields.
   */
  datatype FpDescr = FpDescr(gav: Gav, excluded: set<string>, included: set<string>)

  type DepMap = OrderedMap<Gav, FpDescr>

  /** Every dependency is stored under its own coordinates, as `addDependency` stores it. */
  ghost predicate Keyed(m: DepMap) {
    forall g :: g in m.entries ==> m.entries[g].gav == g
  }

  /** The built description: the superclass part and the dependencies. */
  datatype FpWithDeps = FpWithDeps(descr: FpDescr, dependencies: DepMap) {

    predicate HasDependencies() {
      |dependencies.keys| != 0
    }

    /** `getDependencies`: the dependencies in the order their coordinates were first added. */
    function Dependencies(): (r: seq<FpDescr>)
      requires dependencies.Valid()
      ensures |r| == |dependencies.keys|
      ensures forall i :: 0 <= i < |r| ==> r[i] == dependencies.entries[dependencies.keys[i]]
    {
      dependencies.Values()
    }
  }

  /**
   * `equals`: the superclass fields and the dependency maps, compared as
   * `Map.equals` does, that is by their entries whatever their order.
   */
  predicate Equals(a: FpWithDeps, b: FpWithDeps) {
    a.descr == b.descr && a.dependencies.entries == b.dependencies.entries
  }

  /** The builder; `descr` stands for what the superclass builder has collected. */
  class Builder {
    var descr: FpDescr
    var dependencies: DepMap

    ghost predicate Valid()
      reads this
    {
      dependencies.Valid() && Keyed(dependencies)
    }

    constructor (descr: FpDescr)
      ensures Valid()
      ensures this.descr == descr && dependencies == EmptyMap()
    {
      this.descr := descr;
      dependencies := EmptyMap();
    }

    /**
     * `addDependency`: the dependency is put under its coordinates, whether
     * the map is still the empty map, a singleton, or already a linked map.
     */
    method AddDependency(dependency: FpDescr)
      requires Valid()
      modifies this
      ensures Valid()
      ensures descr == old(descr)
      ensures dependencies == old(dependencies).Put(dependency.gav, dependency)
    {
      if |dependencies.keys| == 0 {
        dependencies := OrderedMap([dependency.gav], map[dependency.gav := dependency]);
      } else {
        dependencies := dependencies.Put(dependency.gav, dependency);
      }
    }

    method Build() returns (d: FpWithDeps)
      requires Valid()
      ensures d.descr == descr && d.dependencies == dependencies
      ensures d.HasDependencies() <==> dependencies.keys != []
    {
      d := FpWithDeps(descr, dependencies);
    }
  }

  /**
   * For descriptions whose dependencies are keyed by their coordinates,
   * `equals` holds exactly when the superclass parts are equal and
   * `getDependencies` reports the same dependencies, whatever their order;
   * then it reports as many of them.
   */
  lemma EqualsSameDependencies(a: FpWithDeps, b: FpWithDeps)
    requires a.dependencies.Valid() && b.dependencies.Valid()
    requires Keyed(a.dependencies) && Keyed(b.dependencies)
    ensures Equals(a, b) <==> a.descr == b.descr && forall d :: d in a.Dependencies() <==> d in b.Dependencies()
    ensures Equals(a, b) ==> multiset(a.dependencies.keys) == multiset(b.dependencies.keys)
    ensures Equals(a, b) ==> |a.Dependencies()| == |b.Dependencies()| && a.HasDependencies() == b.HasDependencies()
  {
    var ma, mb := a.dependencies, b.dependencies;
    var da, db := a.Dependencies(), b.Dependencies();
    DependenciesAreEntries(a);
    DependenciesAreEntries(b);
    if a.descr == b.descr && (forall d :: d in da <==> d in db) {
      forall g | g in ma.entries
        ensures g in mb.entries && mb.entries[g] == ma.entries[g]
      {
        assert ma.entries[g] in da;
      }
      forall g | g in mb.entries
        ensures g in ma.entries
      {
        assert mb.entries[g] in db;
      }
      assert ma.entries == mb.entries;
    }
    if Equals(a, b) {
      DistinctSameElements(ma.keys, mb.keys);
    }
  }

  /** A keyed description reports a dependency exactly when it is stored under its coordinates. */
  lemma DependenciesAreEntries(a: FpWithDeps)
    requires a.dependencies.Valid() && Keyed(a.dependencies)
    ensures forall d :: d in a.Dependencies() <==> d.gav in a.dependencies.entries && a.dependencies.entries[d.gav] == d
  {
    var m, ds := a.dependencies, a.Dependencies();
    forall d: FpDescr | d.gav in m.entries && m.entries[d.gav] == d
      ensures d in ds
    {
      var i :| 0 <= i < |m.keys| && m.keys[i] == d.gav;
      assert ds[i] == d;
    }
  }

  /** The dependency map after `addDependency` for each of `deps`, in order. */
  function AddedAll(m: DepMap, deps: seq<FpDescr>): (r: DepMap)
    requires m.Valid()
    ensures r.Valid()
    decreases |deps|
  {
    if deps == [] then m else AddedAll(m.Put(deps[0].gav, deps[0]), deps[1..])
  }

  /** Adding keeps the coordinates already there in place and grows the map by at most one per call. */
  lemma {:induction false} AddedAllKeys(m: DepMap, deps: seq<FpDescr>)
    requires m.Valid()
    ensures var r := AddedAll(m, deps);
      && |m.keys| <= |r.keys| <= |m.keys| + |deps|
      && r.keys[..|m.keys|] == m.keys
    decreases |deps|
  {
    if deps != [] {
      var put := m.Put(deps[0].gav, deps[0]);
      AddedAllKeys(put, deps[1..]);
      var r := AddedAll(put, deps[1..]);
      assert put.keys[..|m.keys|] == m.keys;
      assert r.keys[..|m.keys|] == r.keys[..|put.keys|][..|m.keys|];
    }
  }

  /** The map knows exactly the coordinates it had and those added. */
  lemma {:induction false} AddedAllDomain(m: DepMap, deps: seq<FpDescr>, g: Gav)
    requires m.Valid()
    ensures g in AddedAll(m, deps).entries <==> g in m.entries || exists i :: 0 <= i < |deps| && deps[i].gav == g
    decreases |deps|
  {
    if deps != [] {
      var put := m.Put(deps[0].gav, deps[0]);
      AddedAllDomain(put, deps[1..], g);
      if exists i :: 0 <= i < |deps[1..]| && deps[1..][i].gav == g {
        var i :| 0 <= i < |deps[1..]| && deps[1..][i].gav == g;
        assert deps[i + 1].gav == g;
      }
      if exists i :: 0 <= i < |deps| && deps[i].gav == g {
        var i :| 0 <= i < |deps| && deps[i].gav == g;
        if i > 0 {
          assert deps[1..][i - 1].gav == g;
        }
      }
    }
  }

  /** The dependency added last with some coordinates is the one held for them. */
  lemma {:induction false} AddedAllLast(m: DepMap, deps: seq<FpDescr>, i: nat)
    requires m.Valid()
    requires i < |deps| && forall j :: i < j < |deps| ==> deps[j].gav != deps[i].gav
    ensures deps[i].gav in AddedAll(m, deps).entries
    ensures AddedAll(m, deps).entries[deps[i].gav] == deps[i]
    decreases |deps|
  {
    var put := m.Put(deps[0].gav, deps[0]);
    if i > 0 {
      assert deps[1..][i - 1] == deps[i];
      assert forall j :: i - 1 < j < |deps[1..]| ==> deps[1..][j] == deps[j + 1];
      AddedAllLast(put, deps[1..], i - 1);
    } else {
      AddedAllUntouched(put, deps[1..], deps[0].gav);
    }
  }

  /** Coordinates not added again keep their dependency. */
  lemma {:induction false} AddedAllUntouched(m: DepMap, deps: seq<FpDescr>, g: Gav)
    requires m.Valid() && g in m.entries
    requires forall i :: 0 <= i < |deps| ==> deps[i].gav != g
    ensures g in AddedAll(m, deps).entries && AddedAll(m, deps).entries[g] == m.entries[g]
    decreases |deps|
  {
    if deps != [] {
      var put := m.Put(deps[0].gav, deps[0]);
      assert forall i :: 0 <= i < |deps[1..]| ==> deps[1..][i] == deps[i + 1];
      AddedAllUntouched(put, deps[1..], g);
    }
  }

  /** Re-adding coordinates already present replaces their dependency and does not grow the map. */
  lemma ReAddKeepsOrder(m: DepMap, dependency: FpDescr)
    requires m.Valid() && dependency.gav in m.entries
    ensures var r := m.Put(dependency.gav, dependency);
      && r.keys == m.keys && r.Size() == m.Size()
      && r.Values() == m.Values()[IndexIn(m.keys, dependency.gav) := dependency]
  {
    var r := m.Put(dependency.gav, dependency);
    var k := IndexIn(m.keys, dependency.gav);
    assert forall i :: 0 <= i < |m.keys| && i != k ==> m.keys[i] != dependency.gav;
  }

  /** The position of `g` in `keys`. */
  function IndexIn(keys: seq<Gav>, g: Gav): (i: nat)
    requires g in keys
    ensures i < |keys| && keys[i] == g
    ensures forall j :: 0 <= j < i ==> keys[j] != g
  {
    if keys[0] == g then 0 else 1 + IndexIn(keys[1..], g)
  }

  /** Coordinates that differ pairwise. */
  predicate DistinctGavs(deps: seq<FpDescr>) {
    forall i, j :: 0 <= i < j < |deps| ==> deps[i].gav != deps[j].gav
  }

  /**
   * Two builders given the same dependencies, with coordinates that differ
   * pairwise, in any two orders build equal descriptions: `equals` does not
   * look at the order that `getDependencies` reports.
   */
  lemma EqualsIgnoresOrder(descr: FpDescr, a: seq<FpDescr>, b: seq<FpDescr>)
    requires DistinctGavs(a) && DistinctGavs(b)
    requires forall d :: d in a <==> d in b
    ensures Equals(FpWithDeps(descr, AddedAll(EmptyMap(), a)), FpWithDeps(descr, AddedAll(EmptyMap(), b)))
  {
    var e: DepMap := EmptyMap();
    var ra := AddedAll(e, a);
    var rb := AddedAll(e, b);
    forall g | g in ra.entries
      ensures g in rb.entries && ra.entries[g] == rb.entries[g]
    {
      AddedAllDomain(e, a, g);
      var i :| 0 <= i < |a| && a[i].gav == g;
      assert a[i] in b;
      var j :| 0 <= j < |b| && b[j] == a[i];
      AddedAllLast(e, a, i);
      AddedAllLast(e, b, j);
    }
    forall g | g in rb.entries
      ensures g in ra.entries
    {
      AddedAllDomain(e, b, g);
      var j :| 0 <= j < |b| && b[j].gav == g;
      assert b[j] in a;
      var i :| 0 <= i < |a| && a[i] == b[j];
      AddedAllDomain(e, a, g);
    }
  }
}
