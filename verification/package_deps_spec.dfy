/**
 * The package dependencies of a package or config spec (`PackageDepsSpec`):
 * dependencies on packages of the same feature-pack, in the order they were
 * declared, and dependencies on packages of other feature-packs, grouped by
 * the name under which each feature-pack dependency is known.
 */
module PackageDepsSpec {
  import opened Base

  /** A `PackageDependencySpec`: the target package and whether the dependency is optional. */
  datatype PackageDep = PackageDep(name: string, optional: bool)

  /**
   * What a `PackageDepsSpecBuilder` has collected: the local dependencies
   * keyed by package name, and for each feature-pack dependency name its
   * dependencies keyed by package name, every map in insertion order.
   */
  datatype DepsBuilder = DepsBuilder(local: OrderedMap<string, PackageDep>,
                                     external: OrderedMap<string, OrderedMap<string, PackageDep>>) {
    ghost predicate Valid() {
      && local.Valid()
      && external.Valid()
      && forall src :: src in external.entries ==> external.entries[src].Valid()
    }
  }

  /** The built dependencies: the local list and the external lists by source. */
  datatype DepsSpec = DepsSpec(localDeps: seq<PackageDep>, externalDeps: map<string, seq<PackageDep>>) {

    predicate HasPackageDeps() {
      !(|localDeps| == 0 && |externalDeps| == 0)
    }

    predicate HasLocalPackageDeps() {
      |localDeps| != 0
    }

    predicate HasExternalPackageDeps() {
      |externalDeps| != 0
    }

    function ExternalPackageSources(): set<string> {
      externalDeps.Keys
    }

    /** `getExternalPackageDeps`: an unknown source has no dependencies rather than `null`. */
    function ExternalPackageDeps(fpDep: string): (r: seq<PackageDep>)
      ensures fpDep !in ExternalPackageSources() ==> r == []
      ensures fpDep in ExternalPackageSources() ==> r == externalDeps[fpDep]
    {
      if fpDep in externalDeps then externalDeps[fpDep] else []
    }
  }

  /** The no-argument constructor: nothing is depended on. */
  function NoDeps(): (r: DepsSpec)
    ensures !r.HasPackageDeps() && !r.HasLocalPackageDeps() && !r.HasExternalPackageDeps()
    ensures r.ExternalPackageSources() == {}
    ensures forall src :: r.ExternalPackageDeps(src) == []
  {
    DepsSpec([], map[])
  }

  /** `equals`: the two collections are compared, and nothing else. */
  predicate Equals(a: DepsSpec, b: DepsSpec)
    ensures Equals(a, b) <==> a == b
  {
    a.externalDeps == b.externalDeps && a.localDeps == b.localDeps
  }

  /** The copy constructor: the copy shares both collections of its source. */
  function CopyOf(src: DepsSpec): (r: DepsSpec)
    ensures Equals(r, src)
    ensures r.HasPackageDeps() == src.HasPackageDeps()
    ensures forall fpDep :: r.ExternalPackageDeps(fpDep) == src.ExternalPackageDeps(fpDep)
  {
    DepsSpec(src.localDeps, src.externalDeps)
  }

  /** Equal dependency specs are indistinguishable through every accessor. */
  lemma EqualsAgree(a: DepsSpec, b: DepsSpec)
    requires Equals(a, b)
    ensures a.HasPackageDeps() == b.HasPackageDeps()
    ensures a.localDeps == b.localDeps && a.ExternalPackageSources() == b.ExternalPackageSources()
    ensures forall fpDep :: a.ExternalPackageDeps(fpDep) == b.ExternalPackageDeps(fpDep)
  {
  }

  /**
   * The builder constructor, as a value: the local list holds the builder's
   * local dependencies in insertion order, and each source the builder knows
   * is mapped to its dependencies in insertion order.
   */
  function BuiltFrom(b: DepsBuilder): (r: DepsSpec)
    requires b.Valid()
    ensures |r.localDeps| == |b.local.keys|
    ensures forall i :: 0 <= i < |b.local.keys| ==> r.localDeps[i] == b.local.entries[b.local.keys[i]]
    ensures r.ExternalPackageSources() == b.external.entries.Keys
    ensures forall src :: src in b.external.entries ==> r.ExternalPackageDeps(src) == b.external.entries[src].Values()
    ensures forall src :: src !in b.external.entries ==> r.ExternalPackageDeps(src) == []
    ensures r.HasPackageDeps() <==> b.local.keys != [] || b.external.keys != []
  {
    var r := DepsSpec(b.local.Values(), ExternalLists(b));
    assert b.local.keys != [] ==> b.local.keys[0] in b.local.entries;
    assert b.external.keys != [] ==> b.external.keys[0] in r.externalDeps;
    r
  }

  /** Each source of the builder with its dependencies listed in insertion order. */
  function ExternalLists(b: DepsBuilder): map<string, seq<PackageDep>>
    requires b.Valid()
  {
    map src | src in b.external.entries :: b.external.entries[src].Values()
  }

  /** A map with the builder's sources, each holding its dependency list, is `ExternalLists`. */
  lemma ExternalListsAre(b: DepsBuilder, m: map<string, seq<PackageDep>>)
    requires b.Valid()
    requires forall src :: src in m <==> src in b.external.entries
    requires forall src :: src in m ==> m[src] == b.external.entries[src].Values()
    ensures m == ExternalLists(b)
  {
  }

  /**
   * `getValueList`: no entry gives the empty list, one entry the singleton
   * list, and more entries are copied one by one in iteration order.
   */
  method ValueList(m: OrderedMap<string, PackageDep>) returns (list: seq<PackageDep>)
    requires m.Valid()
    ensures list == m.Values()
  {
    if |m.keys| == 0 {
      list := [];
    } else if |m.keys| == 1 {
      list := [m.entries[m.keys[0]]];
    } else {
      var tmp := [];
      for i := 0 to |m.keys|
        invariant tmp == m.Values()[..i]
      {
        tmp := tmp + [m.entries[m.keys[i]]];
      }
      list := tmp;
    }
  }

  /**
   * The builder constructor: the local list, then the external map.
   */
  method Build(b: DepsBuilder) returns (spec: DepsSpec)
    requires b.Valid()
    ensures spec == BuiltFrom(b)
  {
    var localDeps := ValueList(b.local);
    var externalDeps := ExternalValueLists(b);
    spec := DepsSpec(localDeps, externalDeps);
  }

  /** The external map of the builder constructor: empty, a singleton, or filled source by source. */
  method ExternalValueLists(b: DepsBuilder) returns (externalDeps: map<string, seq<PackageDep>>)
    requires b.Valid()
    ensures externalDeps == ExternalLists(b)
  {
    var sources := b.external.keys;
    if |sources| == 0 {
      externalDeps := map[];
    } else if |sources| == 1 {
      var deps := ValueList(b.external.entries[sources[0]]);
      externalDeps := map[sources[0] := deps];
    } else {
      externalDeps := map[];
      for i := 0 to |sources|
        invariant forall j :: 0 <= j < i ==> sources[j] in externalDeps
        invariant forall src :: src in externalDeps ==> src in b.external.entries
        invariant forall src :: src in externalDeps ==> externalDeps[src] == b.external.entries[src].Values()
      {
        var deps := ValueList(b.external.entries[sources[i]]);
        externalDeps := externalDeps[sources[i] := deps];
      }
    }
    ExternalListsAre(b, externalDeps);
  }
}
