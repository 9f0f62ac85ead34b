/**
 * The layout step of a provisioning run (`ProvisioningTask`): every requested
 * feature-pack and, depth first, every feature-pack it depends on is fetched
 * once per GA and registered in the layout; the per-GAV config builders that
 * the traversal returns are merged level by level, and each level then
 * enforces the configs it declares for its own dependencies. Provisioning
 * plugins met on the way are collected once each, in first-seen order, and
 * run after the installation.
 *
 * The artifact resolver, the unzip step and the feature-pack describer are
 * one oracle (`repo`), and `FeaturePackConfig.Builder`'s `merge`, `enforce`
 * and `build` are uninterpreted: a builder is the term recording what was
 * done to it.
 */
module ProvisioningTask {
  import opened Base
  import opened Coords
  import Errors

  /** A feature-pack config: the coordinates and the packages it excludes. */
  datatype FpConfig = FpConfig(gav: Gav, excluded: seq<string>)

  /** A described feature-pack: its coordinates, its dependencies' configs in declaration order, its plugins. */
  datatype FpSpec = FpSpec(gav: Gav, deps: seq<FpConfig>, plugins: seq<Gav>)

  /**
   * A `FeaturePackConfig.Builder`: created from a spec (`null` when the layout
   * has none) and a config, then merged with other builders' built configs
   * and enforced with configs.
   */
  datatype Builder =
    | Fresh(spec: Option<FpSpec>, config: FpConfig)
    | Merged(base: Builder, incoming: Builder)
    | Enforced(base: Builder, config: FpConfig)

  type BuilderMap = OrderedMap<Gav, Builder>

  /** What resolving, unzipping and describing a feature-pack artifact gives. */
  datatype Fetch =
    | Described(spec: FpSpec)
    | ResolveFailed(message: string)
    | UnzipFailed(message: string)
    | DescribeFailed

  /** The describer reads the coordinates the artifact was resolved by. */
  ghost predicate Consistent(repo: Gav -> Fetch) {
    forall g :: repo(g).Described? ==> repo(g).spec.gav == g
  }

  /**
   * The state a run builds up: the layout (specs by GA), the collected
   * plugins, and the coordinates whose artifacts were fetched, in order.
   */
  datatype TaskState = TaskState(layout: map<Ga, FpSpec>, plugins: seq<Gav>, fetched: seq<Gav>)

  const PluginFailed := "Provisioning plugin failed"

  /** A recursion deeper than the stack allows. */
  const Overflow := Failure(StackOverflowError, "")

  // ---------------------------------------------------------------------------
  // Plugins

  /** `addProvisioningPlugin` on the collected plugins. */
  function WithPlugin(plugins: seq<Gav>, gav: Gav): (r: seq<Gav>)
    ensures gav in r && plugins <= r
    ensures forall g :: g in r <==> g in plugins || g == gav
    ensures Distinct(plugins) ==> Distinct(r)
  {
    if gav in plugins then plugins else plugins + [gav]
  }

  /** Adding the plugins `gavs` one after another. */
  function WithPlugins(plugins: seq<Gav>, gavs: seq<Gav>): (r: seq<Gav>)
    decreases |gavs|
  {
    if gavs == [] then plugins else WithPlugin(WithPlugins(plugins, gavs[..|gavs| - 1]), gavs[|gavs| - 1])
  }

  /** The position of the first occurrence of `g` in `gavs`. */
  function FirstIndex(gavs: seq<Gav>, g: Gav): (r: nat)
    requires g in gavs
    ensures r < |gavs| && gavs[r] == g && g !in gavs[..r]
  {
    if gavs[0] == g then 0 else 1 + FirstIndex(gavs[1..], g)
  }

  /** The first occurrence is the one with no occurrence before it. */
  lemma {:induction false} FirstIndexAt(gavs: seq<Gav>, g: Gav, k: nat)
    requires k < |gavs| && gavs[k] == g && g !in gavs[..k]
    ensures FirstIndex(gavs, g) == k
    decreases k
  {
    if k > 0 {
      assert gavs[0] != g by {
        assert gavs[..k][0] == gavs[0];
      }
      assert gavs[1..][..k - 1] == gavs[..k][1..];
      FirstIndexAt(gavs[1..], g, k - 1);
    }
  }

  lemma FirstIndexPrefix(gavs: seq<Gav>, n: nat, g: Gav)
    requires n <= |gavs| && g in gavs[..n]
    ensures g in gavs && FirstIndex(gavs, g) == FirstIndex(gavs[..n], g)
  {
    var k := FirstIndex(gavs[..n], g);
    assert gavs[..n][..k] == gavs[..k];
    FirstIndexAt(gavs, g, k);
  }

  /**
   * The plugins collected from `gavs`: the earlier ones first, then every
   * coordinate of `gavs` that was not among them, each once.
   */
  lemma {:induction false} WithPluginsShape(plugins: seq<Gav>, gavs: seq<Gav>)
    requires Distinct(plugins)
    ensures var r := WithPlugins(plugins, gavs);
      && Distinct(r)
      && plugins <= r
      && (forall g :: g in r <==> g in plugins || g in gavs)
    decreases |gavs|
  {
    if gavs != [] {
      var front := gavs[..|gavs| - 1];
      assert gavs == front + [gavs[|gavs| - 1]];
      WithPluginsShape(plugins, front);
    }
  }

  /** The coordinates added after the earlier plugins are ordered by where they first occur in `gavs`. */
  lemma {:induction false} WithPluginsOrder(plugins: seq<Gav>, gavs: seq<Gav>)
    requires Distinct(plugins)
    ensures var r := WithPlugins(plugins, gavs);
      forall i, j :: |plugins| <= i < j < |r| ==>
        r[i] in gavs && r[j] in gavs && FirstIndex(gavs, r[i]) < FirstIndex(gavs, r[j])
    decreases |gavs|
  {
    if gavs != [] {
      var n := |gavs| - 1;
      var front := gavs[..n];
      var g := gavs[n];
      var prev := WithPlugins(plugins, front);
      var r := WithPlugins(plugins, gavs);
      assert gavs == front + [g];
      WithPluginsShape(plugins, front);
      WithPluginsOrder(plugins, front);
      assert r == WithPlugin(prev, g);
      forall i, j | |plugins| <= i < j < |r|
        ensures r[i] in gavs && r[j] in gavs && FirstIndex(gavs, r[i]) < FirstIndex(gavs, r[j])
      {
        assert r[i] == prev[i] && r[i] in front;
        FirstIndexPrefix(gavs, n, r[i]);
        if j < |prev| {
          assert r[j] == prev[j] && r[j] in front;
          FirstIndexPrefix(gavs, n, r[j]);
        } else {
          assert r[j] == g && g !in front;
          assert FirstIndex(gavs, g) == n;
        }
      }
    }
  }

  // ---------------------------------------------------------------------------
  // Builder maps: merge and enforce

  /** The keys of `ks`, in order, that `existing` does not hold. */
  function NewKeys(ks: seq<Gav>, existing: map<Gav, Builder>): (r: seq<Gav>)
    ensures forall k :: k in r <==> k in ks && k !in existing
    decreases |ks|
  {
    if ks == [] then [] else (if ks[0] in existing then [] else [ks[0]]) + NewKeys(ks[1..], existing)
  }

  lemma {:induction false} NewKeysDistinct(ks: seq<Gav>, existing: map<Gav, Builder>)
    requires Distinct(ks)
    ensures Distinct(NewKeys(ks, existing))
    decreases |ks|
  {
    if ks != [] {
      NewKeysDistinct(ks[1..], existing);
      assert ks[0] !in ks[1..];
    }
  }

  lemma {:induction false} NewKeysAppend(ks: seq<Gav>, k: Gav, existing: map<Gav, Builder>)
    ensures NewKeys(ks + [k], existing) == NewKeys(ks, existing) + (if k in existing then [] else [k])
    decreases |ks|
  {
    if ks == [] {
      assert [k][1..] == [];
    } else {
      assert (ks + [k])[1..] == ks[1..] + [k];
      NewKeysAppend(ks[1..], k, existing);
    }
  }

  /** The builder `merge` leaves for key `k`. */
  function MergedEntry(all: map<Gav, Builder>, dep: map<Gav, Builder>, k: Gav): Builder
    requires k in all || k in dep
  {
    if k in all && k in dep then Merged(all[k], dep[k])
    else if k in all then all[k]
    else dep[k]
  }

  /**
   * `merge(allBuilders, depBuilders)` in one piece: the existing keys in
   * their order, then the incoming keys that are new, in theirs; a key in
   * both has its builder merge the incoming builder's built config.
   */
  function MergeOf(all: BuilderMap, dep: BuilderMap): (r: BuilderMap)
    requires all.Valid() && dep.Valid()
    ensures r.Valid()
    ensures r.keys == all.keys + NewKeys(dep.keys, all.entries)
    ensures r.entries == MergedMap(all.entries, dep.entries)
  {
    var added := NewKeys(dep.keys, all.entries);
    NewKeysDistinct(dep.keys, all.entries);
    assert Distinct(all.keys + added) by {
      forall i, j | 0 <= i < j < |all.keys + added|
        ensures (all.keys + added)[i] != (all.keys + added)[j]
      {
        if j >= |all.keys| && i < |all.keys| {
          assert (all.keys + added)[j] in added;
        }
      }
    }
    OrderedMap(all.keys + added, MergedMap(all.entries, dep.entries))
  }

  /** The first `n` entries of `m`. */
  function Prefix(m: BuilderMap, n: nat): (r: BuilderMap)
    requires m.Valid() && n <= |m.keys|
    ensures r.Valid()
  {
    var ks := m.keys[..n];
    assert Distinct(ks);
    OrderedMap(ks, map k | k in ks :: m.entries[k])
  }

  lemma MergeOfNothing(all: BuilderMap, dep: BuilderMap)
    requires all.Valid() && dep.Valid()
    ensures MergeOf(all, Prefix(dep, 0)) == all
  {
    var none := Prefix(dep, 0);
    assert none.entries == map[];
    assert MergeOf(all, none).entries == all.entries;
  }

  lemma PrefixWhole(m: BuilderMap)
    requires m.Valid()
    ensures Prefix(m, |m.keys|) == m
  {
    assert m.keys[..|m.keys|] == m.keys;
  }

  /** The entries of `merge(all, dep)`. */
  function MergedMap(all: map<Gav, Builder>, dep: map<Gav, Builder>): map<Gav, Builder> {
    map k | k in all.Keys + dep.Keys :: MergedEntry(all, dep, k)
  }

  /** One more incoming entry changes the merged entries at its key only. */
  lemma MergedMapPut(all: map<Gav, Builder>, dep: map<Gav, Builder>, k: Gav, v: Builder)
    requires k !in dep
    ensures MergedMap(all, dep[k := v]) == MergedMap(all, dep)[k := if k in all then Merged(all[k], v) else v]
  {
  }

  lemma PrefixNext(m: BuilderMap, i: nat)
    requires m.Valid() && i < |m.keys|
    ensures Prefix(m, i + 1).keys == Prefix(m, i).keys + [m.keys[i]]
    ensures m.keys[i] !in Prefix(m, i).entries
    ensures Prefix(m, i + 1).entries == Prefix(m, i).entries[m.keys[i] := m.entries[m.keys[i]]]
  {
    assert m.keys[..i + 1] == m.keys[..i] + [m.keys[i]];
  }

  /** Absorbing the next incoming entry extends the merge by one key. */
  lemma MergeStep(all: BuilderMap, dep: BuilderMap, i: nat)
    requires all.Valid() && dep.Valid() && i < |dep.keys|
    ensures var acc := MergeOf(all, Prefix(dep, i));
      var k := dep.keys[i];
      var v := dep.entries[k];
      (if k in acc.entries then acc.Put(k, Merged(acc.entries[k], v)) else acc.Put(k, v))
        == MergeOf(all, Prefix(dep, i + 1))
  {
    var acc := MergeOf(all, Prefix(dep, i));
    var nxt := MergeOf(all, Prefix(dep, i + 1));
    var k := dep.keys[i];
    var v := dep.entries[k];
    var put := if k in acc.entries then acc.Put(k, Merged(acc.entries[k], v)) else acc.Put(k, v);
    assert put.keys == nxt.keys by {
      MergeStepKeys(all, dep, i);
    }
    assert put.entries == nxt.entries by {
      MergeStepEntries(all, dep, i);
    }
  }

  lemma MergeStepKeys(all: BuilderMap, dep: BuilderMap, i: nat)
    requires all.Valid() && dep.Valid() && i < |dep.keys|
    ensures var acc := MergeOf(all, Prefix(dep, i));
      var k := dep.keys[i];
      MergeOf(all, Prefix(dep, i + 1)).keys == if k in all.entries then acc.keys else acc.keys + [k]
  {
    var pre := Prefix(dep, i);
    var k := dep.keys[i];
    var added := NewKeys(pre.keys, all.entries);
    assert Prefix(dep, i + 1).keys == pre.keys + [k] by {
      PrefixNext(dep, i);
    }
    assert NewKeys(pre.keys + [k], all.entries) == added + (if k in all.entries then [] else [k]) by {
      NewKeysAppend(pre.keys, k, all.entries);
    }
    if k !in all.entries {
      ConcatAssoc(all.keys, added, [k]);
    }
  }

  lemma MergeStepEntries(all: BuilderMap, dep: BuilderMap, i: nat)
    requires all.Valid() && dep.Valid() && i < |dep.keys|
    ensures var acc := MergeOf(all, Prefix(dep, i));
      var k := dep.keys[i];
      var v := dep.entries[k];
      && (k in acc.entries <==> k in all.entries)
      && MergeOf(all, Prefix(dep, i + 1)).entries
           == acc.entries[k := if k in acc.entries then Merged(acc.entries[k], v) else v]
  {
    var pre := Prefix(dep, i);
    var k := dep.keys[i];
    var v := dep.entries[k];
    assert k !in pre.entries && Prefix(dep, i + 1).entries == pre.entries[k := v] by {
      PrefixNext(dep, i);
    }
    MergedMapPut(all.entries, pre.entries, k, v);
  }

  lemma ConcatAssoc<T>(a: seq<T>, b: seq<T>, c: seq<T>)
    ensures a + (b + c) == (a + b) + c
  {
  }

  /** With one key on each side and the same key, `merge`'s shortcut agrees with the general case. */
  lemma MergeSingle(all: BuilderMap, dep: BuilderMap)
    requires all.Valid() && dep.Valid()
    requires |all.keys| == 1 && |dep.keys| == 1 && dep.keys[0] == all.keys[0]
    ensures var k := all.keys[0];
      MergeOf(all, dep) == all.Put(k, Merged(all.entries[k], dep.entries[k]))
  {
    var k := all.keys[0];
    assert dep.keys == [k];
    assert NewKeys(dep.keys, all.entries) == [];
    assert all.keys + [] == all.keys;
  }

  lemma MergeIntoEmpty(all: BuilderMap, dep: BuilderMap)
    requires all.Valid() && dep.Valid() && |all.keys| == 0
    ensures MergeOf(all, dep) == dep
  {
    assert all.entries == map[];
    NewKeysNone(dep.keys, all.entries);
  }

  lemma {:induction false} NewKeysNone(ks: seq<Gav>, existing: map<Gav, Builder>)
    requires existing == map[]
    ensures NewKeys(ks, existing) == ks
    decreases |ks|
  {
    if ks != [] {
      NewKeysNone(ks[1..], existing);
    }
  }

  /**
   * What `merge` leaves: the existing keys first in their order and the new
   * incoming keys after them in theirs; no key is dropped, a key in both has
   * its builder absorb the incoming built config, and every other entry is
   * taken over as it is.
   */
  lemma MergeOfShape(all: BuilderMap, dep: BuilderMap)
    requires all.Valid() && dep.Valid()
    ensures var r := MergeOf(all, dep);
      && all.keys <= r.keys
      && r.keys[|all.keys|..] == NewKeys(dep.keys, all.entries)
      && (forall k :: k in r.entries <==> k in all.entries || k in dep.entries)
      && (forall k :: k in all.entries && k in dep.entries ==> r.entries[k] == Merged(all.entries[k], dep.entries[k]))
      && (forall k :: k in all.entries && k !in dep.entries ==> r.entries[k] == all.entries[k])
      && (forall k :: k !in all.entries && k in dep.entries ==> r.entries[k] == dep.entries[k])
  {
    var r := MergeOf(all, dep);
    assert r.keys == all.keys + NewKeys(dep.keys, all.entries);
  }

  /** `merge`: into an empty map it returns the incoming map itself; otherwise it is `MergeOf`. */
  method Merge(all: BuilderMap, dep: BuilderMap) returns (r: BuilderMap)
    requires all.Valid() && dep.Valid()
    ensures r == MergeOf(all, dep)
    ensures |all.keys| == 0 ==> r == dep
  {
    if all.Size() == 0 {
      MergeIntoEmpty(all, dep);
      return dep;
    }
    if all.Size() == 1 {
      var k := all.keys[0];
      if dep.Size() == 1 && dep.Contains(k) {
        MergeSingle(all, dep);
        return all.Put(k, Merged(all.entries[k], dep.entries[k]));
      }
    }
    r := all;
    MergeOfNothing(all, dep);
    for i := 0 to |dep.keys|
      invariant r == MergeOf(all, Prefix(dep, i))
    {
      var k := dep.keys[i];
      MergeStep(all, dep, i);
      if k !in r.entries {
        r := r.Put(k, dep.entries[k]);
      } else {
        r := r.Put(k, Merged(r.entries[k], dep.entries[k]));
      }
    }
    PrefixWhole(dep);
  }

  /**
   * `enforce(spec, config, builders)`: a GAV without a builder gets a fresh
   * one from the spec and the config, appended last; a GAV with one has the
   * config enforced on it; every other entry stays as it was.
   */
  function Enforce(spec: Option<FpSpec>, config: FpConfig, builders: BuilderMap): (r: BuilderMap)
    requires builders.Valid()
    ensures r.Valid()
    ensures config.gav in builders.entries ==>
      && r.keys == builders.keys
      && r.entries == builders.entries[config.gav := Enforced(builders.entries[config.gav], config)]
    ensures config.gav !in builders.entries ==>
      && r.keys == builders.keys + [config.gav]
      && r.entries == builders.entries[config.gav := Fresh(spec, config)]
  {
    var gav := config.gav;
    if builders.Size() == 0 then
      assert builders.entries == map[];
      OrderedMap([gav], map[gav := Fresh(spec, config)])
    else if builders.Contains(gav) then
      builders.Put(gav, Enforced(builders.entries[gav], config))
    else
      builders.Put(gav, Fresh(spec, config))
  }

  /** The spec the layout holds for the GA of `gav`, `null` when it holds none. */
  function SpecFor(layout: map<Ga, FpSpec>, gav: Gav): Option<FpSpec> {
    if gav.ToGa() in layout then Some(layout[gav.ToGa()]) else None
  }

  /** Enforcing `configs[i..]` one after another, in order. */
  function EnforceAll(layout: map<Ga, FpSpec>, configs: seq<FpConfig>, i: nat, acc: BuilderMap): (r: BuilderMap)
    requires i <= |configs| && acc.Valid()
    ensures r.Valid()
    decreases |configs| - i
  {
    if i == |configs| then acc
    else EnforceAll(layout, configs, i + 1, Enforce(SpecFor(layout, configs[i].gav), configs[i], acc))
  }

  /** No later config in `configs` names the GAV of `configs[j]`. */
  predicate LastFor(configs: seq<FpConfig>, j: nat)
    requires j < |configs|
  {
    forall l :: j < l < |configs| ==> configs[l].gav != configs[j].gav
  }

  /** Enforcing keeps every key in its place and leaves the builders no config names untouched. */
  lemma {:induction false} EnforceAllKeeps(layout: map<Ga, FpSpec>, configs: seq<FpConfig>, i: nat, acc: BuilderMap)
    requires i <= |configs| && acc.Valid()
    ensures var r := EnforceAll(layout, configs, i, acc);
      && acc.keys <= r.keys
      && (forall g :: g in acc.entries && (forall l :: i <= l < |configs| ==> configs[l].gav != g) ==>
            g in r.entries && r.entries[g] == acc.entries[g])
    decreases |configs| - i
  {
    if i < |configs| {
      var next := Enforce(SpecFor(layout, configs[i].gav), configs[i], acc);
      EnforceAllKeeps(layout, configs, i + 1, next);
    }
  }

  /**
   * After enforcing `configs`, the builder of a GAV that some config names
   * ends with the last such config: it was created from that config or had
   * it enforced last.
   */
  lemma {:induction false} EnforceAllLast(layout: map<Ga, FpSpec>, configs: seq<FpConfig>, i: nat, acc: BuilderMap)
    requires i <= |configs| && acc.Valid()
    ensures var r := EnforceAll(layout, configs, i, acc);
      forall j :: i <= j < |configs| && LastFor(configs, j) ==>
        && configs[j].gav in r.entries
        && !r.entries[configs[j].gav].Merged?
        && r.entries[configs[j].gav].config == configs[j]
    decreases |configs| - i
  {
    if i < |configs| {
      var next := Enforce(SpecFor(layout, configs[i].gav), configs[i], acc);
      EnforceAllLast(layout, configs, i + 1, next);
      EnforceAllKeeps(layout, configs, i + 1, next);
    }
  }

  // ---------------------------------------------------------------------------
  // The layout traversal

  /**
   * The first half of `layoutFeaturePack`: a GA not yet in the layout is
   * fetched, its plugins collected and its spec registered; a GA already
   * there must have the requested version, and its spec is reused.
   */
  function Registered(st: TaskState, config: FpConfig, repo: Gav -> Fetch): (r: Result<(TaskState, FpSpec), Failure>)
    ensures config.gav.ToGa() in st.layout ==>
      (r.Ok? <==> st.layout[config.gav.ToGa()].gav == config.gav)
    ensures r.Ok? && config.gav.ToGa() in st.layout ==> r.value == (st, st.layout[config.gav.ToGa()])
    ensures r.Ok? && config.gav.ToGa() !in st.layout ==>
      && repo(config.gav) == Described(r.value.1)
      && r.value.0 == TaskState(st.layout[r.value.1.gav.ToGa() := r.value.1],
                                WithPlugins(st.plugins, r.value.1.plugins),
                                st.fetched + [config.gav])
  {
    var ga := config.gav.ToGa();
    if ga in st.layout then
      var spec := st.layout[ga];
      if spec.gav != config.gav then
        Err(Failure(ProvisioningException, Errors.FeaturePackVersionConflict(spec.gav, config.gav)))
      else
        Ok((st, spec))
    else
      match repo(config.gav)
      case ResolveFailed(m) => Err(Failure(ArtifactResolutionException, m))
      case UnzipFailed(m) => Err(Failure(ProvisioningException, m))
      case DescribeFailed => Err(Failure(ProvisioningException, "Failed to describe feature-pack " + config.gav.Text()))
      case Described(spec) =>
        Ok((TaskState(st.layout[spec.gav.ToGa() := spec], WithPlugins(st.plugins, spec.plugins), st.fetched + [config.gav]),
            spec))
  }

  /**
   * `layoutFeaturePack(config)` with `depth` stack frames left: register the
   * feature-pack, lay out each dependency in turn merging what it returns,
   * then enforce each dependency's declared config in declaration order.
   */
  function Laid(st: TaskState, config: FpConfig, repo: Gav -> Fetch, depth: nat): (r: Result<(TaskState, BuilderMap), Failure>)
    ensures r.Ok? ==> r.value.1.Valid()
    decreases depth, 1
  {
    if depth == 0 then Err(Overflow)
    else
      var reg :- Registered(st, config, repo);
      LaidOut(reg.0, reg.1.deps, repo, depth - 1)
  }

  /**
   * Laying out `configs` in order, merging what each returns, then enforcing
   * each of them in order: the dependencies of a spec, or the feature-packs
   * `execute` was asked for.
   */
  function LaidOut(st: TaskState, configs: seq<FpConfig>, repo: Gav -> Fetch, depth: nat)
    : (r: Result<(TaskState, BuilderMap), Failure>)
    ensures r.Ok? ==> r.value.1.Valid()
    decreases depth + 1, 0, |configs| + 1
  {
    var merged :- LaidAll(st, configs, 0, EmptyMap(), repo, depth);
    Ok((merged.0, EnforceAll(merged.0.layout, configs, 0, merged.1)))
  }

  /** Laying out `configs[i..]` in order, merging each result into `acc`; the first failure ends it. */
  function LaidAll(st: TaskState, configs: seq<FpConfig>, i: nat, acc: BuilderMap,
                   repo: Gav -> Fetch, depth: nat): (r: Result<(TaskState, BuilderMap), Failure>)
    requires i <= |configs| && acc.Valid()
    ensures r.Ok? ==> r.value.1.Valid()
    decreases depth + 1, 0, |configs| - i
  {
    if i == |configs| then Ok((st, acc))
    else
      var sub :- Laid(st, configs[i], repo, depth);
      LaidAll(sub.0, configs, i + 1, MergeOf(acc, sub.1), repo, depth)
  }

  /** One step of `LaidAll`. */
  lemma LaidAllUnfold(st: TaskState, configs: seq<FpConfig>, i: nat, acc: BuilderMap, repo: Gav -> Fetch, depth: nat)
    requires i < |configs| && acc.Valid()
    ensures var sub := Laid(st, configs[i], repo, depth);
      LaidAll(st, configs, i, acc, repo, depth)
        == if sub.Err? then Err(sub.error) else LaidAll(sub.value.0, configs, i + 1, MergeOf(acc, sub.value.1), repo, depth)
  {
  }

  // ---------------------------------------------------------------------------
  // What the traversal guarantees

  /**
   * Every fetched feature-pack is in the layout, and no two fetched
   * coordinates share a GA: each feature-pack is fetched at most once.
   */
  ghost predicate FetchedOnce(st: TaskState) {
    && (forall i :: 0 <= i < |st.fetched| ==>
          st.fetched[i].ToGa() in st.layout && st.layout[st.fetched[i].ToGa()].gav == st.fetched[i])
    && (forall i, j :: 0 <= i < j < |st.fetched| ==> st.fetched[i].ToGa() != st.fetched[j].ToGa())
  }

  /** `after` only adds to `before`: specs stay registered and fetches stay recorded. */
  ghost predicate Grows(before: TaskState, after: TaskState) {
    && (forall ga :: ga in before.layout ==> ga in after.layout && after.layout[ga] == before.layout[ga])
    && before.fetched <= after.fetched
    && before.plugins <= after.plugins
  }

  lemma GrowsTrans(a: TaskState, b: TaskState, c: TaskState)
    requires Grows(a, b) && Grows(b, c)
    ensures Grows(a, c)
  {
  }

  lemma RegisteredGrows(st: TaskState, config: FpConfig, repo: Gav -> Fetch)
    requires Consistent(repo) && FetchedOnce(st)
    ensures var r := Registered(st, config, repo);
      r.Ok? ==> && Grows(st, r.value.0) && FetchedOnce(r.value.0)
                && config.gav.ToGa() in r.value.0.layout
                && r.value.0.layout[config.gav.ToGa()] == r.value.1
                && r.value.1.gav == config.gav
  {
    var r := Registered(st, config, repo);
    if r.Ok? && config.gav.ToGa() !in st.layout {
      var spec := r.value.1;
      var after := r.value.0;
      assert spec.gav == config.gav;
      forall i | 0 <= i < |st.fetched|
        ensures st.fetched[i].ToGa() != config.gav.ToGa()
      {
      }
      PluginsPrefix(st.plugins, spec.plugins);
      assert after.fetched[|st.fetched|] == config.gav;
    }
  }

  lemma {:induction false} PluginsPrefix(plugins: seq<Gav>, gavs: seq<Gav>)
    ensures plugins <= WithPlugins(plugins, gavs)
    decreases |gavs|
  {
    if gavs != [] {
      PluginsPrefix(plugins, gavs[..|gavs| - 1]);
    }
  }

  /** `r`, when it succeeds, only adds to `st` and still fetches every feature-pack at most once. */
  ghost predicate GrowsTo(st: TaskState, r: Result<(TaskState, BuilderMap), Failure>) {
    r.Ok? ==> Grows(st, r.value.0) && FetchedOnce(r.value.0)
  }

  /** The layout holds a spec for the GA of `gav`, with exactly those coordinates. */
  predicate Holds(st: TaskState, gav: Gav) {
    gav.ToGa() in st.layout && st.layout[gav.ToGa()].gav == gav
  }

  lemma GrowsToChain(st: TaskState, sub: Result<(TaskState, BuilderMap), Failure>,
                     rest: Result<(TaskState, BuilderMap), Failure>)
    requires GrowsTo(st, sub) && sub.Ok? && GrowsTo(sub.value.0, rest)
    ensures GrowsTo(st, rest)
  {
    if rest.Ok? {
      GrowsTrans(st, sub.value.0, rest.value.0);
    }
  }

  /**
   * A successful layout keeps what was registered before, registers the
   * requested feature-pack with the requested coordinates, and fetches every
   * feature-pack at most once.
   */
  lemma {:induction false} LaidGrows(st: TaskState, config: FpConfig, repo: Gav -> Fetch, depth: nat)
    requires Consistent(repo) && FetchedOnce(st)
    ensures var r := Laid(st, config, repo, depth);
      r.Ok? ==> && Grows(st, r.value.0) && FetchedOnce(r.value.0)
                && config.gav.ToGa() in r.value.0.layout
                && r.value.0.layout[config.gav.ToGa()].gav == config.gav
    decreases depth, 1
  {
    var r := Laid(st, config, repo, depth);
    if depth > 0 && r.Ok? {
      var reg := Registered(st, config, repo);
      RegisteredGrows(st, config, repo);
      var rest := LaidOut(reg.value.0, reg.value.1.deps, repo, depth - 1);
      assert reg.Ok? && r == rest;
      LaidOutGrows(reg.value.0, reg.value.1.deps, repo, depth - 1);
      GrowsTrans(st, reg.value.0, rest.value.0);
    }
  }

  lemma LaidOutGrows(st: TaskState, configs: seq<FpConfig>, repo: Gav -> Fetch, depth: nat)
    requires Consistent(repo) && FetchedOnce(st)
    ensures GrowsTo(st, LaidOut(st, configs, repo, depth))
    decreases depth + 1, 0, |configs| + 1
  {
    LaidAllGrows(st, configs, 0, EmptyMap(), repo, depth);
  }

  lemma {:induction false} LaidAllGrows(st: TaskState, configs: seq<FpConfig>, i: nat, acc: BuilderMap,
                                        repo: Gav -> Fetch, depth: nat)
    requires i <= |configs| && acc.Valid()
    requires Consistent(repo) && FetchedOnce(st)
    ensures GrowsTo(st, LaidAll(st, configs, i, acc, repo, depth))
    decreases depth + 1, 0, |configs| - i
  {
    if i < |configs| {
      var sub := Laid(st, configs[i], repo, depth);
      LaidAllUnfold(st, configs, i, acc, repo, depth);
      if sub.Ok? {
        LaidGrows(st, configs[i], repo, depth);
        LaidAllGrows(sub.value.0, configs, i + 1, MergeOf(acc, sub.value.1), repo, depth);
        GrowsToChain(st, sub, LaidAll(sub.value.0, configs, i + 1, MergeOf(acc, sub.value.1), repo, depth));
      }
    }
  }

  /** Every config from `i` on is held by the layout of `r`, when `r` succeeds. */
  ghost predicate HoldsFrom(configs: seq<FpConfig>, i: nat, r: Result<(TaskState, BuilderMap), Failure>) {
    r.Ok? ==> forall j :: i <= j < |configs| ==> Holds(r.value.0, configs[j].gav)
  }

  lemma HoldsKept(before: TaskState, after: TaskState, gav: Gav)
    requires Holds(before, gav) && Grows(before, after)
    ensures Holds(after, gav)
  {
  }

  /** Laying out a list of configs registers each of them with its own coordinates. */
  lemma {:induction false} LaidAllRegisters(st: TaskState, configs: seq<FpConfig>, i: nat, acc: BuilderMap,
                                            repo: Gav -> Fetch, depth: nat)
    requires i <= |configs| && acc.Valid()
    requires Consistent(repo) && FetchedOnce(st)
    ensures HoldsFrom(configs, i, LaidAll(st, configs, i, acc, repo, depth))
    decreases |configs| - i
  {
    if i < |configs| {
      var sub := Laid(st, configs[i], repo, depth);
      LaidAllUnfold(st, configs, i, acc, repo, depth);
      if sub.Ok? {
        var rest := LaidAll(sub.value.0, configs, i + 1, MergeOf(acc, sub.value.1), repo, depth);
        LaidGrows(st, configs[i], repo, depth);
        LaidAllGrows(sub.value.0, configs, i + 1, MergeOf(acc, sub.value.1), repo, depth);
        LaidAllRegisters(sub.value.0, configs, i + 1, MergeOf(acc, sub.value.1), repo, depth);
        if rest.Ok? {
          HoldsKept(sub.value.0, rest.value.0, configs[i].gav);
          HoldsFromCons(configs, i, rest);
        }
      }
    }
  }

  lemma HoldsFromCons(configs: seq<FpConfig>, i: nat, r: Result<(TaskState, BuilderMap), Failure>)
    requires i < |configs| && r.Ok? && Holds(r.value.0, configs[i].gav) && HoldsFrom(configs, i + 1, r)
    ensures HoldsFrom(configs, i, r)
  {
  }

  /**
   * A GA already in the layout with another version fails with the version
   * conflict (registered version first, requested second) before anything
   * is fetched; with the same version the registered spec is reused and
   * nothing is fetched for it.
   */
  lemma LaidRevisit(st: TaskState, config: FpConfig, repo: Gav -> Fetch, depth: nat)
    requires depth > 0 && config.gav.ToGa() in st.layout
    ensures var known := st.layout[config.gav.ToGa()];
      && (known.gav != config.gav ==>
            Laid(st, config, repo, depth)
              == Err(Failure(ProvisioningException, Errors.FeaturePackVersionConflict(known.gav, config.gav))))
      && (known.gav == config.gav ==>
            Registered(st, config, repo) == Ok((st, known)))
  {
  }

  /**
   * Once a run has laid out a feature-pack, asking for the same GA in
   * another version fails with the version conflict.
   */
  lemma ConflictAfterLaid(st: TaskState, c1: FpConfig, c2: FpConfig, repo: Gav -> Fetch, d1: nat, d2: nat)
    requires Consistent(repo) && FetchedOnce(st)
    requires Laid(st, c1, repo, d1).Ok? && d2 > 0
    requires c2.gav.ToGa() == c1.gav.ToGa() && c2.gav != c1.gav
    ensures Laid(Laid(st, c1, repo, d1).value.0, c2, repo, d2)
              == Err(Failure(ProvisioningException, Errors.FeaturePackVersionConflict(c1.gav, c2.gav)))
  {
    LaidGrows(st, c1, repo, d1);
    LaidRevisit(Laid(st, c1, repo, d1).value.0, c2, repo, d2);
  }

  /**
   * A feature-pack that depends on itself is laid out again and again until
   * the stack runs out: there is no cycle check.
   */
  lemma {:induction false} SelfDependencyOverflows(st: TaskState, config: FpConfig, repo: Gav -> Fetch, depth: nat)
    requires Consistent(repo) && repo(config.gav).Described?
    requires repo(config.gav).spec.deps == [config]
    requires config.gav.ToGa() in st.layout ==> st.layout[config.gav.ToGa()] == repo(config.gav).spec
    ensures Laid(st, config, repo, depth) == Err(Overflow)
    decreases depth
  {
    if depth > 0 {
      var reg := Registered(st, config, repo);
      var spec := repo(config.gav).spec;
      assert reg.Ok? && reg.value.1 == spec;
      assert reg.value.0.layout[config.gav.ToGa()] == spec;
      SelfDependencyOverflows(reg.value.0, config, repo, depth - 1);
      assert LaidAll(reg.value.0, spec.deps, 0, EmptyMap(), repo, depth - 1) == Err(Overflow);
    }
  }

  // ---------------------------------------------------------------------------
  // Plugin runs

  /** Running the loaded plugins from `i` on: how many were called, and the outcome. */
  function PluginsFrom(outcomes: seq<Option<string>>, i: nat): (r: (nat, Result<(), Failure>))
    requires i <= |outcomes|
    decreases |outcomes| - i
  {
    if i == |outcomes| then (i, Ok(()))
    else if outcomes[i].Some? then (i + 1, Err(Failure(ProvisioningException, PluginFailed)))
    else PluginsFrom(outcomes, i + 1)
  }

  /**
   * The plugins are called in order until one throws; that one is the last
   * called and the run fails with "Provisioning plugin failed". Without a
   * failure every plugin is called.
   */
  lemma {:induction false} PluginsFromStops(outcomes: seq<Option<string>>, i: nat)
    requires i <= |outcomes|
    ensures var p := PluginsFrom(outcomes, i);
      && i <= p.0 <= |outcomes|
      && (forall k :: i <= k < p.0 - 1 ==> outcomes[k].None?)
      && (p.1.Ok? <==> forall k :: i <= k < |outcomes| ==> outcomes[k].None?)
      && (p.1.Ok? ==> p.0 == |outcomes|)
      && (p.1.Err? ==> p.0 > i && outcomes[p.0 - 1].Some? && p.1.error == Failure(ProvisioningException, PluginFailed))
    decreases |outcomes| - i
  {
    if i < |outcomes| {
      if outcomes[i].None? {
        PluginsFromStops(outcomes, i + 1);
      } else {
        assert !outcomes[i].None?;
      }
    }
  }

  /**
   * `executePlugins`' loop: `outcomes[k]` is what the k-th loaded plugin's
   * `postInstall` does (`None` returns normally, `Some(m)` throws a
   * `ProvisioningException` with message `m`).
   */
  method RunPlugins(outcomes: seq<Option<string>>) returns (ran: nat, r: Result<(), Failure>)
    ensures (ran, r) == PluginsFrom(outcomes, 0)
  {
    var i := 0;
    while i < |outcomes|
      invariant i <= |outcomes|
      invariant PluginsFrom(outcomes, i) == PluginsFrom(outcomes, 0)
    {
      if outcomes[i].Some? {
        return i + 1, Err(Failure(ProvisioningException, PluginFailed));
      }
      i := i + 1;
    }
    return i, Ok(());
  }

  /** What an installation leaves: the extended config (the builders built in key order) and the plugins called. */
  datatype Installed = Installed(extended: seq<Builder>, pluginsRun: nat)

  /**
   * `execute` with `depth` stack frames per requested feature-pack and the
   * plugins' outcomes: a layout failure ends the run as it is; otherwise the
   * extended config holds one built config per laid-out feature-pack, and a
   * successful run has called every plugin when any was collected.
   */
  function ExecuteOutcome(st: TaskState, requested: seq<FpConfig>, repo: Gav -> Fetch, depth: nat,
                          outcomes: seq<Option<string>>): (r: Result<(TaskState, Installed), Failure>)
    ensures var laid := LaidOut(st, requested, repo, depth);
      && (laid.Err? ==> r == Err(laid.error))
      && (r.Ok? ==> laid.Ok? && r.value.0 == laid.value.0)
      && (r.Ok? ==> |r.value.1.extended| == |laid.value.1.keys|)
      && (r.Ok? ==> forall k :: 0 <= k < |laid.value.1.keys| ==> r.value.1.extended[k] == laid.value.1.entries[laid.value.1.keys[k]])
      && (r.Ok? ==> r.value.1.pluginsRun == if laid.value.0.plugins == [] then 0 else |outcomes|)
  {
    var laid := LaidOut(st, requested, repo, depth);
    if laid.Err? then Err(laid.error)
    else
      PluginsFromStops(outcomes, 0);
      var (ran, run) := if laid.value.0.plugins == [] then (0, Ok(())) else PluginsFrom(outcomes, 0);
      if run.Err? then Err(run.error)
      else Ok((laid.value.0, Installed(laid.value.1.Values(), ran)))
  }

  /**
   * No plugin is called when none was collected; otherwise the first plugin
   * failure fails the whole run with "Provisioning plugin failed".
   */
  lemma ExecutePluginsOnlyWhenCollected(st: TaskState, requested: seq<FpConfig>, repo: Gav -> Fetch, depth: nat,
                                        outcomes: seq<Option<string>>)
    requires LaidOut(st, requested, repo, depth).Ok?
    ensures var laid := LaidOut(st, requested, repo, depth).value;
      var r := ExecuteOutcome(st, requested, repo, depth, outcomes);
      && (laid.0.plugins == [] ==> r.Ok? && r.value.1.pluginsRun == 0)
      && (laid.0.plugins != [] ==>
            (r.Ok? <==> forall k :: 0 <= k < |outcomes| ==> outcomes[k].None?)
            && (r.Err? ==> r.error == Failure(ProvisioningException, PluginFailed)))
  {
    PluginsFromStops(outcomes, 0);
  }

  // ---------------------------------------------------------------------------
  // The task

  /** A method's result together with the state it leaves, in the form of the traversal functions. */
  function Paired<T>(r: Result<T, Failure>, st: TaskState): Result<(TaskState, T), Failure> {
    if r.Ok? then Ok((st, r.value)) else Err(r.error)
  }

  class Task {
    /** The layout description being built (`layoutBuilder`), specs by GA. */
    var layout: map<Ga, FpSpec>
    var provisioningPlugins: seq<Gav>
    /** The coordinates whose artifacts were resolved, in order. */
    var fetched: seq<Gav>

    function State(): TaskState
      reads this
    {
      TaskState(layout, provisioningPlugins, fetched)
    }

    constructor()
      ensures State() == TaskState(map[], [], [])
    {
      layout := map[];
      provisioningPlugins := [];
      fetched := [];
    }

    /** `addProvisioningPlugin`: a coordinate not collected yet goes last; a collected one changes nothing. */
    method AddProvisioningPlugin(gav: Gav)
      modifies this`provisioningPlugins
      ensures provisioningPlugins == WithPlugin(old(provisioningPlugins), gav)
    {
      match |provisioningPlugins|
      case 0 =>
        provisioningPlugins := [gav];
      case 1 =>
        if gav !in provisioningPlugins {
          provisioningPlugins := provisioningPlugins + [gav];
        }
      case _ =>
        if gav !in provisioningPlugins {
          provisioningPlugins := provisioningPlugins + [gav];
        }
    }

    /** `layoutFeaturePack` with `depth` stack frames left. */
    method LayoutFeaturePack(config: FpConfig, repo: Gav -> Fetch, depth: nat) returns (r: Result<BuilderMap, Failure>)
      modifies this
      ensures Paired(r, State()) == Laid(old(State()), config, repo, depth)
      decreases depth, 2
    {
      if depth == 0 {
        return Err(Overflow);
      }
      var reg := Register(config, repo);
      if reg.Err? {
        return Err(reg.error);
      }
      r := LayoutDependencies(reg.value, repo, depth - 1);
    }

    /**
     * The first half of `layoutFeaturePack`: fetch and register a GA the
     * layout does not hold yet, or check the version of the one it holds.
     */
    method Register(config: FpConfig, repo: Gav -> Fetch) returns (r: Result<FpSpec, Failure>)
      modifies this
      ensures Paired(r, State()) == Registered(old(State()), config, repo)
    {
      var ga := config.gav.ToGa();
      if ga in layout {
        var spec := layout[ga];
        if spec.gav != config.gav {
          return Err(Failure(ProvisioningException, Errors.FeaturePackVersionConflict(spec.gav, config.gav)));
        }
        return Ok(spec);
      }
      var fetch := repo(config.gav);
      var spec: FpSpec;
      match fetch {
        case ResolveFailed(m) =>
          return Err(Failure(ArtifactResolutionException, m));
        case UnzipFailed(m) =>
          return Err(Failure(ProvisioningException, m));
        case DescribeFailed =>
          return Err(Failure(ProvisioningException, "Failed to describe feature-pack " + config.gav.Text()));
        case Described(s) =>
          spec := s;
      }
      fetched := fetched + [config.gav];
      ghost var before := provisioningPlugins;
      ghost var known := layout;
      ghost var seen := fetched;
      for j := 0 to |spec.plugins|
        invariant provisioningPlugins == WithPlugins(before, spec.plugins[..j])
        invariant layout == known && fetched == seen
      {
        assert spec.plugins[..j + 1][..j] == spec.plugins[..j];
        AddProvisioningPlugin(spec.plugins[j]);
      }
      assert spec.plugins[..|spec.plugins|] == spec.plugins;
      layout := layout[spec.gav.ToGa() := spec];
      return Ok(spec);
    }

    /**
     * The second half of `layoutFeaturePack`: lay out each dependency with
     * `depth` frames, merging what it returns, then enforce each
     * dependency's declared config in declaration order.
     */
    method LayoutDependencies(spec: FpSpec, repo: Gav -> Fetch, depth: nat) returns (r: Result<BuilderMap, Failure>)
      modifies this
      ensures Paired(r, State()) == LaidOut(old(State()), spec.deps, repo, depth)
      decreases depth + 1, 1
    {
      var merged := LayoutEach(spec.deps, repo, depth);
      if merged.Err? {
        return Err(merged.error);
      }
      var builders := EnforceEach(spec.deps, merged.value);
      return Ok(builders);
    }

    /** Lay out each of `configs` with `depth` frames, merging what each returns in turn. */
    method LayoutEach(configs: seq<FpConfig>, repo: Gav -> Fetch, depth: nat) returns (r: Result<BuilderMap, Failure>)
      modifies this
      ensures Paired(r, State()) == LaidAll(old(State()), configs, 0, EmptyMap(), repo, depth)
      decreases depth + 1, 0
    {
      ghost var start := State();
      var builders := EmptyMap();
      for i := 0 to |configs|
        invariant builders.Valid()
        invariant LaidAll(start, configs, 0, EmptyMap(), repo, depth)
                    == LaidAll(State(), configs, i, builders, repo, depth)
      {
        ghost var cur := State();
        LaidAllUnfold(cur, configs, i, builders, repo, depth);
        var sub := LayoutFeaturePack(configs[i], repo, depth);
        if sub.Err? {
          return Err(sub.error);
        }
        builders := Merge(builders, sub.value);
      }
      return Ok(builders);
    }

    /** Enforce each of `configs` on `builders` in order, with the specs the layout holds. */
    method EnforceEach(configs: seq<FpConfig>, builders: BuilderMap) returns (r: BuilderMap)
      requires builders.Valid()
      ensures r == EnforceAll(layout, configs, 0, builders)
    {
      r := builders;
      for j := 0 to |configs|
        invariant r.Valid()
        invariant EnforceAll(layout, configs, 0, builders) == EnforceAll(layout, configs, j, r)
      {
        r := Enforce(SpecFor(layout, configs[j].gav), configs[j], r);
      }
    }

    /**
     * `execute` up to the installation: lay out every requested
     * feature-pack, merging what each returns, enforce every requested
     * config, build the extended config, and run the plugins when some were
     * collected.
     */
    method Execute(requested: seq<FpConfig>, repo: Gav -> Fetch, depth: nat, outcomes: seq<Option<string>>)
      returns (r: Result<Installed, Failure>)
      modifies this
      ensures Paired(r, State()) == ExecuteOutcome(old(State()).(layout := map[]), requested, repo, depth, outcomes)
    {
      layout := map[];
      var merged := LayoutEach(requested, repo, depth);
      if merged.Err? {
        return Err(merged.error);
      }
      var builders := EnforceEach(requested, merged.value);
      var extended := builders.Values();
      var ran := 0;
      if |provisioningPlugins| > 0 {
        var run;
        ran, run := RunPlugins(outcomes);
        if run.Err? {
          return Err(run.error);
        }
      }
      return Ok(Installed(extended, ran));
    }
  }
}
