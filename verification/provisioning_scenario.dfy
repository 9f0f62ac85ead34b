/**
 * The layout of the explicit-exclude scenario: fp1 depends on fp2 (excluding
 * package b) and on fp3 (excluding c); fp2 depends on fp3 (excluding a); fp3
 * depends on nothing. Provisioning fp1 fetches each feature-pack once, depth
 * first, and leaves fp3's builder created from fp2's config and then enforced
 * with fp1's.
 */
module ProvisioningScenario {
  import opened Base
  import opened Coords
  import opened ProvisioningTask

  const Group := "org.jboss.pm.test"
  const Fp1 := Gav(Group, "fp1", Some("1.0.0.Alpha-SNAPSHOT"))
  const Fp2 := Gav(Group, "fp2", Some("2.0.0.Final"))
  const Fp3 := Gav(Group, "fp3", Some("2.0.0.Final"))

  /** fp1 as requested, and the three dependency configs the specs declare. */
  const Requested := FpConfig(Fp1, [])
  const Fp2FromFp1 := FpConfig(Fp2, ["b"])
  const Fp3FromFp1 := FpConfig(Fp3, ["c"])
  const Fp3FromFp2 := FpConfig(Fp3, ["a"])

  const Spec1 := FpSpec(Fp1, [Fp2FromFp1, Fp3FromFp1], [])
  const Spec2 := FpSpec(Fp2, [Fp3FromFp2], [])
  const Spec3 := FpSpec(Fp3, [], [])

  /** The repository holding the three feature-packs. */
  function Repo(g: Gav): Fetch {
    if g == Fp1 then Described(Spec1)
    else if g == Fp2 then Described(Spec2)
    else if g == Fp3 then Described(Spec3)
    else ResolveFailed("Failed to resolve " + g.Text())
  }

  /** The states after fetching fp1, then fp2, then fp3: the traversal's order. */
  const St0 := TaskState(map[], [], [])
  const St1 := TaskState(map[Fp1.ToGa() := Spec1], [], [Fp1])
  const St2 := TaskState(map[Fp1.ToGa() := Spec1, Fp2.ToGa() := Spec2], [], [Fp1, Fp2])
  const St3 := TaskState(map[Fp1.ToGa() := Spec1, Fp2.ToGa() := Spec2, Fp3.ToGa() := Spec3], [], [Fp1, Fp2, Fp3])

  lemma GasDiffer()
    ensures Fp1.ToGa() != Fp2.ToGa() && Fp1.ToGa() != Fp3.ToGa() && Fp2.ToGa() != Fp3.ToGa()
    ensures Fp1 != Fp2 && Fp1 != Fp3 && Fp2 != Fp3
  {
    assert Fp1.artifactId[2] != Fp2.artifactId[2];
    assert Fp1.artifactId[2] != Fp3.artifactId[2];
    assert Fp2.artifactId[2] != Fp3.artifactId[2];
  }

  /** Registering a feature-pack met for the first time, in a repository whose specs have no plugins. */
  lemma FirstVisit(st: TaskState, config: FpConfig, spec: FpSpec)
    requires config.gav.ToGa() !in st.layout && Repo(config.gav) == Described(spec) && spec.plugins == []
    ensures Registered(st, config, Repo)
              == Ok((TaskState(st.layout[spec.gav.ToGa() := spec], st.plugins, st.fetched + [config.gav]), spec))
  {
    var repo: Gav -> Fetch := Repo;
    assert repo(config.gav) == Described(spec);
    assert WithPlugins(st.plugins, []) == st.plugins;
  }

  lemma Registrations()
    ensures Registered(St0, Requested, Repo) == Ok((St1, Spec1))
    ensures Registered(St1, Fp2FromFp1, Repo) == Ok((St2, Spec2))
    ensures Registered(St2, Fp3FromFp2, Repo) == Ok((St3, Spec3))
    ensures Registered(St3, Fp3FromFp1, Repo) == Ok((St3, Spec3))
  {
    GasDiffer();
    FirstVisit(St0, Requested, Spec1);
    assert St0.fetched + [Fp1] == St1.fetched;
    assert St0.layout[Fp1.ToGa() := Spec1] == St1.layout;
    FirstVisit(St1, Fp2FromFp1, Spec2);
    assert St1.fetched + [Fp2] == St2.fetched;
    assert St1.layout[Fp2.ToGa() := Spec2] == St2.layout;
    FirstVisit(St2, Fp3FromFp2, Spec3);
    assert St2.fetched + [Fp3] == St3.fetched;
    assert St2.layout[Fp3.ToGa() := Spec3] == St3.layout;
    assert St3.layout[Fp3.ToGa()] == Spec3;
  }

  lemma Fp3Laid()
    ensures Laid(St2, Fp3FromFp2, Repo, 1) == Ok((St3, EmptyMap()))
    ensures Laid(St3, Fp3FromFp1, Repo, 2) == Ok((St3, EmptyMap()))
  {
    Registrations();
  }

  lemma Fp2Laid()
    ensures Laid(St1, Fp2FromFp1, Repo, 2) == Ok((St3, FromFp2))
  {
    Registrations();
    Fp3Laid();
    var e := EmptyMap();
    MergeIntoEmpty(e, e);
    assert LaidAll(St2, Spec2.deps, 0, e, Repo, 1) == LaidAll(St3, Spec2.deps, 1, MergeOf(e, e), Repo, 1);
    assert LaidAll(St3, Spec2.deps, 1, e, Repo, 1) == Ok((St3, e));
    assert SpecFor(St3.layout, Fp3) == Some(Spec3);
    assert Enforce(Some(Spec3), Fp3FromFp2, e) == FromFp2;
    assert EnforceAll(St3.layout, Spec2.deps, 0, e) == FromFp2;
    assert LaidOut(St2, Spec2.deps, Repo, 1) == Ok((St3, FromFp2));
  }

  /** The builders fp2's layout returns, and those fp1's layout returns. */
  const FromFp2 := OrderedMap([Fp3], map[Fp3 := Fresh(Some(Spec3), Fp3FromFp2)])
  const FromFp1 := OrderedMap([Fp3, Fp2], map[Fp3 := Enforced(Fresh(Some(Spec3), Fp3FromFp2), Fp3FromFp1),
                                              Fp2 := Fresh(Some(Spec2), Fp2FromFp1)])

  lemma Fp1Deps()
    ensures LaidAll(St1, Spec1.deps, 0, EmptyMap(), Repo, 2) == Ok((St3, FromFp2))
  {
    Fp2Laid();
    Fp3Laid();
    var e := EmptyMap();
    assert FromFp2.Valid();
    MergeIntoEmpty(e, FromFp2);
    MergeNothingInto(FromFp2);
    assert LaidAll(St1, Spec1.deps, 0, e, Repo, 2) == LaidAll(St3, Spec1.deps, 1, FromFp2, Repo, 2);
    assert LaidAll(St3, Spec1.deps, 1, FromFp2, Repo, 2) == LaidAll(St3, Spec1.deps, 2, FromFp2, Repo, 2);
  }

  lemma MergeNothingInto(m: BuilderMap)
    requires m.Valid()
    ensures MergeOf(m, EmptyMap()) == m
  {
    assert NewKeys([], m.entries) == [];
    assert m.keys + [] == m.keys;
    assert MergedMap(m.entries, map[]) == m.entries;
  }

  lemma Fp1Enforce()
    ensures EnforceAll(St3.layout, Spec1.deps, 0, FromFp2) == FromFp1
  {
    GasDiffer();
    assert SpecFor(St3.layout, Fp2) == Some(Spec2);
    assert SpecFor(St3.layout, Fp3) == Some(Spec3);
    var once := OrderedMap([Fp3, Fp2], map[Fp3 := Fresh(Some(Spec3), Fp3FromFp2), Fp2 := Fresh(Some(Spec2), Fp2FromFp1)]);
    assert Enforce(Some(Spec2), Fp2FromFp1, FromFp2) == once;
    assert Enforce(Some(Spec3), Fp3FromFp1, once) == FromFp1;
    assert EnforceAll(St3.layout, Spec1.deps, 0, FromFp2) == EnforceAll(St3.layout, Spec1.deps, 1, once);
    assert EnforceAll(St3.layout, Spec1.deps, 1, once) == EnforceAll(St3.layout, Spec1.deps, 2, FromFp1);
  }

  lemma Fp1Laid()
    ensures Laid(St0, Requested, Repo, 3) == Ok((St3, FromFp1))
  {
    Registrations();
    Fp1Deps();
    Fp1Enforce();
    assert LaidOut(St1, Spec1.deps, Repo, 2) == Ok((St3, FromFp1));
  }

  /** The builders after the requested config is enforced: fp1's own comes last. */
  const Extended := OrderedMap([Fp3, Fp2, Fp1], map[Fp3 := Enforced(Fresh(Some(Spec3), Fp3FromFp2), Fp3FromFp1),
                                                    Fp2 := Fresh(Some(Spec2), Fp2FromFp1),
                                                    Fp1 := Fresh(Some(Spec1), Requested)])

  lemma RequestedDeps()
    ensures LaidAll(St0, [Requested], 0, EmptyMap(), Repo, 3) == Ok((St3, FromFp1))
  {
    Fp1Laid();
    assert FromFp1.Valid();
    MergeIntoEmpty(EmptyMap(), FromFp1);
  }

  lemma RequestedEnforce()
    ensures EnforceAll(St3.layout, [Requested], 0, FromFp1) == Extended
  {
    GasDiffer();
    assert SpecFor(St3.layout, Fp1) == Some(Spec1);
    assert Enforce(Some(Spec1), Requested, FromFp1) == Extended;
    assert EnforceAll(St3.layout, [Requested], 0, FromFp1) == EnforceAll(St3.layout, [Requested], 1, Extended);
  }

  lemma RequestedLaid()
    ensures LaidOut(St0, [Requested], Repo, 3) == Ok((St3, Extended))
  {
    RequestedDeps();
    RequestedEnforce();
  }

  /**
   * Provisioning fp1 fetches fp1, fp2 and fp3 in that order, collects no
   * plugin, and extends the config with three builders: fp3's, created from
   * fp2's config and enforced with fp1's; fp2's, created from fp1's config;
   * and fp1's own, created from the requested config.
   */
  lemma ExplicitExcludeLayout()
    ensures var r := ExecuteOutcome(St0, [Requested], Repo, 3, []);
      && r.Ok?
      && r.value.0.fetched == [Fp1, Fp2, Fp3]
      && r.value.0.plugins == []
      && r.value.1.pluginsRun == 0
      && r.value.1.extended == [Enforced(Fresh(Some(Spec3), Fp3FromFp2), Fp3FromFp1),
                                Fresh(Some(Spec2), Fp2FromFp1),
                                Fresh(Some(Spec1), Requested)]
  {
    RequestedLaid();
    assert Extended.Values() == [Extended.entries[Fp3], Extended.entries[Fp2], Extended.entries[Fp1]];
  }
}
