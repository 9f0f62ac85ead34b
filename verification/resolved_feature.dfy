/**
 * Linking a resolved feature to the features it references: `resolveParam`
 * looks a parameter up in the feature's values and falls back to the spec's
 * default; `getRefTarget` turns one reference into the id of the target
 * feature by mapping local parameter values onto the target's id
 * parameters; `resolveRefs` collects the targets of all references.
 */
module ResolvedFeature {
  import opened Base

  /** A parameter of a feature spec: name, default value, whether it is part of the id, whether it may be null. */
  datatype ParamSpec = ParamSpec(name: string, defaultValue: Option<string>, featureId: bool, nillable: bool)

  /** One mapping of a reference: the local parameter whose value becomes the target parameter. */
  datatype Mapping = Mapping(local: string, target: string)

  /** A reference of a feature spec; `|mappings|` is its number of mapped parameters. */
  datatype RefSpec = RefSpec(name: string, nillable: bool, mappings: seq<Mapping>)

  /** The declared parameters and references of a feature spec, by name. */
  datatype FeatureSpec = FeatureSpec(params: map<string, ParamSpec>, refs: map<string, RefSpec>)

  /** A feature id: the id of its spec and the values of the id parameters. */
  datatype FeatureId = FeatureId(specId: string, params: map<string, string>)

  /** A resolved spec: its id, its declaration, and each reference name with the id of the spec it targets, in iteration order. */
  datatype ResolvedSpec = ResolvedSpec(id: string, xmlSpec: FeatureSpec, refTargets: seq<(string, string)>)

  /** Who an error message is about: the feature's id, or its spec's configuration when it has no id. */
  datatype Owner = Identified(id: FeatureId) | Configuration(specId: string)

  /** Why resolution fails; every case is a `ProvisioningDescriptionException`. */
  datatype ResolveError =
    | MissingParam(owner: Owner, param: string)  // `<owner> is missing required parameter <param>`
    | NullRef(ref: RefSpec, owner: Owner)         // `Reference <ref> of <owner> cannot be null`
    | UnknownParam(name: string)                 // the spec declares no such parameter
    | UnknownRef(name: string)                   // the spec declares no such reference
  {
    function Kind(): Exception { ProvisioningDescriptionException }
  }

  /** A resolved feature: its id (absent for a feature of a configuration without one), spec and parameter values. */
  datatype Feature = Feature(id: Option<FeatureId>, spec: ResolvedSpec, params: map<string, string>) {
    function Owner(): Owner {
      if id.Some? then Identified(id.value) else Configuration(spec.id)
    }
  }

  function ParamOf(f: Feature, name: string): Result<ParamSpec, ResolveError> {
    if name in f.spec.xmlSpec.params then Ok(f.spec.xmlSpec.params[name]) else Err(UnknownParam(name))
  }

  function RefOf(f: Feature, name: string): Result<RefSpec, ResolveError> {
    if name in f.spec.xmlSpec.refs then Ok(f.spec.xmlSpec.refs[name]) else Err(UnknownRef(name))
  }

  /** The value of parameter `name`: the feature's own value, else the default; `None` is the Java `null`. */
  function ResolveParam(f: Feature, name: string): (r: Result<Option<string>, ResolveError>)
    ensures r.Ok? ==> name in f.spec.xmlSpec.params
    ensures r.Ok? && r.value.None? ==> !f.spec.xmlSpec.params[name].featureId && f.spec.xmlSpec.params[name].nillable
    ensures r.Err? && name in f.spec.xmlSpec.params ==> r.error == MissingParam(f.Owner(), f.spec.xmlSpec.params[name].name)
  {
    var param :- ParamOf(f, name);
    var value := if param.name in f.params then Some(f.params[param.name]) else param.defaultValue;
    if value.None? && (param.featureId || !param.nillable) then Err(MissingParam(f.Owner(), param.name))
    else Ok(value)
  }

  /** The three outcomes of `resolveParam`: the supplied value, else the default, else `null` or a failure. */
  lemma ResolveParamCases(f: Feature, name: string)
    requires name in f.spec.xmlSpec.params
    ensures var p := f.spec.xmlSpec.params[name];
      var r := ResolveParam(f, name);
      && (p.name in f.params ==> r == Ok(Some(f.params[p.name])))
      && (p.name !in f.params && p.defaultValue.Some? ==> r == Ok(p.defaultValue))
      && (r.Err? <==> p.name !in f.params && p.defaultValue.None? && (p.featureId || !p.nillable))
      && (r == Ok(None) <==> p.name !in f.params && p.defaultValue.None? && !p.featureId && p.nillable)
  {
  }

  // ---------------------------------------------------------------------------
  // getRefTarget

  /** What a `null` local value means for reference `ref`: no target when it is nillable, a failure otherwise. */
  function NullTarget<T>(f: Feature, ref: RefSpec): Result<Option<T>, ResolveError> {
    if !ref.nillable then Err(NullRef(ref, f.Owner())) else Ok(None)
  }

  /** The loop over the mappings of a reference from `i` on, with the target parameters collected so far in `acc`. */
  function MappedFrom(f: Feature, ref: RefSpec, i: nat, acc: map<string, string>): Result<Option<map<string, string>>, ResolveError>
    requires i <= |ref.mappings|
    decreases |ref.mappings| - i
  {
    if i == |ref.mappings| then Ok(Some(acc))
    else
      var value :- ResolveParam(f, ref.mappings[i].local);
      if value.None? then NullTarget(f, ref)
      else MappedFrom(f, ref, i + 1, acc[ref.mappings[i].target := value.value])
  }

  /** The id of the feature that reference `ref` targets in the spec `specId`; `None` for no target. */
  function RefTarget(f: Feature, specId: string, ref: RefSpec): Result<Option<FeatureId>, ResolveError> {
    if |ref.mappings| == 1 then
      var value :- ResolveParam(f, ref.mappings[0].local);
      if value.None? then NullTarget(f, ref)
      else Ok(Some(FeatureId(specId, map[ref.mappings[0].target := value.value])))
    else
      var m :- MappedFrom(f, ref, 0, map[]);
      Ok(if m.None? then None else Some(FeatureId(specId, m.value)))
  }

  method GetRefTarget(f: Feature, specId: string, ref: RefSpec) returns (r: Result<Option<FeatureId>, ResolveError>)
    ensures r == RefTarget(f, specId, ref)
  {
    if |ref.mappings| == 1 {
      var paramValue :- ResolveParam(f, ref.mappings[0].local);
      if paramValue.None? {
        return NullTarget(f, ref);
      }
      return Ok(Some(FeatureId(specId, map[ref.mappings[0].target := paramValue.value])));
    }
    var params: map<string, string> := map[];
    for i := 0 to |ref.mappings|
      invariant MappedFrom(f, ref, 0, map[]) == MappedFrom(f, ref, i, params)
    {
      var paramValue :- ResolveParam(f, ref.mappings[i].local);
      if paramValue.None? {
        return NullTarget(f, ref);
      }
      params := params[ref.mappings[i].target := paramValue.value];
    }
    return Ok(Some(FeatureId(specId, params)));
  }

  /** The target parameters of the first `n` mappings. */
  function TargetsOf(ref: RefSpec, n: nat): set<string>
    requires n <= |ref.mappings|
  {
    set k | 0 <= k < n :: ref.mappings[k].target
  }

  /** When the loop ends with a map, its keys are all the target parameters. */
  lemma {:induction false} MappedFromKeys(f: Feature, ref: RefSpec, i: nat, acc: map<string, string>)
    requires i <= |ref.mappings| && acc.Keys == TargetsOf(ref, i)
    ensures var r := MappedFrom(f, ref, i, acc);
      r.Ok? && r.value.Some? ==> r.value.value.Keys == TargetsOf(ref, |ref.mappings|)
    decreases |ref.mappings| - i
  {
    var r := MappedFrom(f, ref, i, acc);
    if i < |ref.mappings| && r.Ok? && r.value.Some? {
      var value := ResolveParam(f, ref.mappings[i].local).value.value;
      assert TargetsOf(ref, i + 1) == TargetsOf(ref, i) + {ref.mappings[i].target};
      MappedFromKeys(f, ref, i + 1, acc[ref.mappings[i].target := value]);
    }
  }

  /** When the loop ends with a map, every local parameter from `i` on resolved to a value. */
  lemma {:induction false} MappedFromResolved(f: Feature, ref: RefSpec, i: nat, acc: map<string, string>)
    requires i <= |ref.mappings|
    ensures var r := MappedFrom(f, ref, i, acc);
      r.Ok? && r.value.Some? ==>
        forall k :: i <= k < |ref.mappings| ==> ResolveParam(f, ref.mappings[k].local).Ok?
                                                && ResolveParam(f, ref.mappings[k].local).value.Some?
    decreases |ref.mappings| - i
  {
    var r := MappedFrom(f, ref, i, acc);
    if i < |ref.mappings| && r.Ok? && r.value.Some? {
      var value := ResolveParam(f, ref.mappings[i].local).value.value;
      MappedFromResolved(f, ref, i + 1, acc[ref.mappings[i].target := value]);
    }
  }

  /** No mapping from `i` on has target parameter `key`. */
  predicate NotMappedFrom(ref: RefSpec, i: nat, key: string) {
    forall j :: i <= j < |ref.mappings| ==> ref.mappings[j].target != key
  }

  /**
   * When the loop ends with a map, a target parameter that is not mapped
   * again later holds the value of its local parameter, and an entry of
   * `acc` that is not mapped again is kept.
   */
  lemma {:induction false} MappedFromValues(f: Feature, ref: RefSpec, i: nat, acc: map<string, string>)
    requires i <= |ref.mappings|
    ensures var r := MappedFrom(f, ref, i, acc);
      r.Ok? && r.value.Some? ==>
        && (forall key :: key in acc && NotMappedFrom(ref, i, key) ==> key in r.value.value && r.value.value[key] == acc[key])
        && (forall k :: i <= k < |ref.mappings| && NotMappedFrom(ref, k + 1, ref.mappings[k].target) ==>
              ref.mappings[k].target in r.value.value
              && ResolveParam(f, ref.mappings[k].local) == Ok(Some(r.value.value[ref.mappings[k].target])))
    decreases |ref.mappings| - i
  {
    var r := MappedFrom(f, ref, i, acc);
    if i < |ref.mappings| && r.Ok? && r.value.Some? {
      var value := ResolveParam(f, ref.mappings[i].local).value.value;
      var acc' := acc[ref.mappings[i].target := value];
      MappedFromValues(f, ref, i + 1, acc');
      assert r == MappedFrom(f, ref, i + 1, acc');
      forall key | key in acc && NotMappedFrom(ref, i, key)
        ensures key in r.value.value && r.value.value[key] == acc[key]
      {
        assert ref.mappings[i].target != key;
        assert NotMappedFrom(ref, i + 1, key);
      }
    }
  }

  /**
   * A reference with several (or no) mapped parameters targets the feature of
   * spec `specId` whose id maps every target parameter to the value of its
   * local parameter; with distinct target parameters the id has exactly
   * `|mappings|` entries.
   */
  lemma RefTargetMapped(f: Feature, specId: string, ref: RefSpec)
    requires |ref.mappings| != 1
    ensures var r := RefTarget(f, specId, ref);
      r.Ok? && r.value.Some? ==>
        && r.value.value.specId == specId
        && r.value.value.params.Keys == TargetsOf(ref, |ref.mappings|)
        && (forall k :: 0 <= k < |ref.mappings| ==>
              ResolveParam(f, ref.mappings[k].local).Ok? && ResolveParam(f, ref.mappings[k].local).value.Some?)
        && (forall k :: 0 <= k < |ref.mappings| && NotMappedFrom(ref, k + 1, ref.mappings[k].target) ==>
              ResolveParam(f, ref.mappings[k].local) == Ok(Some(r.value.value.params[ref.mappings[k].target])))
        && (Distinct(Targets(ref)) ==> |r.value.value.params| == |ref.mappings|)
  {
    var r := RefTarget(f, specId, ref);
    assert TargetsOf(ref, 0) == {};
    MappedFromKeys(f, ref, 0, map[]);
    MappedFromResolved(f, ref, 0, map[]);
    MappedFromValues(f, ref, 0, map[]);
    if r.Ok? && r.value.Some? && Distinct(Targets(ref)) {
      DistinctTargetsCount(ref, |ref.mappings|);
    }
  }

  function Targets(ref: RefSpec): (r: seq<string>)
    ensures |r| == |ref.mappings| && forall k :: 0 <= k < |r| ==> r[k] == ref.mappings[k].target
  {
    seq(|ref.mappings|, k requires 0 <= k < |ref.mappings| => ref.mappings[k].target)
  }

  lemma {:induction false} DistinctTargetsCount(ref: RefSpec, n: nat)
    requires n <= |ref.mappings| && Distinct(Targets(ref))
    ensures |TargetsOf(ref, n)| == n
  {
    if n > 0 {
      DistinctTargetsCount(ref, n - 1);
      var before, t := TargetsOf(ref, n - 1), ref.mappings[n - 1].target;
      forall x | x in before
        ensures x != t
      {
        var k :| 0 <= k < n - 1 && ref.mappings[k].target == x;
        assert Targets(ref)[k] != Targets(ref)[n - 1];
      }
      forall x | x in TargetsOf(ref, n)
        ensures x in before + {t}
      {
        var k :| 0 <= k < n && ref.mappings[k].target == x;
        if k < n - 1 {
          assert x in before;
        }
      }
      assert TargetsOf(ref, n) == before + {t};
    }
  }

  /** A reference with one mapped parameter targets the feature whose id has that single entry. */
  lemma RefTargetSingle(f: Feature, specId: string, ref: RefSpec)
    requires |ref.mappings| == 1
    ensures var r := RefTarget(f, specId, ref);
      var value := ResolveParam(f, ref.mappings[0].local);
      && (r.Ok? && r.value.Some? <==> value.Ok? && value.value.Some?)
      && (r.Ok? && r.value.Some? ==>
            r.value.value == FeatureId(specId, map[ref.mappings[0].target := value.value.value])
            && |r.value.value.params| == 1)
  {
  }

  /**
   * The first local parameter without a value decides: a nillable reference
   * has no target, any other one fails. The value can only be missing when
   * that local parameter is itself nillable and not part of the id.
   */
  lemma RefTargetNull(f: Feature, specId: string, ref: RefSpec, i: nat)
    requires i < |ref.mappings|
    requires forall k :: 0 <= k < i ==> ResolveParam(f, ref.mappings[k].local).Ok? && ResolveParam(f, ref.mappings[k].local).value.Some?
    requires ResolveParam(f, ref.mappings[i].local) == Ok(None)
    ensures RefTarget(f, specId, ref) == if ref.nillable then Ok(None) else Err(NullRef(ref, f.Owner()))
    ensures !f.spec.xmlSpec.params[ref.mappings[i].local].featureId && f.spec.xmlSpec.params[ref.mappings[i].local].nillable
  {
    if |ref.mappings| != 1 {
      MappedFromNull(f, ref, 0, i, map[]);
    }
  }

  lemma {:induction false} MappedFromNull(f: Feature, ref: RefSpec, from: nat, i: nat, acc: map<string, string>)
    requires from <= i < |ref.mappings|
    requires forall k :: from <= k < i ==> ResolveParam(f, ref.mappings[k].local).Ok? && ResolveParam(f, ref.mappings[k].local).value.Some?
    requires ResolveParam(f, ref.mappings[i].local) == Ok(None)
    ensures MappedFrom(f, ref, from, acc) == NullTarget(f, ref)
    decreases i - from
  {
    if from < i {
      var value := ResolveParam(f, ref.mappings[from].local).value.value;
      MappedFromNull(f, ref, from + 1, i, acc[ref.mappings[from].target := value]);
    }
  }

  // ---------------------------------------------------------------------------
  // resolveRefs

  /** The target of one (reference name, target spec id) entry. */
  function TargetOf(f: Feature, entry: (string, string)): Result<Option<FeatureId>, ResolveError> {
    var ref :- RefOf(f, entry.0);
    RefTarget(f, entry.1, ref)
  }

  /** The loop of `resolveRefs` from entry `i` on, with the ids collected so far in `acc`. */
  function RefsFrom(f: Feature, entries: seq<(string, string)>, i: nat, acc: seq<FeatureId>): Result<seq<FeatureId>, ResolveError>
    requires i <= |entries|
    decreases |entries| - i
  {
    if i == |entries| then Ok(acc)
    else
      var id :- TargetOf(f, entries[i]);
      RefsFrom(f, entries, i + 1, if id.Some? then acc + [id.value] else acc)
  }

  /** What `resolveRefs` returns. */
  function ResolveRefsOf(f: Feature): Result<seq<FeatureId>, ResolveError> {
    var entries := f.spec.refTargets;
    if entries == [] then Ok([])
    else if |entries| == 1 then
      var id :- TargetOf(f, entries[0]);
      Ok(if id.None? then [] else [id.value])
    else RefsFrom(f, entries, 0, [])
  }

  method ResolveRefs(f: Feature) returns (r: Result<seq<FeatureId>, ResolveError>)
    ensures r == ResolveRefsOf(f)
  {
    var entries := f.spec.refTargets;
    if entries == [] {
      return Ok([]);
    }
    if |entries| == 1 {
      var ref :- RefOf(f, entries[0].0);
      var refId :- GetRefTarget(f, entries[0].1, ref);
      return Ok(if refId.None? then [] else [refId.value]);
    }
    var refIds: seq<FeatureId> := [];
    for i := 0 to |entries|
      invariant RefsFrom(f, entries, 0, []) == RefsFrom(f, entries, i, refIds)
    {
      var ref :- RefOf(f, entries[i].0);
      var refId :- GetRefTarget(f, entries[i].1, ref);
      if refId.Some? {
        refIds := refIds + [refId.value];
      }
    }
    return Ok(refIds);
  }

  /** The reference definition: the non-null targets of the entries in order, or the first failure. */
  function NonNullTargets(f: Feature, entries: seq<(string, string)>): Result<seq<FeatureId>, ResolveError> {
    if entries == [] then Ok([])
    else
      var id :- TargetOf(f, entries[0]);
      var rest :- NonNullTargets(f, entries[1..]);
      Ok((if id.Some? then [id.value] else []) + rest)
  }

  lemma {:induction false} RefsFromIsTargets(f: Feature, entries: seq<(string, string)>, i: nat, acc: seq<FeatureId>)
    requires i <= |entries|
    ensures RefsFrom(f, entries, i, acc) == (var t := NonNullTargets(f, entries[i..]); if t.Err? then Err(t.error) else Ok(acc + t.value))
    decreases |entries| - i
  {
    if i == |entries| {
      assert entries[i..] == [];
      assert acc + [] == acc;
    } else {
      assert entries[i..][1..] == entries[i + 1..];
      var id := TargetOf(f, entries[i]);
      if id.Ok? {
        var acc' := if id.value.Some? then acc + [id.value.value] else acc;
        RefsFromIsTargets(f, entries, i + 1, acc');
        var t := NonNullTargets(f, entries[i + 1..]);
        if t.Ok? {
          assert acc' + t.value == acc + ((if id.value.Some? then [id.value.value] else []) + t.value);
        }
      }
    }
  }

  /** `resolveRefs` returns the non-null targets of the references in order, or the first failure. */
  lemma ResolveRefsIsTargets(f: Feature)
    ensures ResolveRefsOf(f) == NonNullTargets(f, f.spec.refTargets)
  {
    var entries := f.spec.refTargets;
    if |entries| == 1 {
      assert entries[1..] == [];
      var id := TargetOf(f, entries[0]);
      if id.Ok? {
        assert NonNullTargets(f, entries[1..]) == Ok([]);
        assert (if id.value.Some? then [id.value.value] else []) + [] == (if id.value.Some? then [id.value.value] else []);
      }
    } else if |entries| > 1 {
      RefsFromIsTargets(f, entries, 0, []);
      assert entries[0..] == entries;
      var t := NonNullTargets(f, entries);
      if t.Ok? {
        assert [] + t.value == t.value;
      }
    }
  }

  /** The collected ids: at most one per reference, each the target of some reference, and one per reference when none is null. */
  lemma {:induction false} TargetsShape(f: Feature, entries: seq<(string, string)>)
    ensures var t := NonNullTargets(f, entries);
      t.Ok? ==>
        && |t.value| <= |entries|
        && (forall id :: id in t.value ==> exists k :: 0 <= k < |entries| && TargetOf(f, entries[k]) == Ok(Some(id)))
        && ((forall k :: 0 <= k < |entries| ==> TargetOf(f, entries[k]).Ok? && TargetOf(f, entries[k]).value.Some?) ==>
              |t.value| == |entries| && forall k :: 0 <= k < |entries| ==> t.value[k] == TargetOf(f, entries[k]).value.value)
  {
    if entries != [] {
      TargetsShape(f, entries[1..]);
      var t := NonNullTargets(f, entries);
      if t.Ok? {
        var rest := NonNullTargets(f, entries[1..]).value;
        forall id | id in t.value
          ensures exists k :: 0 <= k < |entries| && TargetOf(f, entries[k]) == Ok(Some(id))
        {
          if id in rest {
            var k :| 0 <= k < |entries[1..]| && TargetOf(f, entries[1..][k]) == Ok(Some(id));
            assert TargetOf(f, entries[k + 1]) == Ok(Some(id));
          } else {
            assert TargetOf(f, entries[0]) == Ok(Some(id));
          }
        }
        if forall k :: 0 <= k < |entries| ==> TargetOf(f, entries[k]).Ok? && TargetOf(f, entries[k]).value.Some? {
          assert forall k :: 0 <= k < |entries[1..]| ==> entries[1..][k] == entries[k + 1];
        }
      }
    }
  }

  // ---------------------------------------------------------------------------
  // A socket binding without an interface

  const SocketBindingSpec: FeatureSpec := FeatureSpec(
    map["socket-binding-group" := ParamSpec("socket-binding-group", None, true, false),
        "name" := ParamSpec("name", None, true, false),
        "interface" := ParamSpec("interface", None, false, true)],
    map["socket-binding-group" := RefSpec("socket-binding-group", false, [Mapping("socket-binding-group", "name")]),
        "interface" := RefSpec("interface", true, [Mapping("interface", "name")])])

  /**
   * A socket binding whose nillable `interface` parameter is unset resolves
   * without error: its only target is its socket binding group.
   */
  lemma SocketBindingWithoutInterface()
    ensures var f := Feature(None, ResolvedSpec("socket-binding", SocketBindingSpec,
                                                [("socket-binding-group", "socket-binding-group"), ("interface", "interface")]),
                             map["socket-binding-group" := "standard-sockets", "name" := "http"]);
      ResolveRefsOf(f) == Ok([FeatureId("socket-binding-group", map["name" := "standard-sockets"])])
  {
    var f := Feature(None, ResolvedSpec("socket-binding", SocketBindingSpec,
                                        [("socket-binding-group", "socket-binding-group"), ("interface", "interface")]),
                     map["socket-binding-group" := "standard-sockets", "name" := "http"]);
    assert ResolveParam(f, "interface") == Ok(None);
    assert TargetOf(f, ("interface", "interface")) == Ok(None);
    assert ResolveParam(f, "socket-binding-group") == Ok(Some("standard-sockets"));
    var group := FeatureId("socket-binding-group", map["name" := "standard-sockets"]);
    assert TargetOf(f, ("socket-binding-group", "socket-binding-group")) == Ok(Some(group));
    var entries := f.spec.refTargets;
    var last := entries[1..];
    assert last == [("interface", "interface")];
    assert last[1..] == [];
    assert NonNullTargets(f, last[1..]) == Ok([]);
    assert TargetOf(f, last[0]) == Ok(None);
    var none: seq<FeatureId> := [];
    assert none + none == none;
    assert NonNullTargets(f, last) == Ok(none);
    assert [group] + none == [group];
    assert NonNullTargets(f, entries) == Ok([group]);
    ResolveRefsIsTargets(f);
  }
}
