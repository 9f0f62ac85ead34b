/**
 * The builder of a provisioned feature (`ProvisionedFeatureBuilder`): a
 * feature of a resolved spec with configuration values and resolved values
 * for its parameters, and either a resolved id given up front or an id
 * builder that collects the id parameters until `build`.
 */
module FeatureBuilder {
  import opened Base
  import opened Coords

  /** A `ResolvedSpecId`: the feature-pack and the spec name. */
  datatype SpecId = SpecId(gav: Gav, name: string)

  /** A resolved parameter value: a string, or an object of some class whose `toString` is `text`. */
  datatype Value = Str(s: string) | Obj(className: string, text: string) {
    function ToString(): string {
      if Str? then s else text
    }
  }

  /** A `ResolvedFeatureId`: the spec and the id parameters. */
  datatype FeatureId = FeatureId(specId: SpecId, params: map<string, Value>)

  /**
   * A `ResolvedFeatureId.Builder`: the id parameters set so far. Its `build`
   * is taken to make the id from them; the class itself is not part of this model.
   */
  datatype IdBuilder = IdBuilder(specId: SpecId, params: map<string, Value>) {
    function Build(): FeatureId {
      FeatureId(specId, params)
    }
  }

  /** The fields of a builder at one moment. */
  datatype FeatureState = FeatureState(specId: SpecId, id: Option<FeatureId>, idBuilder: Option<IdBuilder>,
                                       configParams: map<string, string>, resolvedParams: map<string, Value>) {

    predicate HasId() {
      id.Some?
    }

    predicate HasParams() {
      |resolvedParams| != 0
    }

    function ParamNames(): set<string> {
      resolvedParams.Keys
    }

    function ConfigParam(name: string): Option<string> {
      if name in configParams then Some(configParams[name]) else None
    }

    /** `getResolvedParam`: not supported, whatever the name. */
    function ResolvedParam(name: string): Result<Value, Exception> {
      Err(UnsupportedOperationException)
    }
  }

  const NoIdBuilder := "The ID builder has not been initialized"

  /** The configuration values of resolved values: their `toString`. */
  function ConfigTexts(params: map<string, Value>): (r: map<string, string>)
    ensures r.Keys == params.Keys
    ensures forall name :: name in r ==> r[name] == params[name].ToString()
  {
    map name | name in params :: params[name].ToString()
  }

  /**
   * `builder(id)`: the resolved values are the id's parameters and the
   * configuration values their texts; there is no id builder. An id without
   * parameters makes the constructor ask an empty map for its first entry.
   */
  function FromIdState(id: FeatureId): (r: Result<FeatureState, Exception>)
    ensures r.Err? <==> |id.params| == 0
    ensures r.Err? ==> r.error == NoSuchElementException
    ensures r.Ok? ==> r.value.HasId() && r.value.idBuilder.None? && r.value.specId == id.specId
    ensures r.Ok? ==> r.value.resolvedParams == id.params && r.value.ParamNames() == id.params.Keys
    ensures r.Ok? ==> forall name :: name in id.params ==> r.value.ConfigParam(name) == Some(id.params[name].ToString())
  {
    if |id.params| == 0 then Err(NoSuchElementException)
    else Ok(FeatureState(id.specId, Some(id), None, ConfigTexts(id.params), id.params))
  }

  /** `builder(specId)`: no id yet, an empty id builder for the spec, no parameters. */
  function FromSpecState(specId: SpecId): (r: FeatureState)
    ensures !r.HasId() && r.idBuilder == Some(IdBuilder(specId, map[]))
    ensures !r.HasParams() && forall name :: r.ConfigParam(name) == None
  {
    FeatureState(specId, None, Some(IdBuilder(specId, map[])), map[], map[])
  }

  function WithConfigParam(st: FeatureState, name: string, value: string): FeatureState {
    st.(configParams := st.configParams[name := value])
  }

  function WithResolvedParam(st: FeatureState, name: string, value: Value): FeatureState {
    st.(resolvedParams := st.resolvedParams[name := value])
  }

  /** `setParam(name, config, resolved)`: the configuration value, then the resolved one. */
  function WithParam(st: FeatureState, name: string, config: string, resolved: Value): FeatureState {
    WithResolvedParam(WithConfigParam(st, name, config), name, resolved)
  }

  /** `setIdParam(name, value)`: only a builder with an id builder accepts id parameters. */
  function WithIdParam(st: FeatureState, name: string, value: Value): Result<FeatureState, Failure> {
    if st.idBuilder.None? then Err(Failure(IllegalStateException, NoIdBuilder))
    else
      var idb := st.idBuilder.value;
      Ok(st.(idBuilder := Some(idb.(params := idb.params[name := value])),
             resolvedParams := st.resolvedParams[name := value]))
  }

  /** `setIdParam(name, config, resolved)`: the id parameter, then the configuration value. */
  function WithIdParamConfig(st: FeatureState, name: string, config: string, resolved: Value): Result<FeatureState, Failure> {
    var s :- WithIdParam(st, name, resolved);
    Ok(WithConfigParam(s, name, config))
  }

  /** `build`: the id is made from the id builder, which is then dropped. */
  function Built(st: FeatureState): FeatureState {
    if st.idBuilder.Some? then st.(id := Some(st.idBuilder.value.Build()), idBuilder := None) else st
  }

  /** `equals`: configuration values, id, resolved values and spec id; the id builder is not compared. */
  predicate Equals(a: FeatureState, b: FeatureState) {
    && a.configParams == b.configParams
    && a.id == b.id
    && a.resolvedParams == b.resolvedParams
    && a.specId == b.specId
  }

  // ---------------------------------------------------------------------------
  // What the operations promise

  /** `setParam` sets both values of the parameter and leaves the other parameters alone. */
  lemma SetParamSetsBoth(st: FeatureState, name: string, config: string, resolved: Value)
    ensures var r := WithParam(st, name, config, resolved);
      && r.ConfigParam(name) == Some(config)
      && name in r.resolvedParams && r.resolvedParams[name] == resolved
      && (forall other :: other != name ==> r.ConfigParam(other) == st.ConfigParam(other))
      && (forall other :: other != name && other in st.resolvedParams
            ==> other in r.resolvedParams && r.resolvedParams[other] == st.resolvedParams[other])
      && r.ParamNames() == st.ParamNames() + {name}
      && r.id == st.id && r.idBuilder == st.idBuilder
  {
  }

  /** `setConfigParam` changes neither the resolved values nor, so, the parameter names. */
  lemma ConfigParamKeepsResolved(st: FeatureState, name: string, value: string)
    ensures var r := WithConfigParam(st, name, value);
      && r.resolvedParams == st.resolvedParams
      && r.ParamNames() == st.ParamNames()
      && r.HasParams() == st.HasParams()
      && r.ConfigParam(name) == Some(value)
  {
  }

  /**
   * A builder made from an id refuses id parameters with an
   * `IllegalStateException` and is left as it was; one made from a spec
   * records the parameter in the id builder, the resolved values and the
   * configuration values.
   */
  lemma IdParamNeedsIdBuilder(id: FeatureId, specId: SpecId, name: string, config: string, resolved: Value)
    requires |id.params| > 0
    ensures WithIdParamConfig(FromIdState(id).value, name, config, resolved)
              == Err(Failure(IllegalStateException, NoIdBuilder))
    ensures var r := WithIdParamConfig(FromSpecState(specId), name, config, resolved);
      && r.Ok?
      && r.value.idBuilder == Some(IdBuilder(specId, map[name := resolved]))
      && r.value.resolvedParams == map[name := resolved]
      && r.value.configParams == map[name := config]
  {
  }

  /** Recording an id parameter reaches all three places and nothing else. */
  lemma IdParamRecordsThrice(st: FeatureState, name: string, config: string, resolved: Value)
    requires st.idBuilder.Some?
    ensures var r := WithIdParamConfig(st, name, config, resolved);
      && r.Ok?
      && r.value.idBuilder.Some? && r.value.idBuilder.value.params == st.idBuilder.value.params[name := resolved]
      && r.value.resolvedParams == st.resolvedParams[name := resolved]
      && r.value.configParams == st.configParams[name := config]
      && r.value.id == st.id && r.value.specId == st.specId
  {
  }

  /**
   * `build` sets the id once: afterwards there is an id whenever there was
   * an id or an id builder, the id builder is gone, a second `build` changes
   * nothing, and no further id parameter is accepted.
   */
  lemma BuildOnce(st: FeatureState, name: string, value: Value)
    ensures var b := Built(st);
      && (st.idBuilder.Some? ==> b.id == Some(FeatureId(st.idBuilder.value.specId, st.idBuilder.value.params)))
      && (st.idBuilder.None? ==> b.id == st.id)
      && b.idBuilder.None?
      && Built(b) == b
      && WithIdParam(b, name, value).Err?
      && b.resolvedParams == st.resolvedParams && b.configParams == st.configParams
  {
  }

  /** `equals` does not see the id builder, and a builder equals the one it builds into once its id is set. */
  lemma EqualsIgnoresIdBuilder(st: FeatureState)
    requires st.idBuilder.None?
    ensures Equals(st, Built(st))
    ensures forall idb :: Equals(st, st.(idBuilder := idb))
  {
  }

  /**
   * A feature with one id parameter, built from its spec with a string id
   * value, equals the feature built from the id holding that value.
   */
  lemma SameFeatureTwoWays(specId: SpecId, name: string, value: string)
    ensures var fromSpec := WithIdParamConfig(FromSpecState(specId), name, value, Str(value));
      && fromSpec.Ok?
      && Equals(Built(fromSpec.value), FromIdState(FeatureId(specId, map[name := Str(value)])).value)
  {
    var params := map[name := Str(value)];
    assert ConfigTexts(params) == map[name := value];
  }

  // ---------------------------------------------------------------------------
  // The builder

  class ProvisionedFeatureBuilder {
    const specId: SpecId
    var id: Option<FeatureId>
    var idBuilder: Option<IdBuilder>
    var configParams: map<string, string>
    var resolvedParams: map<string, Value>

    function State(): FeatureState
      reads this
    {
      FeatureState(specId, id, idBuilder, configParams, resolvedParams)
    }

    /** The constructor given a spec id only. */
    constructor ForSpec(specId: SpecId)
      ensures State() == FromSpecState(specId)
    {
      this.specId := specId;
      id := None;
      idBuilder := Some(IdBuilder(specId, map[]));
      configParams := map[];
      resolvedParams := map[];
    }

    /**
     * The constructor given an id with parameters: with more than one, the
     * configuration values are filled entry by entry; with one, a singleton.
     */
    constructor ForId(id: FeatureId)
      requires |id.params| > 0
      ensures State() == FromIdState(id).value
    {
      var config: map<string, string>;
      if |id.params| > 1 {
        config := map[];
        var remaining := id.params.Keys;
        while remaining != {}
          invariant remaining <= id.params.Keys
          invariant config.Keys == id.params.Keys - remaining
          invariant forall name :: name in config ==> config[name] == id.params[name].ToString()
          decreases remaining
        {
          var name :| name in remaining;
          config := config[name := id.params[name].ToString()];
          remaining := remaining - {name};
        }
      } else {
        var name :| name in id.params;
        assert id.params.Keys == {name} by {
          forall other | other in id.params
            ensures other == name
          {
            if other != name {
              assert {name, other} <= id.params.Keys;
              assert |{name, other}| == 2;
              SubsetCard({name, other}, id.params.Keys);
            }
          }
        }
        config := map[name := id.params[name].ToString()];
      }
      this.specId := id.specId;
      this.id := Some(id);
      idBuilder := None;
      configParams := config;
      resolvedParams := id.params;
    }

    method SetConfigParam(name: string, value: string)
      modifies this
      ensures State() == WithConfigParam(old(State()), name, value)
    {
      configParams := configParams[name := value];
    }

    method SetResolvedParam(name: string, value: Value)
      modifies this
      ensures State() == WithResolvedParam(old(State()), name, value)
    {
      resolvedParams := resolvedParams[name := value];
    }

    method SetParam(name: string, config: string, resolved: Value)
      modifies this
      ensures State() == WithParam(old(State()), name, config, resolved)
    {
      SetConfigParam(name, config);
      SetResolvedParam(name, resolved);
    }

    /** `setParam(name, value)`: the string is both the configuration and the resolved value. */
    method SetParamValue(name: string, value: string)
      modifies this
      ensures State() == WithParam(old(State()), name, value, Str(value))
    {
      SetParam(name, value, Str(value));
    }

    /** `setIdParam(name, value)`; on the exception the builder is unchanged. */
    method SetIdParam(name: string, value: Value) returns (r: Result<(), Failure>)
      modifies this
      ensures var expected := WithIdParam(old(State()), name, value);
        && (r.Ok? <==> expected.Ok?)
        && (expected.Ok? ==> State() == expected.value)
        && (expected.Err? ==> r == Err(expected.error) && State() == old(State()))
    {
      if idBuilder.None? {
        return Err(Failure(IllegalStateException, NoIdBuilder));
      }
      var idb := idBuilder.value;
      idBuilder := Some(idb.(params := idb.params[name := value]));
      resolvedParams := resolvedParams[name := value];
      r := Ok(());
    }

    /** `setIdParam(name, config, resolved)`. */
    method SetIdParamConfig(name: string, config: string, resolved: Value) returns (r: Result<(), Failure>)
      modifies this
      ensures var expected := WithIdParamConfig(old(State()), name, config, resolved);
        && (r.Ok? <==> expected.Ok?)
        && (expected.Ok? ==> State() == expected.value)
        && (expected.Err? ==> r == Err(expected.error) && State() == old(State()))
    {
      r := SetIdParam(name, resolved);
      if r.Ok? {
        SetConfigParam(name, config);
      }
    }

    /** `setIdParam(name, value)` with a string value. */
    method SetIdParamValue(name: string, value: string) returns (r: Result<(), Failure>)
      modifies this
      ensures var expected := WithIdParamConfig(old(State()), name, value, Str(value));
        && (r.Ok? <==> expected.Ok?)
        && (expected.Ok? ==> State() == expected.value)
        && (expected.Err? ==> r == Err(expected.error) && State() == old(State()))
    {
      r := SetIdParamConfig(name, value, Str(value));
    }

    method Build()
      modifies this
      ensures State() == Built(old(State()))
    {
      if idBuilder.Some? {
        id := Some(idBuilder.value.Build());
        idBuilder := None;
      }
    }
  }

  /** A subset has no more elements than its superset. */
  lemma SubsetCard<T>(a: set<T>, b: set<T>)
    requires a <= b
    ensures |a| <= |b|
  {
    if a != {} {
      var x :| x in a;
      SubsetCard(a - {x}, b - {x});
    }
  }

  /** `builder(id)`: throws `NoSuchElementException` for an id without parameters. */
  method BuilderForId(id: FeatureId) returns (r: Result<ProvisionedFeatureBuilder, Exception>)
    ensures r.Err? <==> FromIdState(id).Err?
    ensures r.Err? ==> r.error == NoSuchElementException
    ensures r.Ok? ==> fresh(r.value) && r.value.State() == FromIdState(id).value
  {
    if |id.params| == 0 {
      return Err(NoSuchElementException);
    }
    var b := new ProvisionedFeatureBuilder.ForId(id);
    r := Ok(b);
  }

  /** `builder(specId)`. */
  method BuilderForSpec(specId: SpecId) returns (b: ProvisionedFeatureBuilder)
    ensures fresh(b) && b.State() == FromSpecState(specId)
  {
    b := new ProvisionedFeatureBuilder.ForSpec(specId);
  }
}
