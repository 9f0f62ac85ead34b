/**
 * The WildFly configuration handler (`WfProvisionedConfigHandler`): `prepare`
 * picks the embed command and the parameter filter for a config model,
 * `nextSpec` translates the annotations of a feature spec into the reusable
 * `ops` array, and `nextFeature` renders each active operation for a feature
 * into the operations file.
 *
 * The operations file is the sequence of lines written to it; running the
 * CLI script and the messages written to the log are not part of this model.
 */
module WfHandler {
  import opened Base
  import opened WfParsing
  import opened WfOps

  // The WildFly operation names and the "undefined" element value.
  const AddName: string := "add"
  const WriteAttributeName: string := "write-attribute"
  const ListAddName: string := "list-add"
  const PmUndefined: string := "PM_UNDEFINED"

  const TmpDomainXml: string := "pm-tmp-domain.xml"
  const TmpHostXml: string := "pm-tmp-host.xml"

  /** A provisioned config: name, model and properties. */
  datatype ProvisionedConfig = ProvisionedConfig(name: Option<string>, model: Option<string>, props: map<string, string>)

  /** What `prepare` sets up: the operations file name, its first line, the filter and the temporary config. */
  datatype Setup = Setup(logFile: string, command: string, filter: NameFilter, tmpConfig: Option<string>)

  /**
   * The elements of a feature annotation that the handler reads (`line`,
   * `addr-pref`, `skip-if-filtered`, `addr-params-mapping`, `addr-params`,
   * `op-params-mapping`, `op-params`), each absent or a text.
   */
  datatype Annotation = Annotation(name: string, line: Option<string>, addrPref: Option<string>,
                                   skipIfFiltered: Option<string>, addrParamsMapping: Option<string>,
                                   addrParams: Option<string>, opParamsMapping: Option<string>,
                                   opParams: Option<string>)

  /**
   * A resolved feature spec: its id, annotations, and parameter names in the
   * iteration order of their set (so no name occurs twice in a spec that
   * comes from a feature-pack).
   */
  datatype FeatureSpec = FeatureSpec(id: string, annotations: seq<Annotation>, paramNames: seq<string>)

  /** Why `nextSpec` fails. */
  datatype SpecError =
    | NoteFailure(e: NoteError)                        // from `parseSet`, or `substring` in `parseList`
    | MissingAddrParams(specId: string)                // `Required element addr-params is missing for <id>`
    | EmptyAddrParamName(text: string, specId: string) // `Saw an empty parameter name in annotation addr-params=...`
    | EmptyOpParamName(text: string, specId: string)   // `Saw empty parameter name in note addr-params=...`
    | WriteAttrParams(specId: string, annotation: Annotation)  // `op-params ... accepts only one parameter`
    | UnsupportedAdd                                   // `add` on the immutable empty list
    | AnnotationIndex(index: int)                      // `annotations.get(i)` with a negative `i`
    | NullOpParams                                     // `opParams.size()` on `null`
    | NegativeCapacity(capacity: int)                  // `new ArrayList<>(opParams*2)` with a negative count
  {
    function Kind(): Exception {
      match this
      case NoteFailure(e) => e.ToFailure().kind
      case MissingAddrParams(_) => ProvisioningException
      case EmptyAddrParamName(_, _) => ProvisioningDescriptionException
      case EmptyOpParamName(_, _) => ProvisioningDescriptionException
      case WriteAttrParams(_, _) => ProvisioningDescriptionException
      case UnsupportedAdd => UnsupportedOperationException
      case AnnotationIndex(_) => IndexOutOfBoundsException
      case NullOpParams => NullPointerException
      case NegativeCapacity(_) => IllegalArgumentException
    }
  }

  // ---------------------------------------------------------------------------
  // prepare

  const EmbedServer: string := "embed-server --admin-only=true --empty-config --remove-existing --server-config="
  const EmbedDomain: string :=
    "embed-host-controller --empty-host-config --remove-existing-host-config --empty-domain-config --remove-existing-domain-config --host-config="
  const EmbedHost: string := "embed-host-controller --empty-host-config --remove-existing-host-config --host-config="
  const EmptyDomainConfig: string := " --empty-domain-config --remove-existing-domain-config --domain-config="

  function Missing(config: ProvisionedConfig, property: string): Failure {
    Failure(ProvisioningException, "Config " + NullText(config.name) + " of model " + NullText(config.model)
                                   + " is missing property " + property)
  }

  /**
   * What `prepare` does for a config: each of the models standalone, domain
   * and host needs its own config-name property, names the operations file
   * after it, and filters out the parameters that do not belong to it.
   */
  function Prepared(config: ProvisionedConfig, stagedDir: string): (r: Result<Setup, Failure>)
    ensures r.Ok? <==>
      || (config.model == Some("standalone") && "config-name" in config.props)
      || (config.model == Some("domain") && "domain-config-name" in config.props)
      || (config.model == Some("host") && "host-config-name" in config.props)
    ensures r.Err? ==> r.error.kind == ProvisioningException
    ensures r.Ok? ==>
      && (r.value.filter.Accepts("host") <==> config.model == Some("host"))
      && (r.value.filter.Accepts("profile") <==> config.model == Some("domain"))
    ensures r.Ok? && config.model == Some("host") ==>
      (r.value.tmpConfig == Some(TmpDomainXml) <==> "domain-config-name" !in config.props)
    ensures r.Ok? && config.model == Some("standalone") ==>
      r.value.logFile == config.props["config-name"] && r.value.tmpConfig.None?
    ensures r.Ok? && config.model == Some("domain") ==>
      r.value.logFile == config.props["domain-config-name"] && r.value.tmpConfig == Some(TmpHostXml)
    ensures r.Ok? && config.model == Some("host") ==> r.value.logFile == config.props["host-config-name"]
    ensures config.model == Some("standalone") && "config-name" !in config.props ==>
      r == Err(Missing(config, "config-name"))
    ensures config.model == Some("domain") && "domain-config-name" !in config.props ==>
      r == Err(Missing(config, "domain-config-name"))
    ensures config.model == Some("host") && "host-config-name" !in config.props ==>
      r == Err(Missing(config, "host-config-name"))
    ensures config.model !in {Some("standalone"), Some("domain"), Some("host")} ==>
      r == Err(Failure(ProvisioningException, "Unsupported config model " + NullText(config.model)))
  {
    if config.model == Some("standalone") then
      if "config-name" !in config.props then Err(Missing(config, "config-name"))
      else
        var logFile := config.props["config-name"];
        Ok(Setup(logFile, EmbedServer + logFile + " --jboss-home=" + stagedDir, StandaloneFilter, None))
    else if config.model == Some("domain") then
      if "domain-config-name" !in config.props then Err(Missing(config, "domain-config-name"))
      else
        var logFile := config.props["domain-config-name"];
        Ok(Setup(logFile, EmbedDomain + TmpHostXml + " --domain-config=" + logFile + " --jboss-home=" + stagedDir,
                 DomainFilter, Some(TmpHostXml)))
    else if config.model == Some("host") then
      if "host-config-name" !in config.props then Err(Missing(config, "host-config-name"))
      else
        var logFile := config.props["host-config-name"];
        var domain := if "domain-config-name" in config.props then " --domain-config=" + config.props["domain-config-name"]
                      else EmptyDomainConfig + TmpDomainXml;
        Ok(Setup(logFile, EmbedHost + logFile + domain + " --jboss-home=" + stagedDir, HostFilter,
                 if "domain-config-name" in config.props then None else Some(TmpDomainXml)))
    else Err(Failure(ProvisioningException, "Unsupported config model " + NullText(config.model)))
  }

  /**
   * Every embed command names the config file its model's property gives
   * (the same file the operations are written to) and ends with the
   * server's home directory.
   */
  lemma PreparedCommand(config: ProvisionedConfig, stagedDir: string)
    ensures var r := Prepared(config, stagedDir);
      r.Ok? ==>
        && (config.model == Some("standalone") ==>
              r.value.command == EmbedServer + config.props["config-name"] + " --jboss-home=" + stagedDir)
        && (config.model == Some("domain") ==>
              r.value.command == EmbedDomain + TmpHostXml + " --domain-config=" + config.props["domain-config-name"]
                                 + " --jboss-home=" + stagedDir)
        && (config.model == Some("host") && "domain-config-name" !in config.props ==>
              r.value.command == EmbedHost + config.props["host-config-name"] + EmptyDomainConfig + TmpDomainXml
                                 + " --jboss-home=" + stagedDir)
        && (config.model == Some("host") && "domain-config-name" in config.props ==>
              r.value.command == EmbedHost + config.props["host-config-name"] + " --domain-config="
                                 + config.props["domain-config-name"] + " --jboss-home=" + stagedDir)
  {
    var r := Prepared(config, stagedDir);
    if r.Ok? && config.model == Some("host") {
      var logFile := config.props["host-config-name"];
      if "domain-config-name" !in config.props {
        assert EmbedHost + logFile + (EmptyDomainConfig + TmpDomainXml) == EmbedHost + logFile + EmptyDomainConfig + TmpDomainXml;
      } else {
        var d := config.props["domain-config-name"];
        assert EmbedHost + logFile + (" --domain-config=" + d) == EmbedHost + logFile + " --domain-config=" + d;
      }
    }
  }

  // ---------------------------------------------------------------------------
  // One annotation of nextSpec

  /** The operation kind an annotation's name selects. */
  function OpKindOf(name: string): (k: OpKind)
    ensures k == WriteAttr <==> name == WriteAttributeName
    ensures k == ListAdd <==> name == ListAddName
  {
    if name == AddName then Op
    else if name == WriteAttributeName then WriteAttr
    else if name == ListAddName then ListAdd
    else Op
  }

  /** The operation an annotation leaves in its slot, and how often it took the skip path. */
  datatype StepResult = StepResult(state: OpState, skips: nat)

  /** The skip-if-filtered set: empty when the element is absent. */
  function SkipSet(text: Option<string>): Result<set<string>, SpecError> {
    match text
    case None => Ok({})
    case Some(t) =>
      match ParsedSet(t)
      case Err(e) => Err(NoteFailure(e))
      case Ok(s) => Ok(s)
  }

  /** Whether `name` is one of the parameter names (even positions) of the address pairs. */
  predicate InAddr(addr: seq<string>, name: string) {
    exists j | 0 <= j < |addr| :: j % 2 == 0 && addr[j] == name
  }

  /**
   * The loop over the spec's parameter names for `op-params` left undefined:
   * a name outside the address accepted by the filter is added twice (name and
   * mapped name); a rejected one in the skip set resets the operation and
   * counts a skip. After a reset the address is empty and the parameter list is
   * the immutable empty list, so a later accepted name throws.
   */
  function UndefinedLoop(names: seq<string>, k: nat, filter: NameFilter, skip: set<string>,
                         st: OpState, growable: bool, skips: nat): (r: Result<StepResult, SpecError>)
    requires k <= |names| && st.opParams.Some?
    ensures r.Ok? ==> r.value.skips >= skips
    ensures r.Ok? ==> r.value.state.opParams.Some?
    ensures r.Err? ==> r.error == UnsupportedAdd
    decreases |names| - k
  {
    if k == |names| then Ok(StepResult(st, skips))
    else
      var n := names[k];
      if InAddr(st.addrParams, n) then UndefinedLoop(names, k + 1, filter, skip, st, growable, skips)
      else if filter.Accepts(n) then
        if !growable then Err(UnsupportedAdd)
        else UndefinedLoop(names, k + 1, filter, skip, st.(opParams := Some(st.opParams.value + [n, n])), growable, skips)
      else if n in skip then UndefinedLoop(names, k + 1, filter, skip, ResetState, false, skips + 1)
      else UndefinedLoop(names, k + 1, filter, skip, st, growable, skips)
  }

  /**
   * The operation parameters when `op-params` is undefined. The list is sized
   * for the parameters outside the address, counted as all parameters less
   * half the address list; a negative count is refused by `ArrayList`.
   */
  function UndefinedParams(spec: FeatureSpec, filter: NameFilter, skip: set<string>, st: OpState)
    : Result<StepResult, SpecError>
  {
    var count := |spec.paramNames| - |st.addrParams| / 2;
    if spec.paramNames == [] || count == 0 then
      Ok(StepResult(st.(opParams := Some([])), 0))
    else if count < 0 then Err(NegativeCapacity(count * 2))
    else UndefinedLoop(spec.paramNames, 0, filter, skip, st.(opParams := Some([])), true, 0)
  }

  /** The operation parameters, then the check that `write-attribute` has exactly one pair. */
  function OpParamsStep(a: Annotation, spec: FeatureSpec, filter: NameFilter, skip: set<string>, st: OpState)
    : Result<StepResult, SpecError>
  {
    var text := a.opParams.GetOr(PmUndefined);
    var r :-
      if text == PmUndefined then UndefinedParams(spec, filter, skip, st)
      else
        match ParsedList(text, filter, skip, a.opParamsMapping)
        case Err(e) => Err(if e.SubstringOutOfRange? then NoteFailure(e) else EmptyOpParamName(text, spec.id))
        case Ok(l) => Ok(StepResult(st.(opParams := l), 0));
    if r.state.op == WriteAttr then
      if r.state.opParams.None? then Err(NullOpParams)
      else if |r.state.opParams.value| != 2 then Err(WriteAttrParams(spec.id, a))
      else Ok(r)
    else Ok(r)
  }

  /** One pass of the `nextSpec` loop: what annotation `a` leaves in its operation slot. */
  function AnnotationStep(a: Annotation, spec: FeatureSpec, filter: NameFilter): Result<StepResult, SpecError> {
    if a.line.Some? then Ok(StepResult(ResetState.(line := a.line), 0))
    else
      var st := ResetState.(name := Some(a.name), op := OpKindOf(a.name), addrPref := a.addrPref);
      var skip :- SkipSet(a.skipIfFiltered);
      if a.addrParams.None? then Err(MissingAddrParams(spec.id))
      else
        match ParsedList(a.addrParams.value, filter, skip, a.addrParamsMapping)
        case Err(e) => Err(if e.SubstringOutOfRange? then NoteFailure(e) else EmptyAddrParamName(a.addrParams.value, spec.id))
        case Ok(None) => Ok(StepResult(ResetState, 1))
        case Ok(Some(addr)) => OpParamsStep(a, spec, filter, skip, st.(addrParams := addr))
  }

  /**
   * Without `op-params` the parameter list is sized for the parameters outside
   * the address; a count below zero throws, a count of zero or a spec without
   * parameters gives the empty list, and the loop can only fail on `add`.
   */
  lemma UndefinedParamsOutcome(spec: FeatureSpec, filter: NameFilter, skip: set<string>, st: OpState)
    ensures var r := UndefinedParams(spec, filter, skip, st);
      && ((r.Err? && r.error.NegativeCapacity?) <==> spec.paramNames != [] && |spec.paramNames| < |st.addrParams| / 2)
      && (r.Err? ==> r.error.NegativeCapacity? || r.error == UnsupportedAdd)
      && ((spec.paramNames == [] || |spec.paramNames| == |st.addrParams| / 2) ==> r == Ok(StepResult(st.(opParams := Some([])), 0)))
      && (r.Ok? ==> r.value.state.opParams.Some?)
  {
  }

  /**
   * A kept `write-attribute` operation has exactly one parameter pair, an
   * explicit `op-params` never skips the annotation, and a negative list
   * size only arises without `op-params`.
   */
  lemma OpParamsStepOutcome(a: Annotation, spec: FeatureSpec, filter: NameFilter, skip: set<string>, st: OpState)
    ensures var r := OpParamsStep(a, spec, filter, skip, st);
      && (r.Ok? && r.value.state.op == WriteAttr ==> r.value.state.opParams.Some? && |r.value.state.opParams.value| == 2)
      && (r.Ok? && a.opParams.GetOr(PmUndefined) != PmUndefined ==> r.value.skips == 0)
      && ((r.Err? && r.error.NegativeCapacity?)
            ==> a.opParams.GetOr(PmUndefined) == PmUndefined && |spec.paramNames| < |st.addrParams| / 2)
  {
    UndefinedParamsOutcome(spec, filter, skip, st);
  }

  /**
   * An annotation with a line never fails and keeps the line; any kept
   * `write-attribute` operation has exactly one parameter pair.
   */
  lemma AnnotationStepOutcome(a: Annotation, spec: FeatureSpec, filter: NameFilter)
    ensures var r := AnnotationStep(a, spec, filter);
      && (a.line.Some? ==> r.Ok? && r.value.skips == 0 && r.value.state.line == a.line)
      && (r.Ok? && r.value.state.op == WriteAttr ==> r.value.state.opParams.Some? && |r.value.state.opParams.value| == 2)
  {
    if a.line.None? && SkipSet(a.skipIfFiltered).Ok? && a.addrParams.Some? {
      var skip := SkipSet(a.skipIfFiltered).value;
      var l := ParsedList(a.addrParams.value, filter, skip, a.addrParamsMapping);
      if l.Ok? && l.value.Some? {
        var st := ResetState.(name := Some(a.name), op := OpKindOf(a.name), addrPref := a.addrPref, addrParams := l.value.value);
        OpParamsStepOutcome(a, spec, filter, skip, st);
      }
    }
  }

  /** An annotation without a line, with a valid skip set and without `addr-params` throws. */
  lemma MissingAddrParamsFails(a: Annotation, spec: FeatureSpec, filter: NameFilter)
    requires a.line.None? && a.addrParams.None? && SkipSet(a.skipIfFiltered).Ok?
    ensures AnnotationStep(a, spec, filter) == Err(MissingAddrParams(spec.id))
  {
  }

  /** A `write-attribute` operation that is kept has exactly one (name, mapped name) pair of operation parameters. */
  lemma WriteAttributeOnePair(a: Annotation, spec: FeatureSpec, filter: NameFilter)
    requires a.line.None? && a.name == WriteAttributeName
    ensures var r := AnnotationStep(a, spec, filter);
      r.Ok? && r.value.skips == 0 ==> r.value.state.opParams.Some? && |r.value.state.opParams.value| == 2
  {
    var r := AnnotationStep(a, spec, filter);
    if r.Ok? && r.value.skips == 0 {
      var skip := SkipSet(a.skipIfFiltered).value;
      var addr := ParsedList(a.addrParams.value, filter, skip, a.addrParamsMapping).value.value;
      var st := ResetState.(name := Some(a.name), op := OpKindOf(a.name), addrPref := a.addrPref, addrParams := addr);
      var text := a.opParams.GetOr(PmUndefined);
      if text == PmUndefined && spec.paramNames != [] && |spec.paramNames| - |addr| / 2 > 0 {
        var u := UndefinedLoop(spec.paramNames, 0, filter, skip, st.(opParams := Some([])), true, 0);
        UndefinedLoopKeeps(spec.paramNames, 0, filter, skip, st.(opParams := Some([])), true, 0);
      }
    }
  }

  /** Without a skip, the undefined-parameters loop keeps the operation kind. */
  lemma {:induction false} UndefinedLoopKeeps(names: seq<string>, k: nat, filter: NameFilter, skip: set<string>,
                                              st: OpState, growable: bool, skips: nat)
    requires k <= |names| && st.opParams.Some?
    ensures var r := UndefinedLoop(names, k, filter, skip, st, growable, skips);
      r.Ok? && r.value.skips == skips ==> r.value.state.op == st.op
    decreases |names| - k
  {
    if k < |names| {
      var n := names[k];
      if InAddr(st.addrParams, n) {
        UndefinedLoopKeeps(names, k + 1, filter, skip, st, growable, skips);
      } else if filter.Accepts(n) {
        if growable {
          UndefinedLoopKeeps(names, k + 1, filter, skip, st.(opParams := Some(st.opParams.value + [n, n])), growable, skips);
        }
      } else if n !in skip {
        UndefinedLoopKeeps(names, k + 1, filter, skip, st, growable, skips);
      }
    }
  }

  // ---------------------------------------------------------------------------
  // The nextSpec loop

  /**
   * The `nextSpec` loop from index `i` with `total` operations: each pass
   * translates annotation `i` into slot `i`; every skip decrements both the
   * total and the index, so the next pass reads the same annotation again.
   */
  function SpecLoop(anns: seq<Annotation>, spec: FeatureSpec, filter: NameFilter, i: int, total: int,
                    states: seq<OpState>): (r: Result<(int, seq<OpState>), SpecError>)
    requires total <= |anns| && total <= |states|
    ensures r.Ok? ==> |r.value.1| == |states| && r.value.0 <= total
    decreases total - i
  {
    if i >= total then Ok((total, states))
    else if i < 0 then Err(AnnotationIndex(i))
    else
      match AnnotationStep(anns[i], spec, filter)
      case Err(e) => Err(e)
      case Ok(step) =>
        SpecLoop(anns, spec, filter, i + 1 - step.skips, total - step.skips, states[i := step.state])
  }

  /** The `nextSpec` loop ends once the index reaches the number of operations. */
  lemma SpecLoopEnds(anns: seq<Annotation>, spec: FeatureSpec, filter: NameFilter, i: int, total: int, states: seq<OpState>)
    requires total <= i && total <= |anns| && total <= |states|
    ensures SpecLoop(anns, spec, filter, i, total, states) == Ok((total, states))
  {
  }

  /** One pass of the `nextSpec` loop at a valid index. */
  lemma SpecLoopUnfold(anns: seq<Annotation>, spec: FeatureSpec, filter: NameFilter, i: nat, total: int, states: seq<OpState>)
    requires i < total <= |anns| && total <= |states|
    ensures var e := AnnotationStep(anns[i], spec, filter);
      SpecLoop(anns, spec, filter, i, total, states) ==
        if e.Err? then Err(e.error)
        else SpecLoop(anns, spec, filter, i + 1 - e.value.skips, total - e.value.skips, states[i := e.value.state])
  {
  }

  /** The `ops` slots after growing to `total`: the old ones, then new operations. */
  function Grown(states: seq<OpState>, total: nat): (r: seq<OpState>)
    ensures |r| == if |states| < total then total else |states|
    ensures r[..|states|] == states
  {
    if |states| < total then states + seq(total - |states|, _ => ResetState) else states
  }

  /** What `nextSpec` computes from the operation slots: the number of operations and the new slots. */
  function NextSpecResult(states: seq<OpState>, spec: FeatureSpec, filter: NameFilter): Result<(int, seq<OpState>), SpecError>
    requires |states| >= 1
  {
    var anns := spec.annotations;
    if anns == [] then Ok((0, states))
    else
      var grown := if |anns| > 1 then Grown(states, |anns|) else states;
      SpecLoop(anns, spec, filter, 0, |anns|, grown)
  }

  /** When no annotation is skipped, every annotation fills its own slot and all of them are operations. */
  lemma {:induction false} SpecLoopNoSkips(anns: seq<Annotation>, spec: FeatureSpec, filter: NameFilter, i: nat, total: nat,
                                           states: seq<OpState>)
    requires i <= total <= |anns| && total <= |states|
    requires forall k :: i <= k < total ==> AnnotationStep(anns[k], spec, filter).Ok?
    requires forall k :: i <= k < total ==> AnnotationStep(anns[k], spec, filter).value.skips == 0
    ensures var r := SpecLoop(anns, spec, filter, i, total, states);
      && r.Ok? && r.value.0 == total && |r.value.1| == |states|
      && (forall k :: 0 <= k < i || total <= k < |states| ==> r.value.1[k] == states[k])
      && (forall k :: i <= k < total ==> r.value.1[k] == AnnotationStep(anns[k], spec, filter).value.state)
    decreases total - i
  {
    if i < total {
      var step := AnnotationStep(anns[i], spec, filter).value;
      SpecLoopUnfold(anns, spec, filter, i, total, states);
      SpecLoopNoSkips(anns, spec, filter, i + 1, total, states[i := step.state]);
    }
  }

  /**
   * Once an annotation is skipped because of its address, the same annotation
   * is read again and skipped again until the total reaches its index: the
   * annotation and all the ones after it are dropped.
   */
  lemma {:induction false} SpecLoopSkipDropsRest(anns: seq<Annotation>, spec: FeatureSpec, filter: NameFilter, i: nat,
                                                 total: int, states: seq<OpState>)
    requires i < total <= |anns| && total <= |states|
    requires AnnotationStep(anns[i], spec, filter) == Ok(StepResult(ResetState, 1))
    ensures SpecLoop(anns, spec, filter, i, total, states) == Ok((i, states[i := ResetState]))
    decreases total - i
  {
    if i + 1 < total {
      SpecLoopSkipDropsRest(anns, spec, filter, i, total - 1, states[i := ResetState]);
      assert states[i := ResetState][i := ResetState] == states[i := ResetState];
    }
  }

  // ---------------------------------------------------------------------------
  // nextFeature

  /** The lines `nextFeature` writes for the first `n` operations, and the failure that stops it. */
  function FeatureLines(states: seq<OpState>, feature: map<string, string>, n: nat): (r: (seq<string>, Option<CommandError>))
    requires n <= |states|
    ensures |r.0| <= n
    ensures r.1.None? ==> |r.0| == n
  {
    if n == 0 then ([], None)
    else
      var before := FeatureLines(states, feature, n - 1);
      if before.1.Some? then before
      else
        match CommandLine(states[n - 1], feature)
        case Err(e) => (before.0, Some(e))
        case Ok(line) => (before.0 + [line], None)
  }

  // ---------------------------------------------------------------------------
  // The handler

  function StatesOf(a: seq<ManagedOp>): (r: seq<OpState>)
    reads a
    ensures |r| == |a|
    ensures forall k :: 0 <= k < |a| ==> r[k] == a[k].State()
  {
    seq(|a|, k requires 0 <= k < |a| reads a => a[k].State())
  }

  class Handler {
    var opsTotal: int
    var ops: array<ManagedOp>
    var paramFilter: Option<NameFilter>
    var tmpConfig: Option<string>
    var script: Option<string>
    var opsFile: seq<string>
    const stagedDir: string

    ghost predicate Valid()
      reads this, ops
    {
      && ops.Length >= 1
      && opsTotal <= ops.Length
      && Distinct(ops[..])
    }

    function States(): seq<OpState>
      reads this`ops, ops, ops[..]
    {
      StatesOf(ops[..])
    }

    constructor(stagedDir: string)
      ensures Valid() && fresh(ops)
      ensures this.stagedDir == stagedDir && opsTotal == 0 && States() == [ResetState]
      ensures paramFilter.None? && tmpConfig.None? && script.None? && opsFile == []
    {
      this.stagedDir := stagedDir;
      opsTotal := 0;
      var first := new ManagedOp();
      var slots := ArrayOf([first]);
      ops := slots;
      paramFilter, tmpConfig, script, opsFile := None, None, None, [];
      assert StatesOf([first]) == [ResetState];
    }

    method Prepare(config: ProvisionedConfig) returns (r: Result<(), Failure>)
      modifies this
      ensures var p := Prepared(config, stagedDir);
        && (r.Ok? <==> p.Ok?)
        && (p.Err? ==> r == Err(p.error) && opsFile == old(opsFile) && paramFilter == old(paramFilter)
                       && tmpConfig == old(tmpConfig) && script == old(script))
        && (p.Ok? ==> opsFile == [p.value.command] && script == Some(p.value.logFile)
                      && paramFilter == Some(p.value.filter)
                      && tmpConfig == (if p.value.tmpConfig.Some? then p.value.tmpConfig else old(tmpConfig)))
      ensures ops == old(ops) && opsTotal == old(opsTotal)
    {
      var setup :- Prepared(config, stagedDir);
      if setup.tmpConfig.Some? {
        tmpConfig := setup.tmpConfig;
      }
      script := Some(setup.logFile);
      opsFile := [setup.command];
      paramFilter := Some(setup.filter);
      return Ok(());
    }

    /** Grows `ops` to `n` slots, copying the old operations and adding new ones. */
    method Grow(n: nat)
      requires Valid() && n > ops.Length
      modifies this
      ensures Valid() && fresh(ops) && ops.Length == n
      ensures forall k :: 0 <= k < old(ops.Length) ==> ops[k] == old(ops[k])
      ensures forall k :: old(ops.Length) <= k < n ==> fresh(ops[k])
      ensures States() == Grown(old(States()), n)
      ensures opsTotal == old(opsTotal) && paramFilter == old(paramFilter) && opsFile == old(opsFile)
    {
      ghost var before := States();
      var prior := ops[..];
      var extra := NewOps(n - ops.Length);
      assert StatesOf(prior) == before;
      forall k | 0 <= k < |extra|
        ensures extra[k] !in prior
      {
      }
      DistinctAppend(prior, extra);
      GrownStates(prior, extra);
      var elems := prior + extra;
      ops := ArrayOf(elems);
    }

    method NextSpec(spec: FeatureSpec) returns (r: Result<(), SpecError>)
      requires Valid() && paramFilter.Some? && Distinct(spec.paramNames)
      modifies this, set k | 0 <= k < ops.Length :: ops[k]
      ensures Valid()
      ensures var e := NextSpecResult(old(States()), spec, old(paramFilter).value);
        && (r.Ok? <==> e.Ok?)
        && (e.Err? ==> r == Err(e.error))
        && (e.Ok? ==> opsTotal == e.value.0 && States() == e.value.1)
      ensures ops.Length >= old(ops.Length) && forall k :: 0 <= k < old(ops.Length) ==> ops[k] == old(ops[k])
      ensures |spec.annotations| > 1 ==> ops.Length >= |spec.annotations|
      ensures paramFilter == old(paramFilter) && opsFile == old(opsFile)
    {
      var filter := paramFilter.value;
      var anns := spec.annotations;
      if anns == [] {
        opsTotal := 0;
        return Ok(());
      }
      if |anns| > 1 && ops.Length < |anns| {
        Grow(|anns|);
      }
      opsTotal := |anns|;
      var translated := TranslateAll(ops[..], spec, filter);
      if translated.Err? {
        return Err(translated.error);
      }
      opsTotal := translated.value;
      return Ok(());
    }

    method NextFeature(feature: map<string, string>) returns (r: Option<CommandError>)
      requires Valid()
      modifies this`opsFile
      ensures Valid()
      ensures var n := if opsTotal < 0 then 0 else opsTotal;
        var out := FeatureLines(States(), feature, n);
        opsFile == old(opsFile) + out.0 && r == out.1
    {
      var lines;
      lines, r := CommandLines(ops[..], opsTotal, feature);
      opsFile := opsFile + lines;
    }
  }

  /**
   * The loop of `nextSpec` over the operation slots `mops`: slot `i` is
   * filled from annotation `i`, and each skip steps both the index and the
   * number of operations back by one.
   */
  method TranslateAll(mops: seq<ManagedOp>, spec: FeatureSpec, filter: NameFilter) returns (r: Result<int, SpecError>)
    requires Distinct(mops) && |spec.annotations| <= |mops|
    modifies mops
    ensures var e := SpecLoop(spec.annotations, spec, filter, 0, |spec.annotations|, old(StatesOf(mops)));
      && (r.Ok? <==> e.Ok?)
      && (e.Err? ==> r == Err(e.error))
      && (e.Ok? ==> r.value == e.value.0 && StatesOf(mops) == e.value.1)
  {
    var anns := spec.annotations;
    var opsTotal := |anns|;
    var i := 0;
    ghost var expected := SpecLoop(anns, spec, filter, 0, opsTotal, StatesOf(mops));
    while i < opsTotal
      invariant opsTotal <= |anns|
      invariant expected == SpecLoop(anns, spec, filter, i, opsTotal, StatesOf(mops))
      decreases opsTotal - i
    {
      var skips := TranslateNext(mops, spec, filter, i, opsTotal);
      if skips.Err? {
        return Err(skips.error);
      }
      opsTotal := opsTotal - skips.value;
      i := i + 1 - skips.value;
    }
    SpecLoopEnds(anns, spec, filter, i, opsTotal, StatesOf(mops));
    return Ok(opsTotal);
  }

  /**
   * One pass of the `nextSpec` loop at index `i` of `total`: the slot is
   * filled, and the index and the total move back by the number of skips.
   */
  method TranslateNext(mops: seq<ManagedOp>, spec: FeatureSpec, filter: NameFilter, i: int, total: int)
    returns (r: Result<nat, SpecError>)
    requires Distinct(mops) && |spec.annotations| <= |mops| && i < total <= |spec.annotations|
    modifies mops
    ensures var e := SpecLoop(spec.annotations, spec, filter, i, total, old(StatesOf(mops)));
      && (r.Err? ==> e == Err(r.error))
      && (r.Ok? ==> e == SpecLoop(spec.annotations, spec, filter, i + 1 - r.value, total - r.value, StatesOf(mops)))
  {
    if i < 0 {
      return Err(AnnotationIndex(i));
    }
    ghost var before := StatesOf(mops);
    r := TranslateSlot(mops, i, spec.annotations[i], spec, filter);
    SpecLoopUnfold(spec.annotations, spec, filter, i, total, before);
  }

  /** Fills slot `i` of `mops` from annotation `a`; the other slots are unchanged. */
  method TranslateSlot(mops: seq<ManagedOp>, i: nat, a: Annotation, spec: FeatureSpec, filter: NameFilter)
    returns (r: Result<nat, SpecError>)
    requires Distinct(mops) && i < |mops|
    modifies mops[i]
    ensures var e := AnnotationStep(a, spec, filter);
      && (r.Ok? <==> e.Ok?)
      && (e.Err? ==> r == Err(e.error))
      && (e.Ok? ==> r.value == e.value.skips && StatesOf(mops) == old(StatesOf(mops))[i := e.value.state])
  {
    ghost var before := StatesOf(mops);
    r := Translate(mops[i], a, spec, filter);
    assert StatesOf(mops) == before[i := mops[i].State()];
  }

  /** The loop of `nextFeature`: the command line of each of the first `total` operations, up to the first failure. */
  method CommandLines(mops: seq<ManagedOp>, total: int, feature: map<string, string>) returns (lines: seq<string>, err: Option<CommandError>)
    requires total <= |mops|
    ensures (lines, err) == FeatureLines(StatesOf(mops), feature, if total < 0 then 0 else total)
  {
    ghost var states := StatesOf(mops);
    ghost var n := if total < 0 then 0 else total;
    lines := [];
    var i := 0;
    while i < total
      invariant 0 <= i <= n
      invariant FeatureLines(states, feature, i) == (lines, None)
    {
      var line := mops[i].ToCommandLine(feature);
      if line.Err? {
        FeatureLinesStop(states, feature, i + 1, n);
        return lines, Some(line.error);
      }
      lines := lines + [line.value];
      i := i + 1;
    }
    return lines, None;
  }

  /**
   * Line `k` written for a feature is the command line of operation `k`, and
   * a failure is the failure of the operation right after the written lines.
   */
  lemma {:induction false} FeatureLinesAreCommandLines(states: seq<OpState>, feature: map<string, string>, n: nat)
    requires n <= |states|
    ensures var r := FeatureLines(states, feature, n);
      && (forall k :: 0 <= k < |r.0| ==> CommandLine(states[k], feature) == Ok(r.0[k]))
      && (r.1.Some? ==> |r.0| < n && CommandLine(states[|r.0|], feature) == Err(r.1.value))
  {
    if n > 0 {
      FeatureLinesAreCommandLines(states, feature, n - 1);
    }
  }

  /** Once a line fails, `nextFeature` writes nothing more. */
  lemma {:induction false} FeatureLinesStop(states: seq<OpState>, feature: map<string, string>, m: nat, n: nat)
    requires m <= n <= |states|
    requires FeatureLines(states, feature, m).1.Some?
    ensures FeatureLines(states, feature, n) == FeatureLines(states, feature, m)
    decreases n - m
  {
    if m < n {
      FeatureLinesStop(states, feature, m, n - 1);
    }
  }

  /** The slots of `prior` followed by reset operations are the grown slots of `prior`. */
  lemma GrownStates(prior: seq<ManagedOp>, extra: seq<ManagedOp>)
    requires forall k :: 0 <= k < |extra| ==> extra[k].State() == ResetState
    ensures StatesOf(prior + extra) == Grown(StatesOf(prior), |prior| + |extra|)
  {
    var g := Grown(StatesOf(prior), |prior| + |extra|);
    forall k | 0 <= k < |prior| + |extra|
      ensures StatesOf(prior + extra)[k] == g[k]
    {
      if k < |prior| {
        assert g[k] == g[..|prior|][k];
      }
    }
  }

  lemma DistinctAppend<T>(a: seq<T>, b: seq<T>)
    requires Distinct(a) && Distinct(b)
    requires forall k :: 0 <= k < |b| ==> b[k] !in a
    ensures Distinct(a + b)
  {
  }

  /** A new array holding `elems`. */
  method ArrayOf(elems: seq<ManagedOp>) returns (a: array<ManagedOp>)
    ensures fresh(a) && a[..] == elems
  {
    a := new ManagedOp[|elems|](k requires 0 <= k < |elems| => elems[k]);
  }

  /** `count` new operations, each distinct and reset. */
  method NewOps(count: nat) returns (a: seq<ManagedOp>)
    ensures |a| == count
    ensures forall k :: 0 <= k < count ==> fresh(a[k]) && a[k].State() == ResetState
    ensures Distinct(a)
  {
    a := [];
    while |a| < count
      invariant |a| <= count
      invariant forall k :: 0 <= k < |a| ==> fresh(a[k]) && a[k].State() == ResetState
      invariant forall i, j :: 0 <= i < j < |a| ==> a[i] != a[j]
    {
      var mop := new ManagedOp();
      a := a + [mop];
    }
  }

  /**
   * One pass of the `nextSpec` loop body on the operation `mop`: reset it,
   * then fill it from annotation `a`; the result is the number of skips.
   */
  method Translate(mop: ManagedOp, a: Annotation, spec: FeatureSpec, filter: NameFilter) returns (r: Result<nat, SpecError>)
    modifies mop
    ensures var e := AnnotationStep(a, spec, filter);
      && (r.Ok? <==> e.Ok?)
      && (e.Err? ==> r == Err(e.error))
      && (e.Ok? ==> r.value == e.value.skips && mop.State() == e.value.state)
  {
    mop.Reset();
    mop.line := a.line;
    if mop.line.Some? {
      return Ok(0);
    }
    mop.name := Some(a.name);
    if a.name == AddName {
      mop.op := Op;
    } else if a.name == WriteAttributeName {
      mop.op := WriteAttr;
    } else if a.name == ListAddName {
      mop.op := ListAdd;
    } else {
      mop.op := Op;
    }
    mop.addrPref := a.addrPref;
    var skipIfFiltered: set<string> := {};
    if a.skipIfFiltered.Some? {
      var parsed := ParseSet(a.skipIfFiltered.value);
      if parsed.Err? {
        return Err(NoteFailure(parsed.error));
      }
      skipIfFiltered := parsed.value;
    }
    if a.addrParams.None? {
      return Err(MissingAddrParams(spec.id));
    }
    var elemValue := a.addrParams.value;
    var addr := ParseList(elemValue, filter, skipIfFiltered, a.addrParamsMapping);
    if addr.Err? {
      return Err(if addr.error.SubstringOutOfRange? then NoteFailure(addr.error) else EmptyAddrParamName(elemValue, spec.id));
    }
    if addr.value.None? {
      mop.Reset();
      return Ok(1);
    }
    mop.addrParams := addr.value.value;
    var skips := TranslateOpParams(mop, a, spec, filter, skipIfFiltered);
    return skips;
  }

  /** The operation parameters of `mop` and the `write-attribute` check. */
  method TranslateOpParams(mop: ManagedOp, a: Annotation, spec: FeatureSpec, filter: NameFilter, skip: set<string>)
    returns (r: Result<nat, SpecError>)
    modifies mop
    ensures var e := OpParamsStep(a, spec, filter, skip, old(mop.State()));
      && (r.Ok? <==> e.Ok?)
      && (e.Err? ==> r == Err(e.error))
      && (e.Ok? ==> r.value == e.value.skips && mop.State() == e.value.state)
  {
    var skips := 0;
    var elemValue := if a.opParams.Some? then a.opParams.value else PmUndefined;
    if elemValue == PmUndefined {
      var count := |spec.paramNames| - |mop.addrParams| / 2;
      if spec.paramNames != [] && count != 0 {
        if count < 0 {
          return Err(NegativeCapacity(count * 2));
        }
        mop.opParams := Some([]);
        var filled := FillUndefined(mop, spec.paramNames, filter, skip);
        if filled.Err? {
          return Err(filled.error);
        }
        skips := filled.value;
      } else {
        mop.opParams := Some([]);
      }
    } else {
      var parsed := ParseList(elemValue, filter, skip, a.opParamsMapping);
      if parsed.Err? {
        return Err(if parsed.error.SubstringOutOfRange? then NoteFailure(parsed.error) else EmptyOpParamName(elemValue, spec.id));
      }
      mop.opParams := parsed.value;
    }
    if mop.op == WriteAttr {
      if mop.opParams.None? {
        return Err(NullOpParams);
      }
      if |mop.opParams.value| != 2 {
        return Err(WriteAttrParams(spec.id, a));
      }
    }
    return Ok(skips);
  }

  /** The `for` loop over the spec's parameter names when `op-params` is undefined. */
  method FillUndefined(mop: ManagedOp, names: seq<string>, filter: NameFilter, skip: set<string>) returns (r: Result<nat, SpecError>)
    requires mop.opParams.Some?
    modifies mop
    ensures var e := UndefinedLoop(names, 0, filter, skip, old(mop.State()), true, 0);
      && (r.Ok? <==> e.Ok?)
      && (e.Err? ==> r == Err(e.error))
      && (e.Ok? ==> r.value == e.value.skips && mop.State() == e.value.state)
  {
    var growable := true;
    var skips := 0;
    ghost var expected := UndefinedLoop(names, 0, filter, skip, mop.State(), true, 0);
    for k := 0 to |names|
      invariant mop.opParams.Some?
      invariant expected == UndefinedLoop(names, k, filter, skip, mop.State(), growable, skips)
    {
      var paramName := names[k];
      var inAddr := false;
      var j := 0;
      while !inAddr && j < |mop.addrParams|
        invariant j % 2 == 0 && j >= 0
        invariant inAddr ==> InAddr(mop.addrParams, paramName)
        invariant !inAddr ==> forall j' :: 0 <= j' < j && j' < |mop.addrParams| && j' % 2 == 0 ==> mop.addrParams[j'] != paramName
        decreases |mop.addrParams| - j, !inAddr
      {
        if mop.addrParams[j] == paramName {
          inAddr := true;
        }
        j := j + 2;
      }
      if !inAddr {
        if filter.Accepts(paramName) {
          if !growable {
            return Err(UnsupportedAdd);
          }
          ghost var before := mop.opParams.value;
          mop.opParams := Some(mop.opParams.value + [paramName]);
          mop.opParams := Some(mop.opParams.value + [paramName]);
          assert mop.opParams.value == before + [paramName, paramName];
        } else if paramName in skip {
          mop.Reset();
          growable := false;
          skips := skips + 1;
        }
      }
    }
    return Ok(skips);
  }
}
