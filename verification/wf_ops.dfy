/**
 * One CLI operation of the WildFly configuration handler (`ManagedOp`): its
 * fields, `reset`, and `toCommandLine`, which renders the operation for one
 * provisioned feature as a CLI command line.
 *
 * The address and operation parameters are flat lists of (parameter name,
 * mapped name) pairs as `parseList` produces them. A feature is the map from
 * its parameter names to their values; a name without a value is Java's
 * `null` from `getParam`.
 */
module WfOps {
  import opened Base

  /** The operation kinds `OP`, `WRITE_ATTR` and `LIST_ADD`. */
  datatype OpKind = Op | WriteAttr | ListAdd

  /** The fields of a `ManagedOp`; `opParams` can be `null` after `parseList` returned `null` for it. */
  datatype OpState = OpState(line: Option<string>, addrPref: Option<string>, name: Option<string>,
                             addrParams: seq<string>, opParams: Option<seq<string>>, op: OpKind)

  /** The fields after `reset()` (and of a new `ManagedOp`): no line, prefix or name, empty lists, `OP`. */
  const ResetState: OpState := OpState(None, None, None, [], Some([]), Op)

  /** Why rendering an operation fails. */
  datatype CommandError =
    | NullParam(param: string)   // `<param> parameter is null: <feature>`
    | IndexOutOfRange            // a list read past its end
    | NullList                   // `opParams` is `null`
  {
    function Kind(): Exception {
      match this
      case NullParam(_) => ProvisioningDescriptionException
      case IndexOutOfRange => IndexOutOfBoundsException
      case NullList => NullPointerException
    }
  }

  // ---------------------------------------------------------------------------
  // The loops of toCommandLine, as written

  /**
   * The address loop from index `i` with `buf` written so far: a parameter
   * with a value appends `/<mapped name>=<value>` and moves past the pair; a
   * parameter without one moves on by a single index, so the next lookup is
   * of the mapped name.
   */
  function AddrLoop(params: seq<string>, feature: map<string, string>, i: nat, buf: string): (r: Result<string, CommandError>)
    ensures r.Ok? ==> buf <= r.value
    decreases |params| - i
  {
    if i >= |params| then Ok(buf)
    else if params[i] !in feature then AddrLoop(params, feature, i + 1, buf)
    else if i + 1 >= |params| then Err(IndexOutOfRange)
    else AddrLoop(params, feature, i + 2, buf + "/" + params[i + 1] + "=" + feature[params[i]])
  }

  /**
   * The operation-parameter loop of `OP`, with the same single step past a
   * parameter without a value; `comma` records whether `(` was written.
   */
  function OpLoop(params: seq<string>, feature: map<string, string>, i: nat, comma: bool, buf: string)
    : (r: Result<string, CommandError>)
    ensures r.Ok? ==> buf <= r.value
    decreases |params| - i
  {
    if i >= |params| then Ok(if comma then buf + ")" else buf)
    else if params[i] !in feature then OpLoop(params, feature, i + 1, comma, buf)
    else if i + 1 >= |params| then Err(IndexOutOfRange)
    else OpLoop(params, feature, i + 2, true, buf + (if comma then "," else "(") + params[i + 1] + "=" + feature[params[i]])
  }

  /** What the `switch (op)` appends to `buf`. */
  function Suffix(s: OpState, feature: map<string, string>, buf: string): (r: Result<string, CommandError>)
    ensures r.Ok? ==> buf <= r.value
  {
    match s.opParams
    case None => Err(NullList)
    case Some(params) =>
      if s.op == Op then
        if params == [] then Ok(buf) else OpLoop(params, feature, 0, false, buf)
      else if |params| == 0 then Err(IndexOutOfRange)
      else if params[0] !in feature then Err(NullParam(params[0]))
      else if |params| < 2 then Err(IndexOutOfRange)
      else Ok(buf + "(name=" + params[1] + ",value=" + feature[params[0]] + ")")
  }

  /** `toCommandLine`: the preset line, or prefix, address, `:name` and the suffix. */
  function CommandLine(s: OpState, feature: map<string, string>): (r: Result<string, CommandError>)
    ensures s.line.Some? ==> r == Ok(s.line.value)
    ensures s.line.None? && r.Ok? ==> s.addrPref.GetOr("") <= r.value
  {
    if s.line.Some? then Ok(s.line.value)
    else
      var addr :- AddrLoop(s.addrParams, feature, 0, s.addrPref.GetOr(""));
      Suffix(s, feature, addr + ":" + NullText(s.name))
  }

  // ---------------------------------------------------------------------------
  // The operation object

  class ManagedOp {
    var line: Option<string>
    var addrPref: Option<string>
    var name: Option<string>
    var addrParams: seq<string>
    var opParams: Option<seq<string>>
    var op: OpKind

    function State(): OpState
      reads this
    {
      OpState(line, addrPref, name, addrParams, opParams, op)
    }

    constructor()
      ensures State() == ResetState
    {
      line, addrPref, name := None, None, None;
      addrParams, opParams, op := [], Some([]), Op;
    }

    method Reset()
      modifies this
      ensures State() == ResetState
    {
      line := None;
      addrPref := None;
      name := None;
      addrParams := [];
      opParams := Some([]);
      op := Op;
    }

    method ToCommandLine(feature: map<string, string>) returns (r: Result<string, CommandError>)
      ensures r == CommandLine(State(), feature)
    {
      if line.Some? {
        return Ok(line.value);
      }
      var buf := if addrPref.Some? then addrPref.value else "";
      ghost var expected := AddrLoop(addrParams, feature, 0, buf);
      var i := 0;
      while i < |addrParams|
        invariant 0 <= i <= |addrParams|
        invariant expected == AddrLoop(addrParams, feature, i, buf)
        decreases |addrParams| - i
      {
        var key := addrParams[i];
        i := i + 1;
        if key !in feature {
          continue;
        }
        if i >= |addrParams| {
          return Err(IndexOutOfRange);
        }
        buf := buf + "/" + addrParams[i] + "=" + feature[key];
        i := i + 1;
      }
      buf := buf + ":" + NullText(name);
      r := AppendSuffix(feature, buf);
    }

    /** The `switch (op)` of `toCommandLine`. */
    method AppendSuffix(feature: map<string, string>, buf: string) returns (r: Result<string, CommandError>)
      ensures r == Suffix(State(), feature, buf)
    {
      if opParams.None? {
        return Err(NullList);
      }
      var params := opParams.value;
      if op == Op {
        if params == [] {
          return Ok(buf);
        }
        var out := buf;
        var comma := false;
        var i := 0;
        ghost var expected := OpLoop(params, feature, 0, false, buf);
        while i < |params|
          invariant 0 <= i <= |params|
          invariant expected == OpLoop(params, feature, i, comma, out)
          decreases |params| - i
        {
          var key := params[i];
          i := i + 1;
          if key !in feature {
            continue;
          }
          if comma {
            out := out + ",";
          } else {
            comma := true;
            out := out + "(";
          }
          if i >= |params| {
            return Err(IndexOutOfRange);
          }
          out := out + params[i] + "=" + feature[key];
          i := i + 1;
        }
        if comma {
          out := out + ")";
        }
        return Ok(out);
      }
      if |params| == 0 {
        return Err(IndexOutOfRange);
      }
      if params[0] !in feature {
        return Err(NullParam(params[0]));
      }
      if |params| < 2 {
        return Err(IndexOutOfRange);
      }
      return Ok(buf + "(name=" + params[1] + ",value=" + feature[params[0]] + ")");
    }
  }

  // ---------------------------------------------------------------------------
  // What the lines mean for lists of (name, mapped name) pairs

  /** A list of pairs laid out flat, as `parseList` returns it. */
  function Flatten(pairs: seq<(string, string)>): (r: seq<string>)
    ensures |r| == 2 * |pairs|
    ensures forall k :: 0 <= k < |pairs| ==> r[2 * k] == pairs[k].0 && r[2 * k + 1] == pairs[k].1
  {
    if pairs == [] then [] else [pairs[0].0, pairs[0].1] + Flatten(pairs[1..])
  }

  predicate AllValued(pairs: seq<(string, string)>, feature: map<string, string>) {
    forall k :: 0 <= k < |pairs| ==> pairs[k].0 in feature
  }

  /** The address of a feature: `/<mapped name>=<value>` for every pair. */
  function AddressText(pairs: seq<(string, string)>, feature: map<string, string>): string
    requires AllValued(pairs, feature)
  {
    if pairs == [] then "" else AddressPart(pairs[0], feature) + AddressText(pairs[1..], feature)
  }

  /** One address element `/<mapped name>=<value>`. */
  function AddressPart(p: (string, string), feature: map<string, string>): string
    requires p.0 in feature
  {
    "/" + p.1 + "=" + feature[p.0]
  }

  /** One argument `<mapped name>=<value>`. */
  function Argument(p: (string, string), feature: map<string, string>): string
    requires p.0 in feature
  {
    p.1 + "=" + feature[p.0]
  }

  /** The arguments, each preceded by a comma. */
  function MoreArguments(pairs: seq<(string, string)>, feature: map<string, string>): string
    requires AllValued(pairs, feature)
  {
    if pairs == [] then "" else "," + Argument(pairs[0], feature) + MoreArguments(pairs[1..], feature)
  }

  /** The arguments separated by commas. */
  function Arguments(pairs: seq<(string, string)>, feature: map<string, string>): string
    requires pairs != [] && AllValued(pairs, feature)
  {
    Argument(pairs[0], feature) + MoreArguments(pairs[1..], feature)
  }

  /** With every parameter valued, the address loop writes the address of every pair. */
  lemma {:induction false} AddrLoopPairs(pairs: seq<(string, string)>, feature: map<string, string>, k: nat, buf: string)
    requires k <= |pairs| && AllValued(pairs, feature)
    ensures AddrLoop(Flatten(pairs), feature, 2 * k, buf) == Ok(buf + AddressText(pairs[k..], feature))
    decreases |pairs| - k
  {
    var params := Flatten(pairs);
    if k == |pairs| {
      assert pairs[k..] == [];
      assert buf + "" == buf;
    } else {
      var step := AddressPart(pairs[k], feature);
      var rest := AddressText(pairs[k + 1..], feature);
      assert params[2 * k] == pairs[k].0 && params[2 * k + 1] == pairs[k].1;
      AddrLoopValued(params, feature, 2 * k, buf);
      assert buf + "/" + pairs[k].1 + "=" + feature[pairs[k].0] == buf + step;
      AddrLoopPairs(pairs, feature, k + 1, buf + step);
      assert pairs[k..][1..] == pairs[k + 1..];
      assert AddressText(pairs[k..], feature) == step + rest;
      assert buf + step + rest == buf + (step + rest);
    }
  }

  /** A valued parameter with a mapped name after it writes one address element and moves past both. */
  lemma AddrLoopValued(params: seq<string>, feature: map<string, string>, i: nat, buf: string)
    requires i + 1 < |params| && params[i] in feature
    ensures AddrLoop(params, feature, i, buf) == AddrLoop(params, feature, i + 2, buf + "/" + params[i + 1] + "=" + feature[params[i]])
  {
  }

  /** With every parameter valued, the `OP` loop writes the arguments of the remaining pairs. */
  lemma {:induction false} OpLoopPairs(pairs: seq<(string, string)>, feature: map<string, string>, k: nat, buf: string)
    requires k <= |pairs| && AllValued(pairs, feature)
    ensures OpLoop(Flatten(pairs), feature, 2 * k, true, buf) == Ok(buf + MoreArguments(pairs[k..], feature) + ")")
    decreases |pairs| - k
  {
    if k == |pairs| {
      assert pairs[k..] == [];
      assert buf + "" + ")" == buf + ")";
    } else {
      var params := Flatten(pairs);
      var step := "," + Argument(pairs[k], feature);
      assert params[2 * k] == pairs[k].0 && params[2 * k + 1] == pairs[k].1;
      assert buf + "," + pairs[k].1 + "=" + feature[pairs[k].0] == buf + step;
      assert OpLoop(params, feature, 2 * k, true, buf) == OpLoop(params, feature, 2 * (k + 1), true, buf + step);
      OpLoopPairs(pairs, feature, k + 1, buf + step);
      assert pairs[k..][1..] == pairs[k + 1..];
      assert MoreArguments(pairs[k..], feature) == step + MoreArguments(pairs[k + 1..], feature);
      assert buf + step + MoreArguments(pairs[k + 1..], feature) == buf + (step + MoreArguments(pairs[k + 1..], feature));
    }
  }

  /** `OP` with valued parameters appends `(k1=v1,k2=v2,...)`. */
  lemma OpArguments(pairs: seq<(string, string)>, feature: map<string, string>, buf: string)
    requires pairs != [] && AllValued(pairs, feature)
    ensures OpLoop(Flatten(pairs), feature, 0, false, buf) == Ok(buf + "(" + Arguments(pairs, feature) + ")")
  {
    var params := Flatten(pairs);
    var first := "(" + Argument(pairs[0], feature);
    assert params[0] == pairs[0].0 && params[1] == pairs[0].1;
    assert buf + "(" + pairs[0].1 + "=" + feature[pairs[0].0] == buf + first;
    assert OpLoop(params, feature, 0, false, buf) == OpLoop(params, feature, 2 * 1, true, buf + first);
    OpLoopPairs(pairs, feature, 1, buf + first);
    assert buf + first + MoreArguments(pairs[1..], feature) + ")" == buf + "(" + Arguments(pairs, feature) + ")";
  }

  /** `OP` appends nothing when no parameter has a value. */
  lemma {:induction false} OpLoopNoValues(params: seq<string>, feature: map<string, string>, i: nat, buf: string)
    requires forall j :: 0 <= j < |params| ==> params[j] !in feature
    ensures OpLoop(params, feature, i, false, buf) == Ok(buf)
    decreases |params| - i
  {
    if i < |params| {
      OpLoopNoValues(params, feature, i + 1, buf);
    }
  }

  /**
   * The command line when every address parameter has a value: the prefix,
   * `/<mapped name>=<value>` per address pair, `:` and the operation name,
   * then the suffix of the operation kind.
   */
  lemma CommandLineFormat(s: OpState, feature: map<string, string>, pairs: seq<(string, string)>)
    requires s.line.None? && s.addrParams == Flatten(pairs) && AllValued(pairs, feature)
    ensures CommandLine(s, feature) ==
      Suffix(s, feature, s.addrPref.GetOr("") + AddressText(pairs, feature) + ":" + NullText(s.name))
  {
    AddrLoopPairs(pairs, feature, 0, s.addrPref.GetOr(""));
    assert pairs[0..] == pairs;
  }

  /** `WRITE_ATTR` and `LIST_ADD` append `(name=<second>,value=<value>)`, and fail on a missing value. */
  lemma AttributeSuffix(s: OpState, feature: map<string, string>, buf: string)
    requires s.op != Op && s.opParams.Some? && |s.opParams.value| == 2
    ensures var p := s.opParams.value;
      && (p[0] !in feature ==> Suffix(s, feature, buf) == Err(NullParam(p[0])))
      && (p[0] in feature ==> Suffix(s, feature, buf) == Ok(buf + "(name=" + p[1] + ",value=" + feature[p[0]] + ")"))
  {
  }

  /**
   * The single step past a parameter without a value: in the address list
   * [a, x, b, y] with only `x` valued, the mapped name `x` is looked up and
   * paired with the next parameter name `b`.
   */
  lemma AddrLoopSingleStep()
    ensures AddrLoop(["a", "x", "b", "y"], map["x" := "v"], 0, "") == Ok("/b=v")
  {
    var params := ["a", "x", "b", "y"];
    var f := map["x" := "v"];
    assert params[0] !in f && params[1] in f && params[3] !in f;
    assert "" + "/" + params[2] + "=" + f[params[1]] == "/b=v";
    assert AddrLoop(params, f, 0, "") == AddrLoop(params, f, 1, "");
    assert AddrLoop(params, f, 1, "") == AddrLoop(params, f, 3, "/b=v");
    assert AddrLoop(params, f, 3, "/b=v") == AddrLoop(params, f, 4, "/b=v");
  }
}
