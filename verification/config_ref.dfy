/**
 * A reference to a configuration element (`ConfigRef`): a schema path and
 * the feature-id values, one per path name, rendered as
 * `[name0=value0,name1=value1,...]`.
 */
module ConfigRef {
  import opened Base

  /** The schema path is the list of its names (`SchemaPath.getName(i)`). */
  datatype ConfigRef = ConfigRef(path: seq<string>, featureId: seq<string>) {

    /** `getFeatureId`: the stored values themselves. */
    function FeatureId(): seq<string> {
      featureId
    }
  }

  const LengthMismatch := "SchemaPath length does not match featureId length"

  /** `create`: the path must have as many names as there are feature-id values. */
  function Create(path: seq<string>, featureId: seq<string>): (r: Result<ConfigRef, Failure>)
    ensures r.Ok? <==> |path| == |featureId|
    ensures r.Ok? ==> r.value.path == path && r.value.FeatureId() == featureId
    ensures r.Err? ==> r.error == Failure(IllegalArgumentException, LengthMismatch)
  {
    if |path| != |featureId| then Err(Failure(IllegalArgumentException, LengthMismatch))
    else Ok(ConfigRef(path, featureId))
  }

  /**
   * `equals`: element-wise equal feature-id values and equal paths, which is
   * equality of the two references as values.
   */
  predicate Equals(a: ConfigRef, b: ConfigRef)
    ensures Equals(a, b) <==> a == b
  {
    && |a.featureId| == |b.featureId|
    && (forall i :: 0 <= i < |a.featureId| ==> a.featureId[i] == b.featureId[i])
    && a.path == b.path
  }

  /** `name=value` for each position, separated by commas. */
  function Pairs(names: seq<string>, values: seq<string>): string
    requires |names| == |values|
    decreases |values|
  {
    var n := |values|;
    if n == 0 then ""
    else if n == 1 then names[0] + "=" + values[0]
    else Pairs(names[..n - 1], values[..n - 1]) + "," + (names[n - 1] + "=" + values[n - 1])
  }

  /** What `toString` renders: the pairs between brackets. */
  function Rendered(ref: ConfigRef): (r: string)
    requires |ref.path| == |ref.featureId|
    ensures |r| >= 2 && r[0] == '[' && r[|r| - 1] == ']'
    ensures ref.featureId == [] ==> r == "[]"
  {
    "[" + Pairs(ref.path, ref.featureId) + "]"
  }

  /** `toString`: the first pair, then `,name=value` for each further position. */
  method ToString(ref: ConfigRef) returns (s: string)
    requires |ref.path| == |ref.featureId|
    ensures s == Rendered(ref)
  {
    var n := |ref.featureId|;
    var buf := "[";
    if n > 0 {
      buf := buf + ref.path[0] + "=" + ref.featureId[0];
      assert ref.path[..1] == [ref.path[0]] && ref.featureId[..1] == [ref.featureId[0]];
      if n > 1 {
        for i := 1 to n
          invariant buf == "[" + Pairs(ref.path[..i], ref.featureId[..i])
        {
          assert ref.path[..i + 1][..i] == ref.path[..i] && ref.featureId[..i + 1][..i] == ref.featureId[..i];
          buf := buf + "," + (ref.path[i] + "=" + ref.featureId[i]);
        }
      }
      assert ref.path[..n] == ref.path && ref.featureId[..n] == ref.featureId;
    }
    s := buf + "]";
  }

  /** A text free of the separators `,` and `=`. */
  predicate Plain(t: string) {
    forall k :: 0 <= k < |t| ==> t[k] != ',' && t[k] != '='
  }

  predicate AllPlain(ts: seq<string>) {
    forall i :: 0 <= i < |ts| ==> Plain(ts[i])
  }

  /** Two texts joined by a separator that neither the first nor the second contains split back apart. */
  lemma SplitAt(x: string, y: string, x': string, y': string, sep: char)
    requires x + [sep] + y == x' + [sep] + y'
    requires (forall k :: 0 <= k < |y| ==> y[k] != sep) && (forall k :: 0 <= k < |y'| ==> y'[k] != sep)
    ensures x == x' && y == y'
  {
    var m := x + [sep] + y;
    if |y| < |y'| {
      SepAt(x, y, sep);
      assert false;
    } else if |y'| < |y| {
      SepAt(x', y', sep);
      assert false;
    }
    assert x == m[..|x|] && x' == m[..|x'|];
    assert y == m[|x| + 1..] && y' == m[|x'| + 1..];
  }

  lemma SepAt(x: string, y: string, sep: char)
    ensures (x + [sep] + y)[|x|] == sep
  {
  }

  /**
   * With names and values free of `,` and `=`, the rendering determines the
   * names and the values, and so also how many pairs there are.
   */
  lemma {:induction false} PairsDetermine(n1: seq<string>, v1: seq<string>, n2: seq<string>, v2: seq<string>)
    requires |n1| == |v1| && |n2| == |v2|
    requires AllPlain(n1) && AllPlain(v1) && AllPlain(n2) && AllPlain(v2)
    requires Pairs(n1, v1) == Pairs(n2, v2)
    ensures n1 == n2 && v1 == v2
    decreases |v1| + |v2|
  {
    var k1, k2 := |v1|, |v2|;
    if k1 == 0 || k2 == 0 {
      assert |Pairs(n1, v1)| == 0 <==> k1 == 0;
      assert |Pairs(n2, v2)| == 0 <==> k2 == 0;
    } else if k1 == 1 && k2 == 1 {
      SplitAt(n1[0], v1[0], n2[0], v2[0], '=');
      assert n1 == [n1[0]] && n2 == [n2[0]] && v1 == [v1[0]] && v2 == [v2[0]];
    } else if k1 == 1 {
      OnePairNoComma(n1, v1, n2, v2);
    } else if k2 == 1 {
      OnePairNoComma(n2, v2, n1, v1);
    } else {
      var rest1, rest2 := Pairs(n1[..k1 - 1], v1[..k1 - 1]), Pairs(n2[..k2 - 1], v2[..k2 - 1]);
      var last1, last2 := n1[k1 - 1] + "=" + v1[k1 - 1], n2[k2 - 1] + "=" + v2[k2 - 1];
      assert rest1 + [','] + last1 == rest2 + [','] + last2;
      PlainPair(n1[k1 - 1], v1[k1 - 1]);
      PlainPair(n2[k2 - 1], v2[k2 - 1]);
      SplitAt(rest1, last1, rest2, last2, ',');
      assert n1[k1 - 1] + ['='] + v1[k1 - 1] == n2[k2 - 1] + ['='] + v2[k2 - 1];
      SplitAt(n1[k1 - 1], v1[k1 - 1], n2[k2 - 1], v2[k2 - 1], '=');
      PairsDetermine(n1[..k1 - 1], v1[..k1 - 1], n2[..k2 - 1], v2[..k2 - 1]);
      assert n1 == n1[..k1 - 1] + [n1[k1 - 1]] && n2 == n2[..k2 - 1] + [n2[k2 - 1]];
      assert v1 == v1[..k1 - 1] + [v1[k1 - 1]] && v2 == v2[..k2 - 1] + [v2[k2 - 1]];
    }
  }

  /** One plain pair holds no comma, while two or more pairs do: they never render alike. */
  lemma OnePairNoComma(n1: seq<string>, v1: seq<string>, n2: seq<string>, v2: seq<string>)
    requires |n1| == |v1| == 1 && |n2| == |v2| > 1
    requires Plain(n1[0]) && Plain(v1[0])
    ensures Pairs(n1, v1) != Pairs(n2, v2)
  {
    var k := |v2|;
    var rest := Pairs(n2[..k - 1], v2[..k - 1]);
    PlainPair(n1[0], v1[0]);
    SepAt(rest, n2[k - 1] + "=" + v2[k - 1], ',');
    assert Pairs(n2, v2)[|rest|] == ',';
  }

  lemma PlainPair(name: string, value: string)
    requires Plain(name) && Plain(value)
    ensures forall k :: 0 <= k < |name + "=" + value| ==> (name + "=" + value)[k] != ','
  {
  }

  /** References whose names and values are free of `,` and `=` are equal when they print alike. */
  lemma RenderedDetermines(a: ConfigRef, b: ConfigRef)
    requires |a.path| == |a.featureId| && |b.path| == |b.featureId|
    requires AllPlain(a.path) && AllPlain(a.featureId) && AllPlain(b.path) && AllPlain(b.featureId)
    ensures Rendered(a) == Rendered(b) <==> Equals(a, b)
  {
    if Rendered(a) == Rendered(b) {
      var pa, pb := Pairs(a.path, a.featureId), Pairs(b.path, b.featureId);
      assert pa == Rendered(a)[1..|Rendered(a)| - 1];
      assert pb == Rendered(b)[1..|Rendered(b)| - 1];
      PairsDetermine(a.path, a.featureId, b.path, b.featureId);
    }
    if Equals(a, b) {
      assert a.featureId == b.featureId;
    }
  }
}
