/**
 * Building blocks shared by the modules of the model: optional values (Java's
 * `null`), results of operations that may throw, the insertion-ordered maps the
 * source builds with `LinkedHashMap`, and the `String.indexOf` lookup that the
 * hand-written parsers are built on.
 */
module Base {

  /** A reference that may be `null`. */
  datatype Option<+T> = None | Some(value: T) {
    function GetOr(default: T): T {
      if Some? then value else default
    }
  }

  /** The exception classes that the modelled code throws. */
  datatype Exception =
    | ProvisioningException
    | ProvisioningDescriptionException
    | IllegalStateException
    | IllegalArgumentException
    | UnsupportedOperationException
    | IndexOutOfBoundsException
    | NullPointerException
    | FormatParsingException
    | ArtifactResolutionException
    | StackOverflowError
    | NoSuchElementException

  /** A thrown exception: its class and its message. */
  datatype Failure = Failure(kind: Exception, message: string)

  /** The outcome of an operation that either returns a value or throws `E`. */
  datatype Result<+T, +E> = Ok(value: T) | Err(error: E) {
    predicate IsFailure() {
      Err?
    }
    function PropagateFailure<U>(): Result<U, E>
      requires Err?
    {
      Err(error)
    }
    function Extract(): T
      requires Ok?
    {
      value
    }
  }

  /** Java's rendering of a possibly-null string inside a concatenation. */
  function NullText(s: Option<string>): (r: string)
    ensures s.Some? ==> r == s.value
    ensures s.None? ==> r == "null"
  {
    match s
    case Some(v) => v
    case None => "null"
  }

  predicate Distinct<T(==)>(s: seq<T>) {
    forall i, j :: 0 <= i < j < |s| ==> s[i] != s[j]
  }

  /** In a sequence without repetitions every element occurs once. */
  lemma {:induction false} DistinctOnce<T>(s: seq<T>)
    requires Distinct(s)
    ensures forall x :: multiset(s)[x] == if x in s then 1 else 0
  {
    if s != [] {
      var rest := s[1..];
      assert forall k :: 0 <= k < |rest| ==> rest[k] == s[k + 1];
      DistinctOnce(rest);
      assert s == [s[0]] + rest;
      assert s[0] !in rest;
    }
  }

  /** Two sequences without repetitions that hold the same elements are permutations of each other. */
  lemma DistinctSameElements<T>(a: seq<T>, b: seq<T>)
    requires Distinct(a) && Distinct(b)
    requires forall x :: x in a <==> x in b
    ensures multiset(a) == multiset(b) && |a| == |b|
  {
    DistinctOnce(a);
    DistinctOnce(b);
    assert forall x :: multiset(a)[x] == multiset(b)[x];
    assert multiset(a) == multiset(b);
    assert |a| == |multiset(a)| == |multiset(b)| == |b|;
  }

  /**
   * An insertion-ordered map (`LinkedHashMap`): `keys` lists the keys in the
   * order they were first put, `entries` holds the current values.
   */
  datatype OrderedMap<K(==), V> = OrderedMap(keys: seq<K>, entries: map<K, V>) {

    ghost predicate Valid() {
      && Distinct(keys)
      && (forall k :: k in entries ==> k in keys)
      && (forall k :: k in keys ==> k in entries)
    }

    function Size(): nat {
      |keys|
    }

    predicate Contains(k: K) {
      k in entries
    }

    /** `put`: a new key goes last; an existing key keeps its place and gets the new value. */
    function Put(k: K, v: V): (r: OrderedMap<K, V>)
      requires Valid()
      ensures r.Valid()
      ensures r.entries == entries[k := v]
      ensures k in entries ==> r.keys == keys
      ensures k !in entries ==> r.keys == keys + [k]
    {
      OrderedMap(if k in entries then keys else keys + [k], entries[k := v])
    }

    /** `values()`: the values in key order. */
    function Values(): (r: seq<V>)
      requires Valid()
      ensures |r| == |keys|
      ensures forall i :: 0 <= i < |keys| ==> r[i] == entries[keys[i]]
    {
      ValuesOf(keys, entries)
    }
  }

  function EmptyMap<K(==), V>(): (r: OrderedMap<K, V>)
    ensures r.Valid() && r.keys == [] && r.entries == map[]
  {
    OrderedMap([], map[])
  }

  function ValuesOf<K(==), V>(ks: seq<K>, m: map<K, V>): (r: seq<V>)
    requires forall k :: k in ks ==> k in m
    ensures |r| == |ks|
    ensures forall i :: 0 <= i < |ks| ==> r[i] == m[ks[i]]
  {
    if ks == [] then [] else [m[ks[0]]] + ValuesOf(ks[1..], m)
  }

  /**
   * `s.indexOf(c, from)`: the first position at or after `from` that holds
   * `c`, or -1 when there is none (`IndexOfFirst` states "first").
   */
  function IndexOf(s: string, c: char, from: nat): (r: int)
    ensures r == -1 || (from <= r < |s| && s[r] == c)
    decreases |s| - from
  {
    if from >= |s| then -1 else if s[from] == c then from else IndexOf(s, c, from + 1)
  }

  /** No position between `from` and the result holds `c`; -1 means none at all does. */
  lemma {:induction false} IndexOfFirst(s: string, c: char, from: nat)
    ensures var r := IndexOf(s, c, from);
      && (r == -1 ==> forall k :: from <= k < |s| ==> s[k] != c)
      && (r >= 0 ==> forall k :: from <= k < r ==> s[k] != c)
    decreases |s| - from
  {
    if from < |s| && s[from] != c {
      IndexOfFirst(s, c, from + 1);
    }
  }

  /** The first `c` at or after `from` is at `p`. */
  lemma {:induction false} IndexOfAt(s: string, c: char, from: nat, p: nat)
    requires from <= p < |s| && s[p] == c
    requires forall k :: from <= k < p ==> s[k] != c
    ensures IndexOf(s, c, from) == p
    decreases p - from
  {
    if from < p {
      IndexOfAt(s, c, from + 1, p);
    }
  }

  /** A text without `c` from `from` on gives -1. */
  lemma {:induction false} IndexOfAbsent(s: string, c: char, from: nat)
    requires forall k :: from <= k < |s| ==> s[k] != c
    ensures IndexOf(s, c, from) == -1
    decreases |s| - from
  {
    if from < |s| {
      IndexOfAbsent(s, c, from + 1);
    }
  }

  /** Searching a suffix is searching the whole string from the suffix's start. */
  lemma {:induction false} IndexOfSuffix(s: string, c: char, start: nat, from: nat)
    requires start <= |s|
    ensures IndexOf(s, c, start + from) ==
              (var r := IndexOf(s[start..], c, from); if r < 0 then -1 else r + start)
    decreases |s| - start - from
  {
    if start + from < |s| && s[start + from] != c {
      IndexOfSuffix(s, c, start, from + 1);
    }
  }
}
