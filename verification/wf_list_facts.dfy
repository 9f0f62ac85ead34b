/**
 * What `parseList` promises about its result, stated over the items of the
 * note: an accepted item contributes the pair (name, mapped name), the names
 * are the accepted items in order, a rejected item listed as skip-if-filtered
 * ends the parse with `null` (here `None`), an empty item throws, and the
 * mapping text pairs the i-th name with its i-th item.
 */
module WfListFacts {
  import opened Base
  import opened WfParsing

  /** The items from `i` on that the filter accepts, in order. */
  function AcceptedFrom(names: seq<string>, i: nat, filter: NameFilter): (r: seq<string>)
    requires i <= |names|
    ensures |r| <= |names| - i
    ensures forall k :: 0 <= k < |r| ==> filter.Accepts(r[k])
    decreases |names| - i
  {
    if i == |names| then []
    else if filter.Accepts(names[i]) then [names[i]] + AcceptedFrom(names, i + 1, filter)
    else AcceptedFrom(names, i + 1, filter)
  }

  /** The accepted items from `i` on, each followed by the name it maps to (`mapped[j]` for item `j`). */
  function PairsFrom(names: seq<string>, mapped: seq<string>, i: nat, filter: NameFilter): seq<string>
    requires |mapped| == |names| && i <= |names|
    decreases |names| - i
  {
    if i == |names| then []
    else
      var rest := PairsFrom(names, mapped, i + 1, filter);
      if filter.Accepts(names[i]) then [names[i], mapped[i]] + rest else rest
  }

  /** The elements at even positions: the names of a list of (name, mapped name) pairs. */
  function Evens(l: seq<string>): seq<string>
    decreases |l|
  {
    if |l| < 2 then [] else [l[0]] + Evens(l[2..])
  }

  /** A list of pairs has even length, and its names are the accepted items in order. */
  lemma {:induction false} PairsFromShape(names: seq<string>, mapped: seq<string>, i: nat, filter: NameFilter)
    requires |mapped| == |names| && i <= |names|
    ensures var r := PairsFrom(names, mapped, i, filter);
      |r| % 2 == 0 && Evens(r) == AcceptedFrom(names, i, filter)
    decreases |names| - i
  {
    if i < |names| {
      PairsFromShape(names, mapped, i + 1, filter);
      var rest := PairsFrom(names, mapped, i + 1, filter);
      assert ([names[i], mapped[i]] + rest)[2..] == rest;
    }
  }

  /** An item the loop of `parseList` gets past: non-empty, with a mapped name, and not a skip. */
  predicate Passes(names: seq<string>, j: nat, filter: NameFilter, skip: set<string>, mapping: Option<string>)
    requires j < |names|
  {
    && names[j] != ""
    && MappedAt(names, j, mapping).Ok?
    && (filter.Accepts(names[j]) || names[j] !in skip)
  }

  /** When every item passes, the result is the list of pairs. */
  lemma {:induction false} ListFromPairs(note: string, names: seq<string>, i: nat, filter: NameFilter,
                                         skip: set<string>, mapping: Option<string>, mapped: seq<string>)
    requires i <= |names| && |mapped| == |names|
    requires forall j :: i <= j < |names| ==>
      Passes(names, j, filter, skip, mapping) && MappedAt(names, j, mapping) == Ok(mapped[j])
    ensures ListFrom(note, names, i, filter, skip, mapping) == Ok(Some(PairsFrom(names, mapped, i, filter)))
    decreases |names| - i
  {
    if i < |names| {
      ListFromPairs(note, names, i + 1, filter, skip, mapping, mapped);
      ListFromStep(note, names, i, filter, skip, mapping, mapped[i]);
    }
  }

  /** A list result means every item passed. */
  lemma {:induction false} ListFromSomePasses(note: string, names: seq<string>, i: nat, filter: NameFilter,
                                              skip: set<string>, mapping: Option<string>)
    requires i <= |names|
    ensures var r := ListFrom(note, names, i, filter, skip, mapping);
      r.Ok? && r.value.Some? ==> forall j :: i <= j < |names| ==> Passes(names, j, filter, skip, mapping)
    decreases |names| - i
  {
    if i < |names| && names[i] != "" && MappedAt(names, i, mapping).Ok? {
      ListFromStep(note, names, i, filter, skip, mapping, MappedAt(names, i, mapping).value);
      ListFromSomePasses(note, names, i + 1, filter, skip, mapping);
    }
  }

  /** A `None` result means some rejected item is listed as skip-if-filtered. */
  lemma {:induction false} ListFromNone(note: string, names: seq<string>, i: nat, filter: NameFilter,
                                        skip: set<string>, mapping: Option<string>)
    requires i <= |names|
    ensures ListFrom(note, names, i, filter, skip, mapping) == Ok(None) ==>
      exists j :: i <= j < |names| && !filter.Accepts(names[j]) && names[j] in skip
    decreases |names| - i
  {
    if i < |names| && names[i] != "" && MappedAt(names, i, mapping).Ok? {
      ListFromStep(note, names, i, filter, skip, mapping, MappedAt(names, i, mapping).value);
      ListFromNone(note, names, i + 1, filter, skip, mapping);
    }
  }

  /**
   * The first item that does not pass decides the result, whatever follows
   * it: an empty item throws, a failed mapping throws, and a rejected item
   * listed as skip-if-filtered gives `None`.
   */
  lemma {:induction false} ListFromStopsAt(note: string, names: seq<string>, i: nat, j: nat, filter: NameFilter,
                                           skip: set<string>, mapping: Option<string>)
    requires i <= j < |names|
    requires forall k :: i <= k < j ==> Passes(names, k, filter, skip, mapping)
    ensures names[j] == "" ==>
      ListFrom(note, names, i, filter, skip, mapping)
        == Err(if j + 1 < |names| then EmptyItemInLoop(note) else EmptyItemAtEnd(note))
    ensures names[j] != "" && MappedAt(names, j, mapping).Err? ==>
      ListFrom(note, names, i, filter, skip, mapping) == Err(MappedAt(names, j, mapping).error)
    ensures names[j] != "" && MappedAt(names, j, mapping).Ok? && !filter.Accepts(names[j]) && names[j] in skip ==>
      ListFrom(note, names, i, filter, skip, mapping) == Ok(None)
    decreases j - i
  {
    if i < j {
      assert Passes(names, i, filter, skip, mapping);
      ListFromStep(note, names, i, filter, skip, mapping, MappedAt(names, i, mapping).value);
      ListFromStopsAt(note, names, i + 1, j, filter, skip, mapping);
    }
  }

  /** With a mapping text of as many items as the note, none of them empty, item `j` maps to mapping item `j`. */
  lemma MappedAtEqualLength(names: seq<string>, j: nat, m: string)
    requires j < |names| && |names| >= 2 && |Split(m)| == |names|
    requires forall k :: 0 <= k < |Split(m)| ==> Split(m)[k] != ""
    ensures MappedAt(names, j, Some(m)) == Ok(Split(m)[j])
  {
    var c0 := IndexOf(m, ',', 0);
    assert Split(m)[0] != "";
    assert c0 > 0;
    var p := ItemStart(m, 0, j);
    ItemStartItems(m, 0, j);
    var items := ItemsFrom(m, p);
    assert items == Split(m)[j..];
    var c := IndexOf(m, ',', p);
    if j + 1 == |names| {
      assert |items| == 1;
      assert c < 0;
    } else {
      assert |items| >= 2;
      assert c >= 0;
      assert items[0] == m[p..c];
    }
  }

  // ---------------------------------------------------------------------------
  // The whole note

  /** A list result has even length and its names are the accepted items of the note, in order. */
  lemma ParsedListShape(str: string, filter: NameFilter, skip: set<string>, mapping: Option<string>)
    ensures var r := ParsedList(str, filter, skip, mapping);
      r.Ok? && r.value.Some? ==>
        |r.value.value| % 2 == 0 && Evens(r.value.value) == AcceptedFrom(ListNames(str), 0, filter)
  {
    var r := ParsedList(str, filter, skip, mapping);
    if str != "" && IndexOf(str, ',', 0) < 1 {
      assert AcceptedFrom([str], 1, filter) == [];
      assert [str, mapping.GetOr(str)][2..] == [];
    } else if str != "" && r.Ok? && r.value.Some? {
      var names := Split(str);
      ListFromSomePasses(str, names, 0, filter, skip, mapping);
      var mapped := seq(|names|, j requires 0 <= j < |names| =>
        if MappedAt(names, j, mapping).Ok? then MappedAt(names, j, mapping).value else "");
      forall j | 0 <= j < |names|
        ensures Passes(names, j, filter, skip, mapping) && MappedAt(names, j, mapping) == Ok(mapped[j])
      {
        assert Passes(names, j, filter, skip, mapping);
      }
      ListFromPairs(str, names, 0, filter, skip, mapping, mapped);
      PairsFromShape(names, mapped, 0, filter);
    }
  }

  /** `None` only comes from a rejected item that is listed as skip-if-filtered. */
  lemma ParsedListNone(str: string, filter: NameFilter, skip: set<string>, mapping: Option<string>)
    ensures ParsedList(str, filter, skip, mapping) == Ok(None) ==>
      exists j :: 0 <= j < |ListNames(str)| && !filter.Accepts(ListNames(str)[j]) && ListNames(str)[j] in skip
  {
    if str != "" && IndexOf(str, ',', 0) < 1 {
      assert ListNames(str)[0] == str;
    } else if str != "" {
      assert ListNames(str) == Split(str);
      ListFromNone(str, Split(str), 0, filter, skip, mapping);
    }
  }

  /**
   * In a note with several items, the first item that does not pass decides
   * the result: an empty one throws, a rejected one listed as
   * skip-if-filtered gives `None`; the items after it are not looked at.
   */
  lemma ParsedListStopsAt(str: string, j: nat, filter: NameFilter, skip: set<string>, mapping: Option<string>)
    requires IndexOf(str, ',', 0) >= 1 && j < |Split(str)|
    requires forall k :: 0 <= k < j ==> Passes(Split(str), k, filter, skip, mapping)
    ensures Split(str)[j] == "" ==> ParsedList(str, filter, skip, mapping).Err?
    ensures var names := Split(str);
      names[j] != "" && MappedAt(names, j, mapping).Ok? && !filter.Accepts(names[j]) && names[j] in skip ==>
        ParsedList(str, filter, skip, mapping) == Ok(None)
  {
    ListFromStopsAt(str, Split(str), 0, j, filter, skip, mapping);
  }

  /**
   * The mapping in a note with several items whose items all pass the filter
   * or are not skips: without a mapping text each name maps to itself; with
   * a mapping text of as many non-empty items, name `i` maps to mapping item `i`.
   */
  lemma ParsedListMapping(str: string, filter: NameFilter, skip: set<string>, mapping: Option<string>)
    requires IndexOf(str, ',', 0) >= 1
    requires forall j :: 0 <= j < |Split(str)| ==>
      Split(str)[j] != "" && (filter.Accepts(Split(str)[j]) || Split(str)[j] !in skip)
    ensures mapping.None? ==>
      ParsedList(str, filter, skip, mapping) == Ok(Some(PairsFrom(Split(str), Split(str), 0, filter)))
    ensures mapping.Some? && |Split(mapping.value)| == |Split(str)|
            && (forall k :: 0 <= k < |Split(mapping.value)| ==> Split(mapping.value)[k] != "") ==>
      ParsedList(str, filter, skip, mapping) == Ok(Some(PairsFrom(Split(str), Split(mapping.value), 0, filter)))
  {
    var names := Split(str);
    assert |names| >= 2 by {
      assert names == [str[..IndexOf(str, ',', 0)]] + ItemsFrom(str, IndexOf(str, ',', 0) + 1);
    }
    if mapping.None? {
      ListFromPairs(str, names, 0, filter, skip, mapping, names);
    } else {
      var m := mapping.value;
      if |Split(m)| == |names| && (forall k :: 0 <= k < |Split(m)| ==> Split(m)[k] != "") {
        forall j | 0 <= j < |names|
          ensures MappedAt(names, j, mapping) == Ok(Split(m)[j])
        {
          MappedAtEqualLength(names, j, m);
        }
        ListFromPairs(str, names, 0, filter, skip, mapping, Split(m));
      }
    }
  }
}
