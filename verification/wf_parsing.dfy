/**
 * The hand-written comma-list parsers of the WildFly configuration handler
 * (`parseSet` and `parseList`), the parameter-name filters that `prepare`
 * installs, and the item-level definitions the parsers are proved against.
 *
 * A note's text is split at every comma into items. `parseSet` collects the
 * items into a set; `parseList` keeps each item the filter accepts, paired with
 * its mapped name, drops the items the filter rejects and gives up (returns
 * `null`, here `None`) on a rejected item that is listed as skip-if-filtered.
 */
module WfParsing {
  import opened Base

  /** The parameter-name filter installed by `prepare` for each config model. */
  datatype NameFilter = StandaloneFilter | DomainFilter | HostFilter {
    predicate Accepts(name: string) {
      match this
      case StandaloneFilter => !(name == "profile" || name == "host")
      case DomainFilter => name != "host"
      case HostFilter => name != "profile"
    }
  }

  /** Why a note cannot be parsed. */
  datatype NoteError =
    | EmptyItemInLoop(note: string)
    | EmptyItemAtEnd(note: string)
    | SubstringOutOfRange
  {
    /** The exception thrown; the JDK's own message for `substring(-1, …)` is not part of this model. */
    function ToFailure(): (f: Failure)
      ensures f.kind == (if SubstringOutOfRange? then IndexOutOfBoundsException else ProvisioningDescriptionException)
    {
      match this
      case EmptyItemInLoop(note) => Failure(ProvisioningDescriptionException, "Saw en empty list item in note '" + note + "'")
      case EmptyItemAtEnd(note) => Failure(ProvisioningDescriptionException, "Saw an empty list item in note '" + note)
      case SubstringOutOfRange => Failure(IndexOutOfBoundsException, "")
    }
  }

  // ---------------------------------------------------------------------------
  // Items of a comma-separated text

  /** The items of `s` from position `from` on, cut at every comma; no comma left means one item. */
  function ItemsFrom(s: string, from: nat): (items: seq<string>)
    requires from <= |s|
    ensures |items| >= 1
    decreases |s| - from
  {
    var c := IndexOf(s, ',', from);
    if c < 0 then [s[from..]] else [s[from..c]] + ItemsFrom(s, c + 1)
  }

  /** The items of `s` between its commas, in order. */
  function Split(s: string): (items: seq<string>)
    ensures |items| >= 1
  {
    ItemsFrom(s, 0)
  }

  /** The items joined back with commas. */
  function Join(items: seq<string>): string
    requires |items| >= 1
  {
    if |items| == 1 then items[0] else items[0] + "," + Join(items[1..])
  }

  /** Splitting and joining again gives the text back. */
  lemma {:induction false} JoinItems(s: string, from: nat)
    requires from <= |s|
    ensures Join(ItemsFrom(s, from)) == s[from..]
    decreases |s| - from
  {
    var c := IndexOf(s, ',', from);
    if c >= 0 {
      JoinItems(s, c + 1);
      var items := ItemsFrom(s, from);
      assert items[1..] == ItemsFrom(s, c + 1);
      assert s[from..] == s[from..c] + "," + s[c + 1..];
    }
  }

  lemma JoinSplit(s: string)
    ensures Join(Split(s)) == s
  {
    JoinItems(s, 0);
    assert s[0..] == s;
  }

  /** No item contains a comma. */
  lemma {:induction false} ItemsHaveNoComma(s: string, from: nat)
    requires from <= |s|
    ensures forall i :: 0 <= i < |ItemsFrom(s, from)| ==> ',' !in ItemsFrom(s, from)[i]
    decreases |s| - from
  {
    var c := IndexOf(s, ',', from);
    IndexOfFirst(s, ',', from);
    if c >= 0 {
      ItemsHaveNoComma(s, c + 1);
      assert ',' !in s[from..c];
    } else {
      assert ',' !in s[from..];
    }
  }

  /** The item under a cursor that has a comma ahead of it, and the items after it. */
  lemma NextItem(str: string, start: nat, names: seq<string>, i: nat)
    requires start <= |str| && i < |names| && ItemsFrom(str, start) == names[i..]
    requires IndexOf(str, ',', start) >= 0
    ensures var c := IndexOf(str, ',', start);
      && start <= c < |str| && i + 1 < |names| && names[i] == str[start..c]
      && ItemsFrom(str, c + 1) == names[i + 1..]
  {
    var c := IndexOf(str, ',', start);
    assert names[i..] == [str[start..c]] + ItemsFrom(str, c + 1);
    assert names[i..][1..] == names[i + 1..];
  }

  /** The item under a cursor with no comma ahead of it is the last one. */
  lemma LastItem(str: string, start: nat, names: seq<string>, i: nat)
    requires start <= |str| && i < |names| && ItemsFrom(str, start) == names[i..]
    requires IndexOf(str, ',', start) < 0
    ensures i + 1 == |names| && names[i] == str[start..]
  {
  }

  /** Where the text after the first `n` commas from `from` starts (after the last comma when there are fewer). */
  function ItemStart(m: string, from: nat, n: nat): (p: nat)
    requires from <= |m|
    ensures from <= p <= |m|
    decreases n
  {
    if n == 0 then from
    else
      var c := IndexOf(m, ',', from);
      if c < 0 then from else ItemStart(m, c + 1, n - 1)
  }

  /** One more item: past the next comma, if there is one. */
  lemma {:induction false} ItemStartStep(m: string, from: nat, n: nat)
    requires from <= |m|
    ensures var p := ItemStart(m, from, n);
      var c := IndexOf(m, ',', p);
      ItemStart(m, from, n + 1) == if c < 0 then p else c + 1
    decreases n
  {
    if n > 0 {
      var c := IndexOf(m, ',', from);
      if c >= 0 {
        ItemStartStep(m, c + 1, n - 1);
      }
    }
  }

  /** The items from the `n`-th one on start at `ItemStart`. */
  lemma {:induction false} ItemStartItems(m: string, from: nat, n: nat)
    requires from <= |m| && n < |ItemsFrom(m, from)|
    ensures ItemsFrom(m, ItemStart(m, from, n)) == ItemsFrom(m, from)[n..]
    decreases n
  {
    if n > 0 {
      var c := IndexOf(m, ',', from);
      ItemStartItems(m, c + 1, n - 1);
      assert ItemsFrom(m, from)[n..] == ItemsFrom(m, c + 1)[n - 1..];
    }
  }

  // ---------------------------------------------------------------------------
  // parseSet

  /**
   * What `parseSet` computes, item by item: the empty text gives the empty
   * set; a text without a comma after its first character is a single item;
   * otherwise every item must be non-empty and the result is the set of items.
   */
  function ParsedSet(str: string): (r: Result<set<string>, NoteError>)
    ensures r.Ok? ==> "" !in r.value
    ensures r.Err? ==> r.error == EmptyItemAtEnd(str)
  {
    if str == "" then Ok({})
    else if IndexOf(str, ',', 0) < 1 then Ok({str})
    else if "" in Split(str) then Err(EmptyItemAtEnd(str))
    else Ok(set x | x in Split(str))
  }

  /** The loop of `parseSet` from the item at `start` on, with `acc` collected so far. */
  function SetScan(str: string, start: nat, acc: set<string>): Result<set<string>, NoteError>
    requires start <= |str|
    decreases |str| - start
  {
    var c := IndexOf(str, ',', start);
    if c < 0 then
      if start == |str| then Err(EmptyItemAtEnd(str)) else Ok(acc + {str[start..]})
    else
      var name := str[start..c];
      if name == "" then Err(EmptyItemAtEnd(str)) else SetScan(str, c + 1, acc + {name})
  }

  /** The set loop collects the items from `start` on and fails on an empty one. */
  lemma {:induction false} SetScanIsItems(str: string, start: nat, acc: set<string>)
    requires start <= |str|
    ensures SetScan(str, start, acc) ==
      if "" in ItemsFrom(str, start) then Err(EmptyItemAtEnd(str))
      else Ok(acc + set x | x in ItemsFrom(str, start))
    decreases |str| - start
  {
    var c := IndexOf(str, ',', start);
    if c < 0 {
      assert ItemsFrom(str, start) == [str[start..]];
      assert (set x | x in ItemsFrom(str, start)) == {str[start..]};
      assert ("" in ItemsFrom(str, start)) == (start == |str|);
    } else {
      var name := str[start..c];
      var items := ItemsFrom(str, start);
      var rest := ItemsFrom(str, c + 1);
      assert items == [name] + rest;
      if name != "" {
        SetScanIsItems(str, c + 1, acc + {name});
        assert ("" in items) == ("" in rest);
        assert (set x | x in items) == {name} + (set x | x in rest);
        assert acc + (set x | x in items) == (acc + {name}) + (set x | x in rest);
      } else {
        assert items[0] == "";
      }
    }
  }

  method ParseSet(str: string) returns (r: Result<set<string>, NoteError>)
    ensures r == ParsedSet(str)
  {
    if |str| == 0 {
      return Ok({});
    }
    var comma := IndexOf(str, ',', 0);
    if comma < 1 {
      return Ok({str});
    }
    var result: set<string> := {};
    var start := 0;
    ghost var expected := SetScan(str, 0, {});
    SetScanIsItems(str, 0, {});
    assert {} + (set x | x in Split(str)) == set x | x in Split(str);
    while comma > 0
      invariant 0 <= start <= |str|
      invariant comma == IndexOf(str, ',', start)
      invariant comma == -1 || comma >= 1
      invariant expected == SetScan(str, start, result)
      decreases |str| - start
    {
      var paramName := str[start..comma];
      if paramName == "" {
        return Err(EmptyItemAtEnd(str));
      }
      result := result + {paramName};
      start := comma + 1;
      comma := IndexOf(str, ',', start);
    }
    if start == |str| {
      return Err(EmptyItemAtEnd(str));
    }
    result := result + {str[start..]};
    return Ok(result);
  }

  /** A set note: the empty text is the empty set, a single item is a singleton. */
  lemma ParsedSetBasics(str: string)
    ensures str == "" ==> ParsedSet(str) == Ok({})
    ensures str != "" && ',' !in str[1..] ==> ParsedSet(str) == Ok({str})
  {
    if str != "" && ',' !in str[1..] {
      assert forall k :: 1 <= k < |str| ==> str[k] == str[1..][k - 1];
      if str[0] != ',' {
        IndexOfAbsent(str, ',', 1);
      }
    }
  }

  /** A note with a comma after its first character fails exactly when an item is empty. */
  lemma ParsedSetItems(str: string)
    requires IndexOf(str, ',', 0) >= 1
    ensures ParsedSet(str).Err? <==> exists i :: 0 <= i < |Split(str)| && Split(str)[i] == ""
    ensures ParsedSet(str).Ok? ==> forall x :: x in ParsedSet(str).value <==> x in Split(str)
  {
    if exists i :: 0 <= i < |Split(str)| && Split(str)[i] == "" {
      var i :| 0 <= i < |Split(str)| && Split(str)[i] == "";
      assert Split(str)[i] in Split(str);
    }
  }

  /** A trailing comma, or two commas in a row, make `parseSet` throw. */
  lemma {:induction false} ParsedSetRejectsEmptyItems(a: string, b: string)
    requires a != "" && ',' !in a
    ensures ParsedSet(a + ",") == Err(EmptyItemAtEnd(a + ","))
    ensures ParsedSet(a + ",," + b) == Err(EmptyItemAtEnd(a + ",," + b))
  {
    var s1 := a + ",";
    assert IndexOf(s1, ',', 0) == |a| by {
      assert forall k :: 0 <= k < |a| ==> s1[k] == a[k];
      IndexOfAt(s1, ',', 0, |a|);
    }
    assert s1[..|a|] == a;
    assert |s1| == |a| + 1;
    assert IndexOf(s1, ',', |a| + 1) == -1;
    assert s1[|a| + 1..] == "";
    assert ItemsFrom(s1, |a| + 1) == [""];
    assert Split(s1) == [a, ""];
    var s2 := a + ",," + b;
    assert IndexOf(s2, ',', 0) == |a| by {
      assert forall k :: 0 <= k < |a| ==> s2[k] == a[k];
      IndexOfAt(s2, ',', 0, |a|);
    }
    assert s2[..|a|] == a;
    assert IndexOf(s2, ',', |a| + 1) == |a| + 1;
    assert ItemsFrom(s2, |a| + 1)[0] == "";
    assert Split(s2) == [a] + ItemsFrom(s2, |a| + 1);
    assert Split(s2)[1] == "";
  }

  // ---------------------------------------------------------------------------
  // parseList

  /** The items `parseList` walks: none, the whole text, or the comma-separated items. */
  function ListNames(str: string): (names: seq<string>)
    ensures str == "" ==> names == []
  {
    if str == "" then []
    else if IndexOf(str, ',', 0) < 1 then [str]
    else Split(str)
  }

  /**
   * The name that item `i` of a multi-item list (`names`, from a text with a
   * comma after its first character) is mapped to, as the mapping cursor of
   * `parseList` produces it:
   *   - no mapping text, or a mapping text without a comma: the item itself;
   *   - a mapping text starting with a comma: `substring(-1, 0)` throws at the first item;
   *   - otherwise a name before the last gets mapping item `i` while there is
   *     one followed by a comma (an empty one throws) and itself afterwards,
   *     and the last name gets the rest of the mapping text from mapping item
   *     `i` on (the last mapping item when there are fewer).
   */
  function MappedAt(names: seq<string>, i: nat, mapping: Option<string>): Result<string, NoteError>
    requires i < |names|
  {
    match mapping
    case None => Ok(names[i])
    case Some(m) =>
      var c0 := IndexOf(m, ',', 0);
      if c0 < 0 then Ok(names[i])
      else if c0 == 0 then (if i + 1 < |names| then Err(SubstringOutOfRange) else Ok(names[i]))
      else
        var p := ItemStart(m, 0, i);
        if i + 1 == |names| then Ok(m[p..])
        else
          var c := IndexOf(m, ',', p);
          if c < 0 then Ok(names[i])
          else if c == p then Err(EmptyItemInLoop(m))
          else Ok(m[p..c])
  }

  /**
   * `parseList` over the items `names[i..]` of a multi-item list: an empty item
   * throws, an accepted item contributes `[name, mapped name]`, a rejected item
   * listed in `skip` ends the parse with `None`, any other rejected item is
   * dropped. Each item is checked before the items after it.
   */
  function ListFrom(note: string, names: seq<string>, i: nat, filter: NameFilter, skip: set<string>,
                    mapping: Option<string>): Result<Option<seq<string>>, NoteError>
    requires i <= |names|
    decreases |names| - i
  {
    if i == |names| then Ok(Some([]))
    else if names[i] == "" then Err(if i + 1 < |names| then EmptyItemInLoop(note) else EmptyItemAtEnd(note))
    else
      match MappedAt(names, i, mapping)
      case Err(e) => Err(e)
      case Ok(mapped) =>
        if filter.Accepts(names[i]) then
          Prepend([names[i], mapped], ListFrom(note, names, i + 1, filter, skip, mapping))
        else if names[i] in skip then Ok(None)
        else ListFrom(note, names, i + 1, filter, skip, mapping)
  }

  function Prepend(prefix: seq<string>, r: Result<Option<seq<string>>, NoteError>): Result<Option<seq<string>>, NoteError> {
    if r.Ok? && r.value.Some? then Ok(Some(prefix + r.value.value)) else r
  }

  /** What `parseList` computes. */
  function ParsedList(str: string, filter: NameFilter, skip: set<string>, mapping: Option<string>)
    : Result<Option<seq<string>>, NoteError>
  {
    if str == "" then Ok(Some([]))
    else if IndexOf(str, ',', 0) < 1 then
      var mapped := mapping.GetOr(str);
      if filter.Accepts(str) then Ok(Some([str, mapped]))
      else if str in skip then Ok(None)
      else Ok(Some([]))
    else ListFrom(str, Split(str), 0, filter, skip, mapping)
  }

  /** The state of the mapping cursor (`mappingStart`, `mappingComma`) before item `i`. */
  ghost predicate MappingCursor(mapping: Option<string>, i: nat, mappingStart: int, mappingComma: int) {
    match mapping
    case None => mappingStart == -1 && mappingComma == -1
    case Some(m) =>
      var c0 := IndexOf(m, ',', 0);
      if c0 < 0 then mappingStart == -1 && mappingComma == -1
      else if c0 == 0 then mappingStart == -1 && mappingComma == 0 && i == 0
      else mappingStart == ItemStart(m, 0, i) && mappingComma == IndexOf(m, ',', mappingStart)
  }

  /** The cursor after item `i` when `mappingComma > 0`: it moves past the comma. */
  lemma CursorAdvance(m: string, i: nat, mappingStart: int, mappingComma: int)
    requires MappingCursor(Some(m), i, mappingStart, mappingComma) && mappingComma > 0
    ensures mappingComma < |m|
    ensures MappingCursor(Some(m), i + 1, mappingComma + 1, IndexOf(m, ',', mappingComma + 1))
  {
    ItemStartStep(m, 0, i);
  }

  /** The cursor after item `i` when `mappingComma <= 0`: it stays. */
  lemma CursorStays(mapping: Option<string>, i: nat, mappingStart: int, mappingComma: int)
    requires MappingCursor(mapping, i, mappingStart, mappingComma) && mappingComma <= 0
    requires mappingComma == 0 ==> mappingStart >= 0
    ensures MappingCursor(mapping, i + 1, mappingStart, mappingComma)
  {
    if mapping.Some? && IndexOf(mapping.value, ',', 0) > 0 {
      ItemStartStep(mapping.value, 0, i);
    }
  }

  /** The name the cursor maps item `i` (not the last) to, as `MappedAt` defines it. */
  lemma CursorMapped(names: seq<string>, i: nat, mapping: Option<string>, mappingStart: int, mappingComma: int)
    requires i + 1 < |names| && MappingCursor(mapping, i, mappingStart, mappingComma)
    ensures mappingComma < 0 ==> MappedAt(names, i, mapping) == Ok(names[i])
    ensures mappingComma >= 0 && mappingStart < 0 ==> MappedAt(names, i, mapping) == Err(SubstringOutOfRange)
    ensures mappingComma >= 0 && mappingStart >= 0 ==>
      && mapping.Some? && mappingStart <= mappingComma < |mapping.value|
      && MappedAt(names, i, mapping) ==
           (if mappingComma == mappingStart then Err(EmptyItemInLoop(mapping.value))
            else Ok(mapping.value[mappingStart..mappingComma]))
  {
  }

  /** The name the cursor maps the last item to. */
  lemma CursorMappedLast(names: seq<string>, i: nat, mapping: Option<string>, mappingStart: int, mappingComma: int)
    requires i + 1 == |names| && i > 0 && MappingCursor(mapping, i, mappingStart, mappingComma)
    ensures mappingStart < 0 ==> MappedAt(names, i, mapping) == Ok(names[i])
    ensures mappingStart >= 0 ==>
      mapping.Some? && mappingStart <= |mapping.value| && MappedAt(names, i, mapping) == Ok(mapping.value[mappingStart..])
  {
  }

  /** One item of `ListFrom` whose mapping succeeded. */
  lemma ListFromStep(note: string, names: seq<string>, i: nat, filter: NameFilter, skip: set<string>,
                     mapping: Option<string>, mapped: string)
    requires i < |names| && names[i] != "" && MappedAt(names, i, mapping) == Ok(mapped)
    ensures var rest := ListFrom(note, names, i + 1, filter, skip, mapping);
      ListFrom(note, names, i, filter, skip, mapping) ==
        if filter.Accepts(names[i]) then Prepend([names[i], mapped], rest)
        else if names[i] in skip then Ok(None)
        else rest
  {
  }

  /** The shape of the mapping cursor that `parseList` keeps: both positions inside the mapping text. */
  predicate CursorInRange(mapping: Option<string>, mappingStart: int, mappingComma: int) {
    && (mappingComma >= 0 ==> mapping.Some? && mappingComma < |mapping.value| && mappingStart <= mappingComma)
    && (mappingStart >= 0 ==> mapping.Some? && mappingStart <= |mapping.value|)
  }

  /** What one pass of the `parseList` loop ends in: a result, or the cursor and list for the next item. */
  datatype ItemOutcome =
    | Stop(result: Result<Option<seq<string>>, NoteError>)
    | Next(mappingStart: int, mappingComma: int, list: seq<string>)

  /** One pass of the `parseList` loop over the item `str[start..c]`, which has a comma at `c` after it. */
  function ScanItem(str: string, filter: NameFilter, skip: set<string>, mapping: Option<string>,
                    start: nat, c: nat, mappingStart: int, mappingComma: int, list: seq<string>): (o: ItemOutcome)
    requires start <= c < |str| && CursorInRange(mapping, mappingStart, mappingComma)
    ensures o.Next? ==> CursorInRange(mapping, o.mappingStart, o.mappingComma)
  {
    var name := str[start..c];
    if name == "" then Stop(Err(EmptyItemInLoop(str)))
    else if mappingComma >= 0 && mappingStart < 0 then Stop(Err(SubstringOutOfRange))
    else if mappingComma >= 0 && mappingStart == mappingComma then Stop(Err(EmptyItemInLoop(mapping.value)))
    else
      var mapped := if mappingComma < 0 then name else mapping.value[mappingStart..mappingComma];
      var nextStart := if mappingComma > 0 then mappingComma + 1 else mappingStart;
      var nextComma := if mappingComma > 0 then IndexOf(mapping.value, ',', mappingComma + 1) else mappingComma;
      if filter.Accepts(name) then Next(nextStart, nextComma, list + [name, mapped])
      else if name in skip then Stop(Ok(None))
      else Next(nextStart, nextComma, list)
  }

  /** The pass over the last item, `str[start..]`, after the loop. */
  function ScanLast(str: string, filter: NameFilter, skip: set<string>, mapping: Option<string>,
                    start: nat, mappingStart: int, list: seq<string>): Result<Option<seq<string>>, NoteError>
    requires start <= |str| && (mappingStart >= 0 ==> mapping.Some? && mappingStart <= |mapping.value|)
  {
    if start == |str| then Err(EmptyItemAtEnd(str))
    else
      var name := str[start..];
      var mapped := if mappingStart < 0 then name else mapping.value[mappingStart..];
      if filter.Accepts(name) then Ok(Some(list + [name, mapped]))
      else if name in skip then Ok(None)
      else Ok(Some(list))
  }

  /**
   * The loop of `parseList` from the item at `start` on, with the mapping
   * cursor at (`mappingStart`, `mappingComma`) and `list` collected so far;
   * `ScanIsListFrom` shows it computes `ListFrom`.
   */
  function Scan(str: string, filter: NameFilter, skip: set<string>, mapping: Option<string>,
                start: nat, mappingStart: int, mappingComma: int, list: seq<string>): Result<Option<seq<string>>, NoteError>
    requires start <= |str| && CursorInRange(mapping, mappingStart, mappingComma)
    decreases |str| - start
  {
    var c := IndexOf(str, ',', start);
    if c < 0 then ScanLast(str, filter, skip, mapping, start, mappingStart, list)
    else
      match ScanItem(str, filter, skip, mapping, start, c, mappingStart, mappingComma, list)
      case Stop(r) => r
      case Next(nextStart, nextComma, list') => Scan(str, filter, skip, mapping, c + 1, nextStart, nextComma, list')
  }

  /** The cursor loop computes the item-level definition. */
  lemma {:induction false} ScanIsListFrom(str: string, filter: NameFilter, skip: set<string>, mapping: Option<string>,
                                          start: nat, mappingStart: int, mappingComma: int, list: seq<string>,
                                          names: seq<string>, i: nat)
    requires start <= |str| && i < |names| && |names| >= 2
    requires ItemsFrom(str, start) == names[i..]
    requires MappingCursor(mapping, i, mappingStart, mappingComma)
    requires CursorInRange(mapping, mappingStart, mappingComma)
    ensures Scan(str, filter, skip, mapping, start, mappingStart, mappingComma, list)
              == Prepend(list, ListFrom(str, names, i, filter, skip, mapping))
    decreases |str| - start, 2
  {
    if IndexOf(str, ',', start) < 0 {
      ScanLastIsListFrom(str, filter, skip, mapping, start, mappingStart, mappingComma, list, names, i);
    } else {
      ScanNextIsListFrom(str, filter, skip, mapping, start, mappingStart, mappingComma, list, names, i);
    }
  }

  lemma ScanLastIsListFrom(str: string, filter: NameFilter, skip: set<string>, mapping: Option<string>,
                           start: nat, mappingStart: int, mappingComma: int, list: seq<string>,
                           names: seq<string>, i: nat)
    requires start <= |str| && i < |names| && |names| >= 2
    requires ItemsFrom(str, start) == names[i..]
    requires MappingCursor(mapping, i, mappingStart, mappingComma)
    requires CursorInRange(mapping, mappingStart, mappingComma)
    requires IndexOf(str, ',', start) < 0
    ensures Scan(str, filter, skip, mapping, start, mappingStart, mappingComma, list)
              == Prepend(list, ListFrom(str, names, i, filter, skip, mapping))
  {
    LastItem(str, start, names, i);
    CursorMappedLast(names, i, mapping, mappingStart, mappingComma);
    if start < |str| {
      var name := str[start..];
      var mapped := if mappingStart < 0 then name else mapping.value[mappingStart..];
      ListFromStep(str, names, i, filter, skip, mapping, mapped);
      assert ListFrom(str, names, i + 1, filter, skip, mapping) == Ok(Some([]));
      assert [name, mapped] + [] == [name, mapped];
      assert list + [] == list;
    }
  }

  lemma {:induction false} ScanNextIsListFrom(str: string, filter: NameFilter, skip: set<string>, mapping: Option<string>,
                                              start: nat, mappingStart: int, mappingComma: int, list: seq<string>,
                                              names: seq<string>, i: nat)
    requires start <= |str| && i < |names| && |names| >= 2
    requires ItemsFrom(str, start) == names[i..]
    requires MappingCursor(mapping, i, mappingStart, mappingComma)
    requires CursorInRange(mapping, mappingStart, mappingComma)
    requires IndexOf(str, ',', start) >= 0
    ensures Scan(str, filter, skip, mapping, start, mappingStart, mappingComma, list)
              == Prepend(list, ListFrom(str, names, i, filter, skip, mapping))
    decreases |str| - start, 1
  {
    var c := IndexOf(str, ',', start);
    var o := ScanItem(str, filter, skip, mapping, start, c, mappingStart, mappingComma, list);
    if o.Stop? {
      ScanGoesOn(str, filter, skip, mapping, start, mappingStart, mappingComma, list);
      ScanItemList(str, filter, skip, mapping, start, mappingStart, mappingComma, list, names, i);
    } else {
      NextItem(str, start, names, i);
      ScanItemCursor(str, filter, skip, mapping, start, c, mappingStart, mappingComma, list, i);
      calc {
        Scan(str, filter, skip, mapping, start, mappingStart, mappingComma, list);
        == { ScanGoesOn(str, filter, skip, mapping, start, mappingStart, mappingComma, list); }
        Scan(str, filter, skip, mapping, c + 1, o.mappingStart, o.mappingComma, o.list);
        == { ScanIsListFrom(str, filter, skip, mapping, c + 1, o.mappingStart, o.mappingComma, o.list, names, i + 1); }
        Prepend(o.list, ListFrom(str, names, i + 1, filter, skip, mapping));
        == { ScanItemList(str, filter, skip, mapping, start, mappingStart, mappingComma, list, names, i); }
        Prepend(list, ListFrom(str, names, i, filter, skip, mapping));
      }
    }
  }

  /** After a pass that goes on, the cursor stands before the next item. */
  lemma ScanItemCursor(str: string, filter: NameFilter, skip: set<string>, mapping: Option<string>,
                       start: nat, c: nat, mappingStart: int, mappingComma: int, list: seq<string>, i: nat)
    requires start <= c < |str| && CursorInRange(mapping, mappingStart, mappingComma)
    requires MappingCursor(mapping, i, mappingStart, mappingComma)
    ensures var o := ScanItem(str, filter, skip, mapping, start, c, mappingStart, mappingComma, list);
      o.Next? ==> MappingCursor(mapping, i + 1, o.mappingStart, o.mappingComma)
  {
    if str[start..c] != "" && !(mappingComma >= 0 && mappingStart < 0)
       && !(mappingComma >= 0 && mappingStart == mappingComma) {
      if mappingComma > 0 {
        CursorAdvance(mapping.value, i, mappingStart, mappingComma);
      } else {
        CursorStays(mapping, i, mappingStart, mappingComma);
      }
    }
  }

  /**
   * One pass of the loop agrees with one item of `ListFrom`: a pass that stops
   * has the final result, a pass that goes on has collected what `ListFrom`
   * puts in front of the rest.
   */
  lemma ScanItemList(str: string, filter: NameFilter, skip: set<string>, mapping: Option<string>,
                     start: nat, mappingStart: int, mappingComma: int, list: seq<string>,
                     names: seq<string>, i: nat)
    requires start <= |str| && i < |names| && |names| >= 2
    requires ItemsFrom(str, start) == names[i..]
    requires MappingCursor(mapping, i, mappingStart, mappingComma)
    requires CursorInRange(mapping, mappingStart, mappingComma)
    requires IndexOf(str, ',', start) >= 0
    ensures var c := IndexOf(str, ',', start);
      var o := ScanItem(str, filter, skip, mapping, start, c, mappingStart, mappingComma, list);
      && (o.Stop? ==> o.result == Prepend(list, ListFrom(str, names, i, filter, skip, mapping)))
      && (o.Next? ==> Prepend(o.list, ListFrom(str, names, i + 1, filter, skip, mapping))
                        == Prepend(list, ListFrom(str, names, i, filter, skip, mapping)))
  {
    var c := IndexOf(str, ',', start);
    NextItem(str, start, names, i);
    CursorMapped(names, i, mapping, mappingStart, mappingComma);
    var name := str[start..c];
    if name != "" && !(mappingComma >= 0 && mappingStart < 0)
       && !(mappingComma >= 0 && mappingStart == mappingComma) {
      var mapped := if mappingComma < 0 then name else mapping.value[mappingStart..mappingComma];
      ListFromStep(str, names, i, filter, skip, mapping, mapped);
      ScanItemNext(str, filter, skip, mapping, start, c, mappingStart, mappingComma, list);
      PrependStep(list, name, mapped, filter.Accepts(name), ListFrom(str, names, i + 1, filter, skip, mapping));
    }
  }

  /** The pass over an item that is neither empty nor badly mapped. */
  lemma ScanItemNext(str: string, filter: NameFilter, skip: set<string>, mapping: Option<string>,
                     start: nat, c: nat, mappingStart: int, mappingComma: int, list: seq<string>)
    requires start < c < |str| && CursorInRange(mapping, mappingStart, mappingComma)
    requires !(mappingComma >= 0 && mappingStart < 0) && !(mappingComma >= 0 && mappingStart == mappingComma)
    ensures var name := str[start..c];
      var mapped := if mappingComma < 0 then name else mapping.value[mappingStart..mappingComma];
      var nextStart := if mappingComma > 0 then mappingComma + 1 else mappingStart;
      var nextComma := if mappingComma > 0 then IndexOf(mapping.value, ',', mappingComma + 1) else mappingComma;
      ScanItem(str, filter, skip, mapping, start, c, mappingStart, mappingComma, list) ==
        if filter.Accepts(name) then Next(nextStart, nextComma, list + [name, mapped])
        else if name in skip then Stop(Ok(None))
        else Next(nextStart, nextComma, list)
  {
  }

  /** The loop goes on with the next item exactly when the pass says so. */
  lemma ScanGoesOn(str: string, filter: NameFilter, skip: set<string>, mapping: Option<string>,
                   start: nat, mappingStart: int, mappingComma: int, list: seq<string>)
    requires start <= |str| && CursorInRange(mapping, mappingStart, mappingComma)
    requires IndexOf(str, ',', start) >= 0
    ensures var c := IndexOf(str, ',', start);
      var o := ScanItem(str, filter, skip, mapping, start, c, mappingStart, mappingComma, list);
      Scan(str, filter, skip, mapping, start, mappingStart, mappingComma, list) ==
        if o.Stop? then o.result else Scan(str, filter, skip, mapping, c + 1, o.mappingStart, o.mappingComma, o.list)
  {
  }

  /** With no comma left, the loop ends with the pass over the last item. */
  lemma ScanEnds(str: string, filter: NameFilter, skip: set<string>, mapping: Option<string>,
                 start: nat, mappingStart: int, mappingComma: int, list: seq<string>)
    requires start <= |str| && CursorInRange(mapping, mappingStart, mappingComma)
    requires IndexOf(str, ',', start) < 0
    ensures Scan(str, filter, skip, mapping, start, mappingStart, mappingComma, list) ==
      ScanLast(str, filter, skip, mapping, start, mappingStart, list)
  {
  }

  /** Collecting `[name, mapped]` now or prepending it afterwards gives the same list. */
  lemma PrependStep(list: seq<string>, name: string, mapped: string, accepted: bool,
                    rest: Result<Option<seq<string>>, NoteError>)
    ensures accepted ==> Prepend(list + [name, mapped], rest) == Prepend(list, Prepend([name, mapped], rest))
  {
    if accepted && rest.Ok? && rest.value.Some? {
      assert list + ([name, mapped] + rest.value.value) == list + [name, mapped] + rest.value.value;
    }
  }

  /** The mapping cursor `parseList` starts with. */
  function FirstMappingComma(mapping: Option<string>): int {
    if mapping.None? then -1 else IndexOf(mapping.value, ',', 0)
  }

  /** A multi-item list: the cursor loop from the start computes `ParsedList`. */
  lemma ParsedListIsScan(str: string, filter: NameFilter, skip: set<string>, mapping: Option<string>)
    requires str != "" && IndexOf(str, ',', 0) >= 1
    ensures var mc := FirstMappingComma(mapping);
      ParsedList(str, filter, skip, mapping) == Scan(str, filter, skip, mapping, 0, if mc > 0 then 0 else -1, mc, [])
  {
    var mc := FirstMappingComma(mapping);
    ScanIsListFrom(str, filter, skip, mapping, 0, if mc > 0 then 0 else -1, mc, [], Split(str), 0);
    var lf := ListFrom(str, Split(str), 0, filter, skip, mapping);
    if lf.Ok? && lf.value.Some? {
      assert [] + lf.value.value == lf.value.value;
    }
  }

  method ParseList(str: string, filter: NameFilter, skipIfFiltered: set<string>, mappingStr: Option<string>)
    returns (r: Result<Option<seq<string>>, NoteError>)
    ensures r == ParsedList(str, filter, skipIfFiltered, mappingStr)
  {
    if |str| == 0 {
      return Ok(Some([]));
    }
    var strComma := IndexOf(str, ',', 0);
    if strComma < 1 {
      var mapped := if mappingStr.None? then str else mappingStr.value;
      if filter.Accepts(str) {
        return Ok(Some([str, mapped]));
      } else if str in skipIfFiltered {
        return Ok(None);
      }
      return Ok(Some([]));
    }
    ParsedListIsScan(str, filter, skipIfFiltered, mappingStr);
    r := ParseListItems(str, strComma, filter, skipIfFiltered, mappingStr);
  }

  /** The loop of `parseList` over a text with a comma after its first character. */
  method ParseListItems(str: string, firstComma: int, filter: NameFilter, skipIfFiltered: set<string>,
                        mappingStr: Option<string>)
    returns (r: Result<Option<seq<string>>, NoteError>)
    requires firstComma == IndexOf(str, ',', 0) && firstComma >= 1
    ensures var mc := FirstMappingComma(mappingStr);
      r == Scan(str, filter, skipIfFiltered, mappingStr, 0, if mc > 0 then 0 else -1, mc, [])
  {
    var strComma := firstComma;
    var list: seq<string> := [];
    var mappingComma := if mappingStr.None? then -1 else IndexOf(mappingStr.value, ',', 0);
    var mappingStart := if mappingComma > 0 then 0 else -1;
    var start := 0;
    ghost var expected := Scan(str, filter, skipIfFiltered, mappingStr, 0, mappingStart, mappingComma, list);
    while strComma > 0
      invariant 0 <= start <= |str|
      invariant strComma == IndexOf(str, ',', start)
      invariant CursorInRange(mappingStr, mappingStart, mappingComma)
      invariant expected == Scan(str, filter, skipIfFiltered, mappingStr, start, mappingStart, mappingComma, list)
      decreases |str| - start
    {
      ScanGoesOn(str, filter, skipIfFiltered, mappingStr, start, mappingStart, mappingComma, list);
      var outcome := ListItemStep(str, start, strComma, filter, skipIfFiltered, mappingStr, mappingStart, mappingComma, list);
      if outcome.Stop? {
        return outcome.result;
      }
      mappingStart, mappingComma, list := outcome.mappingStart, outcome.mappingComma, outcome.list;
      start := strComma + 1;
      strComma := IndexOf(str, ',', start);
    }
    ScanEnds(str, filter, skipIfFiltered, mappingStr, start, mappingStart, mappingComma, list);
    r := ListLastStep(str, start, filter, skipIfFiltered, mappingStr, mappingStart, list);
  }

  /** The pass over the last item, after the loop of `parseList`. */
  method ListLastStep(str: string, start: nat, filter: NameFilter, skipIfFiltered: set<string>,
                      mappingStr: Option<string>, mappingStart: int, list: seq<string>)
    returns (r: Result<Option<seq<string>>, NoteError>)
    requires start <= |str| && (mappingStart >= 0 ==> mappingStr.Some? && mappingStart <= |mappingStr.value|)
    ensures r == ScanLast(str, filter, skipIfFiltered, mappingStr, start, mappingStart, list)
  {
    if start == |str| {
      return Err(EmptyItemAtEnd(str));
    }
    var paramName := str[start..];
    var mappedName := if mappingStart < 0 then paramName else mappingStr.value[mappingStart..];
    if filter.Accepts(paramName) {
      return Ok(Some(list + [paramName, mappedName]));
    } else if paramName in skipIfFiltered {
      return Ok(None);
    }
    return Ok(Some(list));
  }

  /**
   * One pass of the `parseList` loop: the item before the comma at
   * `strComma`, its mapped name from the mapping cursor, then the filter and
   * the skip set; the cursor moves on while the mapping text has commas left.
   */
  method ListItemStep(str: string, start: nat, strComma: nat, filter: NameFilter, skipIfFiltered: set<string>,
                      mappingStr: Option<string>, mappingStart: int, mappingComma: int, list: seq<string>)
    returns (outcome: ItemOutcome)
    requires start <= strComma < |str| && CursorInRange(mappingStr, mappingStart, mappingComma)
    ensures outcome == ScanItem(str, filter, skipIfFiltered, mappingStr, start, strComma, mappingStart, mappingComma, list)
  {
    var paramName := str[start..strComma];
    if paramName == "" {
      return Stop(Err(EmptyItemInLoop(str)));
    }
    var mappedName: string;
    if mappingComma < 0 {
      mappedName := paramName;
    } else {
      if mappingStart < 0 {
        return Stop(Err(SubstringOutOfRange));
      }
      mappedName := mappingStr.value[mappingStart..mappingComma];
      if mappedName == "" {
        return Stop(Err(EmptyItemInLoop(mappingStr.value)));
      }
    }
    var next := list;
    if filter.Accepts(paramName) {
      next := list + [paramName, mappedName];
    } else if paramName in skipIfFiltered {
      return Stop(Ok(None));
    }
    if mappingComma > 0 {
      outcome := Next(mappingComma + 1, IndexOf(mappingStr.value, ',', mappingComma + 1), next);
    } else {
      outcome := Next(mappingStart, mappingComma, next);
    }
  }
}
