/**
 * The composite parsing format (`CompositeParsingFormat`): an object format
 * whose registered element names are matched at the parser's cursor, the
 * longest name winning, and whose matched element's value format is pushed
 * onto the parsing context.
 */
module CompositeFormat {
  import opened Base

  /** `ObjectParsingFormat.NAME`; `ObjectParsingFormat` is not part of this model. */
  const ObjectFormatName := "Object"

  /**
   * A parsing format as far as the composite format handles one: a named
   * format, or a `NameValueParsingFormat` wrapping a value format (possibly
   * `null`) with the name-value separator, when one was set.
   */
  datatype Format = Named(name: string) | NameValue(separator: Option<char>, valueFormat: Option<Format>)

  /** `Character.isWhitespace`. */
  predicate IsWhitespace(c: char) {
    || c == ' ' || c == '\t' || c == '\n' || c == '\U{000B}' || c == '\U{000C}' || c == '\r'
    || ('\U{001C}' <= c <= '\U{001F}')
    || c == '\U{1680}' || ('\U{2000}' <= c <= '\U{2006}') || ('\U{2008}' <= c <= '\U{200A}')
    || c == '\U{2028}' || c == '\U{2029}' || c == '\U{205F}' || c == '\U{3000}'
  }

  /** `ParsingContext.startsNow(name)`: the input continues with `name` at the cursor. */
  predicate StartsAt(input: string, pos: nat, name: string) {
    pos + |name| <= |input| && input[pos..pos + |name|] == name
  }

  /** One step of the matching loop: a match replaces the current one only when it is strictly longer. */
  function Pick(matched: Option<string>, name: string, input: string, pos: nat): Option<string> {
    if !StartsAt(input, pos, name) then matched
    else if matched.None? then Some(name)
    else if |matched.value| < |name| then Some(name)
    else matched
  }

  /** The element matched after the loop has looked at the first `n` names. */
  function MatchedIn(names: seq<string>, n: nat, input: string, pos: nat): (r: Option<string>)
    requires n <= |names|
    ensures r.Some? ==> r.value in names && StartsAt(input, pos, r.value)
  {
    if n == 0 then None else Pick(MatchedIn(names, n - 1, input, pos), names[n - 1], input, pos)
  }

  /**
   * The loop finds a name exactly when some name starts at the cursor, and
   * the name it finds starts there and is at least as long as every other
   * name that does.
   */
  lemma {:induction false} MatchedInIsLongest(names: seq<string>, n: nat, input: string, pos: nat)
    requires n <= |names|
    ensures var m := MatchedIn(names, n, input, pos);
      && (m.None? <==> forall i :: 0 <= i < n ==> !StartsAt(input, pos, names[i]))
      && (m.Some? ==> m.value in names[..n] && StartsAt(input, pos, m.value))
      && (m.Some? ==> forall i :: 0 <= i < n && StartsAt(input, pos, names[i]) ==> |names[i]| <= |m.value|)
  {
    if n > 0 {
      MatchedInIsLongest(names, n - 1, input, pos);
      assert names[..n] == names[..n - 1] + [names[n - 1]];
    }
  }

  /** Two names that start at the cursor and have the same length are the same name. */
  lemma SameLengthSameName(input: string, pos: nat, a: string, b: string)
    requires StartsAt(input, pos, a) && StartsAt(input, pos, b) && |a| == |b|
    ensures a == b
  {
  }

  /** A list holding every name of another matches whenever the other does, with a name at least as long. */
  lemma MatchIncluded(names1: seq<string>, names2: seq<string>, input: string, pos: nat)
    requires forall name :: name in names1 ==> name in names2
    ensures var m1, m2 := MatchedIn(names1, |names1|, input, pos), MatchedIn(names2, |names2|, input, pos);
      m1.Some? ==> m2.Some? && |m1.value| <= |m2.value|
  {
    var m1 := MatchedIn(names1, |names1|, input, pos);
    MatchedInIsLongest(names2, |names2|, input, pos);
    assert names2[..|names2|] == names2;
    if m1.Some? {
      var i2 :| 0 <= i2 < |names2| && names2[i2] == m1.value;
    }
  }

  /**
   * The name matched depends only on which names are registered, not on the
   * order the map iterates them in: two names of equal length never both
   * start at the cursor.
   */
  lemma MatchOrderFree(names1: seq<string>, names2: seq<string>, input: string, pos: nat)
    requires forall name :: name in names1 <==> name in names2
    ensures MatchedIn(names1, |names1|, input, pos) == MatchedIn(names2, |names2|, input, pos)
  {
    var m1 := MatchedIn(names1, |names1|, input, pos);
    var m2 := MatchedIn(names2, |names2|, input, pos);
    MatchIncluded(names1, names2, input, pos);
    MatchIncluded(names2, names1, input, pos);
    if m1.Some? {
      SameLengthSameName(input, pos, m1.value, m2.value);
    }
  }

  /**
   * `deal`, as written: nothing is pushed at whitespace (`Ok(None)`); otherwise
   * the matched element's value format, else the default value format, is
   * pushed (`Ok(Some(f))`). With no match and `acceptAll` unset it throws
   * `FormatParsingException`. When there is no format to push, building the
   * message throws `NullPointerException` instead of the intended exception:
   * with no match it dereferences the missing match, and with a match the
   * format's `toString` dereferences the matched element's missing format.
   */
  function Dealt(acceptAll: bool, defaultFormat: Option<Format>, elems: OrderedMap<string, Option<Format>>,
                 input: string, pos: nat): (r: Result<Option<Format>, Exception>)
    requires elems.Valid() && pos < |input|
    ensures r.Ok? && r.value.Some? ==> r.value == defaultFormat || r.value in elems.entries.Values
    ensures r == Err(FormatParsingException) ==> !acceptAll
    ensures r == Err(NullPointerException) ==> defaultFormat.None?
    ensures r.Err? ==> r.error == FormatParsingException || r.error == NullPointerException
  {
    if IsWhitespace(input[pos]) then Ok(None)
    else
      var matched := MatchedIn(elems.keys, |elems.keys|, input, pos);
      if matched.None? && !acceptAll then Err(FormatParsingException)
      else
        var valueFormat := if matched.Some? then elems.entries[matched.value] else None;
        if valueFormat.Some? then Ok(valueFormat)
        else if defaultFormat.Some? then Ok(defaultFormat)
        else Err(NullPointerException)
  }

  /**
   * What `deal` does at a character that is not whitespace, in terms of the
   * longest registered name starting there.
   */
  lemma DealtOutcome(acceptAll: bool, defaultFormat: Option<Format>, elems: OrderedMap<string, Option<Format>>,
                     input: string, pos: nat)
    requires elems.Valid() && pos < |input|
    ensures IsWhitespace(input[pos]) ==> Dealt(acceptAll, defaultFormat, elems, input, pos) == Ok(None)
    ensures (!IsWhitespace(input[pos]) && !acceptAll && (forall name :: name in elems.entries ==> !StartsAt(input, pos, name)))
              ==> Dealt(acceptAll, defaultFormat, elems, input, pos) == Err(FormatParsingException)
    ensures forall name :: !IsWhitespace(input[pos]) && name in elems.entries && StartsAt(input, pos, name)
              && (forall other :: other in elems.entries && StartsAt(input, pos, other) ==> |other| <= |name|)
              ==> Dealt(acceptAll, defaultFormat, elems, input, pos)
                    == (if elems.entries[name].Some? then Ok(elems.entries[name])
                        else if defaultFormat.Some? then Ok(defaultFormat)
                        else Err(NullPointerException))
    ensures (!IsWhitespace(input[pos]) && acceptAll && (forall name :: name in elems.entries ==> !StartsAt(input, pos, name)))
              ==> Dealt(acceptAll, defaultFormat, elems, input, pos)
                    == (if defaultFormat.Some? then Ok(defaultFormat) else Err(NullPointerException))
  {
    var keys := elems.keys;
    MatchedInIsLongest(keys, |keys|, input, pos);
    assert keys[..|keys|] == keys;
    var m := MatchedIn(keys, |keys|, input, pos);
    forall name | !IsWhitespace(input[pos]) && name in elems.entries && StartsAt(input, pos, name)
                  && (forall other :: other in elems.entries && StartsAt(input, pos, other) ==> |other| <= |name|)
      ensures m == Some(name)
    {
      var i :| 0 <= i < |keys| && keys[i] == name;
      SameLengthSameName(input, pos, m.value, name);
    }
  }

  /**
   * `deal` as evidently intended: every failure is a `FormatParsingException`,
   * including a missing value format with no default format, whether or not
   * an element matched.
   */
  function DealtCorrected(acceptAll: bool, defaultFormat: Option<Format>, elems: OrderedMap<string, Option<Format>>,
                          input: string, pos: nat): (r: Result<Option<Format>, Exception>)
    requires elems.Valid() && pos < |input|
    ensures r.Err? ==> r.error == FormatParsingException
  {
    if IsWhitespace(input[pos]) then Ok(None)
    else
      var matched := MatchedIn(elems.keys, |elems.keys|, input, pos);
      if matched.None? && !acceptAll then Err(FormatParsingException)
      else
        var valueFormat := if matched.Some? then elems.entries[matched.value] else None;
        if valueFormat.Some? then Ok(valueFormat)
        else if defaultFormat.Some? then Ok(defaultFormat)
        else Err(FormatParsingException)
  }

  /** The corrected `deal` differs from the code only where the code throws `NullPointerException`. */
  lemma CorrectedAgrees(acceptAll: bool, defaultFormat: Option<Format>, elems: OrderedMap<string, Option<Format>>,
                        input: string, pos: nat)
    requires elems.Valid() && pos < |input|
    ensures var written := Dealt(acceptAll, defaultFormat, elems, input, pos);
      written != Err(NullPointerException) ==> DealtCorrected(acceptAll, defaultFormat, elems, input, pos) == written
    ensures (Dealt(acceptAll, defaultFormat, elems, input, pos) == Err(NullPointerException))
              ==> DealtCorrected(acceptAll, defaultFormat, elems, input, pos) == Err(FormatParsingException)
  {
  }

  /**
   * The first discrepancy: a format that accepts every element, has no default
   * value format and no element starting at the cursor throws
   * `NullPointerException` at the character `x`.
   */
  lemma AcceptAllWithoutDefault()
    ensures Dealt(true, None, EmptyMap(), "x", 0) == Err(NullPointerException)
    ensures DealtCorrected(true, None, EmptyMap(), "x", 0) == Err(FormatParsingException)
  {
    assert !IsWhitespace('x');
  }

  /**
   * The second discrepancy: an element `x` registered without a value format,
   * in a format with no default, matches at `x` and makes `deal` throw
   * `NullPointerException` while rendering the format for the message.
   */
  lemma MatchedWithoutFormat()
    ensures Dealt(false, None, EmptyMap().Put("x", None), "x", 0) == Err(NullPointerException)
    ensures DealtCorrected(false, None, EmptyMap().Put("x", None), "x", 0) == Err(FormatParsingException)
  {
    var elems := EmptyMap<string, Option<Format>>().Put("x", None);
    assert elems.keys == ["x"] && elems.entries == map["x" := None];
    assert !IsWhitespace('x') && StartsAt("x", 0, "x");
    assert MatchedIn(elems.keys, 1, "x", 0) == Some("x");
  }

  /** The format `addElement` stores for a name: the value format, else the default, wrapped; else `null`. */
  function ElementFormat(separator: Option<char>, valueFormat: Option<Format>, defaultFormat: Option<Format>): (r: Option<Format>)
    ensures r.None? <==> valueFormat.None? && defaultFormat.None?
    ensures valueFormat.Some? ==> r == Some(NameValue(separator, valueFormat))
    ensures valueFormat.None? && defaultFormat.Some? ==> r == Some(NameValue(separator, defaultFormat))
  {
    if valueFormat.None? then
      if defaultFormat.Some? then Some(NameValue(separator, defaultFormat)) else None
    else Some(NameValue(separator, valueFormat))
  }

  class CompositeParsingFormat {
    const name: string
    var nameValueSeparator: Option<char>
    var acceptAll: bool
    var defaultValueFormat: Option<Format>
    var elems: OrderedMap<string, Option<Format>>

    ghost predicate Valid()
      reads this
    {
      elems.Valid()
    }

    constructor (name: string)
      ensures Valid()
      ensures this.name == name && nameValueSeparator == None && !acceptAll
      ensures defaultValueFormat == None && elems == EmptyMap()
    {
      this.name := name;
      nameValueSeparator := None;
      acceptAll := false;
      defaultValueFormat := None;
      elems := EmptyMap();
    }

    /** `getContentType`: whatever the format's name. */
    function ContentType(): string {
      ObjectFormatName
    }

    method SetAcceptAll(acceptAll: bool)
      modifies this
      ensures this.acceptAll == acceptAll
      ensures nameValueSeparator == old(nameValueSeparator) && defaultValueFormat == old(defaultValueFormat)
      ensures elems == old(elems)
    {
      this.acceptAll := acceptAll;
    }

    /** `setDefaultValueFormat`: the format is wrapped with the separator set so far, if any. */
    method SetDefaultValueFormat(format: Option<Format>)
      modifies this
      ensures defaultValueFormat == Some(NameValue(nameValueSeparator, format))
      ensures nameValueSeparator == old(nameValueSeparator) && acceptAll == old(acceptAll) && elems == old(elems)
    {
      if nameValueSeparator.None? {
        defaultValueFormat := Some(NameValue(None, format));
      } else {
        defaultValueFormat := Some(NameValue(nameValueSeparator, format));
      }
    }

    /** `addElement(name, valueFormat)`: the name is registered, replacing an earlier registration. */
    method AddElement(name: string, valueFormat: Option<Format>)
      requires Valid()
      modifies this
      ensures Valid()
      ensures elems == old(elems).Put(name, ElementFormat(nameValueSeparator, valueFormat, defaultValueFormat))
      ensures nameValueSeparator == old(nameValueSeparator) && acceptAll == old(acceptAll)
      ensures defaultValueFormat == old(defaultValueFormat)
    {
      var nameValue: Option<Format> := None;
      if valueFormat.None? {
        if defaultValueFormat.Some? {
          nameValue := Some(NameValue(nameValueSeparator, defaultValueFormat));
        }
      } else {
        nameValue := Some(NameValue(nameValueSeparator, valueFormat));
      }
      elems := elems.Put(name, nameValue);
    }

    /** `addElement(name)`: registered with the default value format. */
    method AddDefaultElement(name: string)
      requires Valid()
      modifies this
      ensures Valid()
      ensures elems == old(elems).Put(name, ElementFormat(nameValueSeparator, defaultValueFormat, defaultValueFormat))
      ensures nameValueSeparator == old(nameValueSeparator) && acceptAll == old(acceptAll)
      ensures defaultValueFormat == old(defaultValueFormat)
    {
      AddElement(name, defaultValueFormat);
    }

    method SetNameValueSeparator(ch: char)
      modifies this
      ensures nameValueSeparator == Some(ch)
      ensures acceptAll == old(acceptAll) && defaultValueFormat == old(defaultValueFormat) && elems == old(elems)
    {
      nameValueSeparator := Some(ch);
    }

    /** `isAcceptsElement`. */
    predicate IsAcceptsElement(element: string)
      reads this
    {
      acceptAll || element in elems.entries
    }

    /**
     * `deal` rejects the element at a non-whitespace cursor exactly when no
     * element the format accepts starts there.
     */
    lemma RejectsUnaccepted(input: string, pos: nat)
      requires Valid() && pos < |input| && !IsWhitespace(input[pos])
      ensures (Dealt(acceptAll, defaultValueFormat, elems, input, pos) == Err(FormatParsingException))
          <==> (forall e :: IsAcceptsElement(e) ==> !StartsAt(input, pos, e))
    {
      var keys := elems.keys;
      MatchedInIsLongest(keys, |keys|, input, pos);
      if acceptAll {
        assert StartsAt(input, pos, [input[pos]]);
      } else if MatchedIn(keys, |keys|, input, pos).Some? {
        var m := MatchedIn(keys, |keys|, input, pos).value;
        assert IsAcceptsElement(m) && StartsAt(input, pos, m);
      } else {
        forall e | IsAcceptsElement(e)
          ensures !StartsAt(input, pos, e)
        {
          var i :| 0 <= i < |keys| && keys[i] == e;
        }
      }
    }

    /**
     * `deal`: the loop keeps the longest name starting at the cursor, then the
     * value format to push is chosen. The result is what is pushed, if anything.
     */
    method Deal(input: string, pos: nat) returns (r: Result<Option<Format>, Exception>)
      requires Valid() && pos < |input|
      ensures r == Dealt(acceptAll, defaultValueFormat, elems, input, pos)
    {
      if IsWhitespace(input[pos]) {
        return Ok(None);
      }
      var matched: Option<string> := None;
      for i := 0 to |elems.keys|
        invariant matched == MatchedIn(elems.keys, i, input, pos)
      {
        var key := elems.keys[i];
        if pos + |key| <= |input| && input[pos..pos + |key|] == key {
          if matched.None? {
            matched := Some(key);
          } else if |matched.value| < |key| {
            matched := Some(key);
          }
        }
      }
      var valueFormat: Option<Format> := None;
      if matched.None? {
        if !acceptAll {
          return Err(FormatParsingException);
        }
      } else {
        MatchedInIsLongest(elems.keys, |elems.keys|, input, pos);
        assert elems.keys[..|elems.keys|] == elems.keys;
        valueFormat := elems.entries[matched.value];
      }
      if valueFormat.None? {
        valueFormat := defaultValueFormat;
        if valueFormat.None? {
          return Err(NullPointerException);
        }
      }
      r := Ok(valueFormat);
    }
  }

  /** `newInstance(name)`: a `null` name stands for the object format's name. */
  method NewInstance(name: Option<string>) returns (f: CompositeParsingFormat)
    ensures fresh(f) && f.Valid()
    ensures f.name == name.GetOr(ObjectFormatName) && f.ContentType() == ObjectFormatName
    ensures !f.acceptAll && f.elems == EmptyMap() && f.defaultValueFormat == None
  {
    f := new CompositeParsingFormat(if name.None? then ObjectFormatName else name.value);
  }
}
