/** The location agent: resolves a free-text place name against a fixed
    table of ten cities, and suggests table entries for partial input. */
module LocationAgent {
  import opened Wrappers
  import opened Records
  import opened Text
  import opened Numerals

  /** An insertion-ordered dictionary from lower-case city names to
      coordinates; as in any dictionary, the keys are distinct. */
  predicate KeysUnique(t: seq<(string, Coordinates)>) {
    forall i, j :: 0 <= i < j < |t| ==> t[i].0 != t[j].0
  }

  type Table = t: seq<(string, Coordinates)> | KeysUnique(t) witness []

  const Database: Table := [
    ("new york", Coordinates(40.7128, -74.0060)),
    ("los angeles", Coordinates(34.0522, -118.2437)),
    ("chicago", Coordinates(41.8781, -87.6298)),
    ("san francisco", Coordinates(37.7749, -122.4194)),
    ("miami", Coordinates(25.7617, -80.1918)),
    ("seattle", Coordinates(47.6062, -122.3321)),
    ("boston", Coordinates(42.3601, -71.0589)),
    ("dallas", Coordinates(32.7767, -96.7970)),
    ("denver", Coordinates(39.7392, -104.9903)),
    ("austin", Coordinates(30.2672, -97.7431))
  ]

  /** Where an input that matches nothing is placed (San Francisco). */
  const DefaultCoordinates := Coordinates(37.7749, -122.4194)

  /** The cleaning applied to every input: strip, then lower-case. The
      result has no surrounding whitespace and no upper-case letter. */
  function Normalize(s: string): (r: string)
    ensures |r| <= |s|
    ensures r == [] || (!IsSpace(r[0]) && !IsSpace(r[|r| - 1]))
    ensures forall i :: 0 <= i < |r| ==> !IsUpper(r[i])
  {
    LowerUnpadded(Strip(s));
    Lower(Strip(s))
  }

  /** An input cleans to nothing exactly when it is whitespace only. */
  lemma NormalizeBlank(s: string)
    ensures Normalize(s) == [] <==> forall i :: 0 <= i < |s| ==> IsSpace(s[i])
  {
    StripEmptyIff(s);
  }

  /** Lower-casing keeps a string free of surrounding whitespace. */
  lemma LowerUnpadded(s: string)
    requires s == [] || (!IsSpace(s[0]) && !IsSpace(s[|s| - 1]))
    ensures var r := Lower(s); r == [] || (!IsSpace(r[0]) && !IsSpace(r[|r| - 1]))
  {
    if s != [] {
      LowerCharKeepsSpace(s[0]);
      LowerCharKeepsSpace(s[|s| - 1]);
    }
  }

  /** Lower-casing never turns whitespace into non-whitespace or back. */
  lemma LowerCharKeepsSpace(c: char)
    ensures IsSpace(LowerChar(c)) <==> IsSpace(c)
  {
  }

  /** Cleaning an already cleaned string changes nothing. */
  lemma NormalizeIdempotent(s: string)
    ensures Normalize(Normalize(s)) == Normalize(s)
  {
    var n := Normalize(s);
    var st := Strip(s);
    if n != [] {
      LowerCharKeepsSpace(st[0]);
      LowerCharKeepsSpace(st[|st| - 1]);
      assert !IsSpace(n[0]) && !IsSpace(n[|n| - 1]);
      assert TrimStart(n) == n;
      assert TrimEnd(n) == n;
    }
    assert Strip(n) == n;
    LowerIdempotent(st);
  }

  /** Dictionary lookup `t[key]`. */
  function Lookup(t: Table, key: string): (r: Option<Coordinates>)
    ensures r.Some? <==> exists i :: 0 <= i < |t| && t[i].0 == key
    ensures forall i :: 0 <= i < |t| && t[i].0 == key ==> r == Some(t[i].1)
    decreases |t|
  {
    if t == [] then None
    else if t[0].0 == key then Some(t[0].1)
    else Lookup(t[1..], key)
  }

  /** `key in cleaned or cleaned in key`. */
  predicate PartialMatch(key: string, cleaned: string) {
    Contains(cleaned, key) || Contains(key, cleaned)
  }

  /** The first entry at or after `from` whose key partially matches. */
  function FirstMatchFrom(t: Table, cleaned: string, from: nat): (r: Option<nat>)
    ensures r.Some? ==>
      && from <= r.value < |t|
      && PartialMatch(t[r.value].0, cleaned)
      && forall i :: from <= i < r.value ==> !PartialMatch(t[i].0, cleaned)
    ensures r.None? ==> forall i :: from <= i < |t| ==> !PartialMatch(t[i].0, cleaned)
    decreases |t| - from
  {
    if from >= |t| then None
    else if PartialMatch(t[from].0, cleaned) then Some(from)
    else FirstMatchFrom(t, cleaned, from + 1)
  }

  /** `resolve_location` over table `t`: None for an empty or non-string
      input (`input` is None); otherwise the exact entry, else the first
      partially matching entry in table order, else the default. */
  function ResolveIn(t: Table, input: Option<string>): (r: Option<Coordinates>)
    ensures r.None? <==> input.None? || input.value == []
    ensures forall k :: 0 <= k < |t| && input.Some? && input.value != [] && t[k].0 == Normalize(input.value) ==>
      r == Some(t[k].1)
    ensures forall j ::
      (&& 0 <= j < |t| && input.Some? && input.value != []
       && (forall k :: 0 <= k < |t| ==> t[k].0 != Normalize(input.value))
       && PartialMatch(t[j].0, Normalize(input.value))
       && (forall i :: 0 <= i < j ==> !PartialMatch(t[i].0, Normalize(input.value))))
      ==> r == Some(t[j].1)
    ensures
      (&& input.Some? && input.value != []
       && (forall i :: 0 <= i < |t| ==> !PartialMatch(t[i].0, Normalize(input.value))))
      ==> r == Some(DefaultCoordinates)
  {
    if input.None? || input.value == [] then None
    else Some(ResolveCleaned(t, Normalize(input.value)))
  }

  /** The lookup `resolve_location` makes once the input is cleaned. */
  function ResolveCleaned(t: Table, cleaned: string): (r: Coordinates)
    ensures r == DefaultCoordinates || exists k :: 0 <= k < |t| && t[k].1 == r
  {
    match Lookup(t, cleaned)
    case Some(c) => c
    case None =>
      match FirstMatchFrom(t, cleaned, 0)
      case Some(i) => t[i].1
      case None => DefaultCoordinates
  }

  /** `LocationAgent().resolve_location(input)`: every input that resolves
      at all is placed at one of the ten cities (the default is one of them). */
  function Resolve(input: Option<string>): (r: Option<Coordinates>)
    ensures r.None? <==> input.None? || input.value == []
    ensures r.Some? ==> exists k :: 0 <= k < |Database| && Database[k].1 == r.value
  {
    assert Database[3].1 == DefaultCoordinates;
    ResolveIn(Database, input)
  }

  /** Resolution ignores case and surrounding whitespace: an input resolves
      like its cleaned form. */
  lemma ResolveIgnoresCaseAndSpace(t: Table, s: string)
    requires Normalize(s) != []
    ensures ResolveIn(t, Some(s)) == ResolveIn(t, Some(Normalize(s)))
  {
    NormalizeIdempotent(s);
    assert s != [];
    assert ResolveIn(t, Some(s)) == Some(ResolveCleaned(t, Normalize(s)));
  }

  /** A non-empty input of whitespace only cleans to "", which is inside
      every key, so it resolves to the first entry. */
  lemma ResolveWhitespaceOnly(t: Table, s: string)
    requires |t| > 0 && forall k :: 0 <= k < |t| ==> t[k].0 != []
    requires s != [] && forall i :: 0 <= i < |s| ==> IsSpace(s[i])
    ensures ResolveIn(t, Some(s)) == Some(t[0].1)
  {
    StripAllSpace(s);
    assert Normalize(s) == [];
    ContainsEmpty(t[0].0);
  }

  // ---------------------------------------------------------------------
  // Suggestions
  // ---------------------------------------------------------------------

  /** The title-cased keys that contain `cleaned`, in table order. */
  function Matches(t: seq<(string, Coordinates)>, cleaned: string): seq<string>
    decreases |t|
  {
    if t == [] then []
    else
      var last := t[|t| - 1].0;
      Matches(t[..|t| - 1], cleaned) + (if Contains(last, cleaned) then [Title(last)] else [])
  }

  /** A suggestion is exactly the title of some key containing the input. */
  lemma {:induction false} MatchesMembership(t: seq<(string, Coordinates)>, cleaned: string, x: string)
    ensures x in Matches(t, cleaned) <==>
      exists k :: 0 <= k < |t| && Contains(t[k].0, cleaned) && x == Title(t[k].0)
    decreases |t|
  {
    if t != [] {
      var init := t[..|t| - 1];
      MatchesMembership(init, cleaned, x);
      if x in Matches(t, cleaned) && x !in Matches(init, cleaned) {
        assert Contains(t[|t| - 1].0, cleaned) && x == Title(t[|t| - 1].0);
      }
      if exists k :: 0 <= k < |t| && Contains(t[k].0, cleaned) && x == Title(t[k].0) {
        var k :| 0 <= k < |t| && Contains(t[k].0, cleaned) && x == Title(t[k].0);
        if k < |t| - 1 {
          assert init[k] == t[k];
        }
      }
    }
  }

  /** The matches of a prefix of the table are a prefix of all matches. */
  lemma {:induction false} MatchesPrefix(t: seq<(string, Coordinates)>, cleaned: string, i: nat)
    requires i <= |t|
    ensures |Matches(t[..i], cleaned)| <= |Matches(t, cleaned)|
    ensures Matches(t, cleaned)[..|Matches(t[..i], cleaned)|] == Matches(t[..i], cleaned)
    decreases |t|
  {
    if i < |t| {
      var init := t[..|t| - 1];
      assert init[..i] == t[..i];
      MatchesPrefix(init, cleaned, i);
    } else {
      assert t[..i] == t;
    }
  }

  /** Scanning one more entry appends its title when its key matches. */
  lemma MatchesStep(t: seq<(string, Coordinates)>, cleaned: string, i: nat)
    requires i < |t|
    ensures Matches(t[..i + 1], cleaned)
         == Matches(t[..i], cleaned) + (if Contains(t[i].0, cleaned) then [Title(t[i].0)] else [])
  {
    assert t[..i + 1][..i] == t[..i];
  }

  /** Once the scan of the first `i` entries has found something and
      reached the bound, what it found is the full match list cut at the
      bound. */
  lemma MatchesCut(t: seq<(string, Coordinates)>, cleaned: string, i: nat, maxResults: int)
    requires i <= |t|
    requires 1 <= |Matches(t[..i], cleaned)| <= Max(1, maxResults)
    requires |Matches(t[..i], cleaned)| >= maxResults
    ensures var m := Matches(t, cleaned);
      Matches(t[..i], cleaned) == m[..Min(|m|, Max(1, maxResults))]
  {
    MatchesPrefix(t, cleaned, i);
  }

  /** `get_location_suggestions(partial, max_results)` over table `t`. The
      loop stops once the list holds `max_results` entries, checked after an
      append, so a bound below 1 still lets one suggestion through. */
  method SuggestionsIn(t: Table, partial: Option<string>, maxResults: int) returns (suggestions: seq<string>)
    ensures partial.None? || partial.value == [] ==> suggestions == []
    ensures partial.Some? && partial.value != [] ==>
      var m := Matches(t, Normalize(partial.value));
      suggestions == m[..Min(|m|, Max(1, maxResults))]
    ensures |suggestions| <= Max(1, maxResults)
  {
    if partial.None? || partial.value == [] {
      return [];
    }
    var cleaned := Normalize(partial.value);
    suggestions := [];
    var i := 0;
    while i < |t|
      invariant 0 <= i <= |t|
      invariant suggestions == Matches(t[..i], cleaned)
      invariant |suggestions| < Max(1, maxResults)
    {
      MatchesStep(t, cleaned, i);
      if Contains(t[i].0, cleaned) {
        suggestions := suggestions + [Title(t[i].0)];
        if |suggestions| >= maxResults {
          MatchesCut(t, cleaned, i + 1, maxResults);
          return;
        }
      }
      i := i + 1;
    }
    assert t[..i] == t;
  }

  /** The bound `get_location_suggestions` applies when none is given. */
  const DefaultMaxResults := 5

  /** `LocationAgent().get_location_suggestions(partial, max_results)`. */
  method Suggestions(partial: Option<string>, maxResults: int) returns (suggestions: seq<string>)
    ensures partial.None? || partial.value == [] ==> suggestions == []
    ensures partial.Some? && partial.value != [] ==>
      var m := Matches(Database, Normalize(partial.value));
      suggestions == m[..Min(|m|, Max(1, maxResults))]
    ensures maxResults >= 1 ==> |suggestions| <= maxResults
  {
    suggestions := SuggestionsIn(Database, partial, maxResults);
  }

  /** `LocationAgent().get_location_suggestions(partial)`: the default bound
      of five. */
  method SuggestionsDefault(partial: Option<string>) returns (suggestions: seq<string>)
    ensures partial.None? || partial.value == [] ==> suggestions == []
    ensures partial.Some? && partial.value != [] ==>
      var m := Matches(Database, Normalize(partial.value));
      suggestions == m[..Min(|m|, DefaultMaxResults)]
    ensures |suggestions| <= DefaultMaxResults
  {
    suggestions := Suggestions(partial, DefaultMaxResults);
  }
}
