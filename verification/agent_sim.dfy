/** The pure steps of the simplified LLM agent: preferences cut out of the
    model reply by the first-to-last brace span, the text search they
    drive, and the reply `run_agent` gives. The model call, `json.loads`,
    `str()` of non-string values and the HTTP request are parameters. */
module AgentSim {
  import opened Wrappers
  import opened Text
  import opened JsonValues
  import opened Places
  import opened Numerals
  import Agent

  // ---------------------------------------------------------------------
  // Places
  // ---------------------------------------------------------------------

  /** `preferences.get(key, "")`. */
  function Pref(prefs: map<string, Json>, key: string): (r: Json)
    ensures key !in prefs ==> r == JString("")
    ensures key in prefs ==> r == prefs[key]
  {
    GetOr(prefs, key, JString(""))
  }

  /** A value as an f-string shows it: strings as they are, anything else
      through `str`. */
  function Render(v: Json, str: Json -> string): string {
    if v.JString? then v.s else str(v)
  }

  /** The query of `find_places(preferences)`: interest, " in ", location,
      then " during the " and the time exactly when the time is truthy, and
      " on " and the date exactly when the date is truthy. */
  function PrefQuery(prefs: map<string, Json>, str: Json -> string): (r: string)
    ensures
      var time, date := Pref(prefs, "time"), Pref(prefs, "date");
      var head := Render(Pref(prefs, "interest"), str) + " in " + Render(Pref(prefs, "location"), str);
      var t := if Truthy(time) then |Render(time, str)| + 12 else 0;
      && |r| == |head| + t + (if Truthy(date) then |Render(date, str)| + 4 else 0)
      && r[..|head|] == head
      && (Truthy(time) ==> r[|head|..|head| + t] == " during the " + Render(time, str))
      && (Truthy(date) ==> r[|head| + t..] == " on " + Render(date, str))
  {
    ComposeQuery(Render(Pref(prefs, "interest"), str), Render(Pref(prefs, "location"), str),
      OptionalPart(prefs, "time", str), OptionalPart(prefs, "date", str))
  }

  /** A time or date part: present exactly when the value is truthy. */
  function OptionalPart(prefs: map<string, Json>, key: string, str: Json -> string): (r: Option<string>)
    ensures r.Some? <==> Truthy(Pref(prefs, key))
    ensures r.Some? ==> r.value == Render(Pref(prefs, key), str)
  {
    if Truthy(Pref(prefs, key)) then Some(Render(Pref(prefs, key), str)) else None
  }

  /** The value a key holds when it is a string, and "" when it is missing. */
  predicate TextPref(prefs: map<string, Json>, key: string, text: string) {
    Pref(prefs, key) == JString(text)
  }

  /** On string preferences, missing keys reading as "", both agents search
      with the same query. */
  lemma QueriesAgree(prefs: map<string, Json>, str: Json -> string,
                     interest: string, location: string, time: string, date: string)
    requires TextPref(prefs, "interest", interest) && TextPref(prefs, "location", location)
    requires TextPref(prefs, "time", time) && TextPref(prefs, "date", date)
    ensures PrefQuery(prefs, str) == BuildQuery(interest, location, time, date)
  {
  }

  /** Empty preferences search for " in " and nothing else. */
  lemma EmptyPreferencesQuery(str: Json -> string)
    ensures PrefQuery(map[], str) == " in "
  {
    QueriesAgree(map[], str, "", "", "", "");
  }

  /** One recommendation: every entry read with `.get`, so missing ones are None. */
  datatype Recommendation = Recommendation(
    name: Option<string>,
    address: Option<string>,
    rating: Option<real>,
    types: Option<seq<string>>)

  function Recommend(p: PlaceResult): (r: Recommendation)
    ensures r.rating.Some? <==> p.rating.Present?
    ensures r.rating.Some? ==> r.rating.value == p.rating.value
    ensures r.types.Some? <==> p.types.Present?
    ensures r.types.Some? ==> r.types.value == p.types.value
    ensures r.name == p.name.Get() && r.address == p.formattedAddress.Get()
  {
    Recommendation(p.name.Get(), p.formattedAddress.Get(), p.rating.Get(), p.types.Get())
  }

  /** `find_places(preferences)`, where `fetch` stands for the Places text
      search: at most the first four results, in order. */
  function FindPlaces(fetch: string -> PlacesResponse, prefs: map<string, Json>, str: Json -> string)
    : (r: Result<seq<Recommendation>, string>)
    ensures var data := fetch(PrefQuery(prefs, str));
      && (data.results.Null? <==> r.Failure?)
      && (r.Success? ==>
        && |r.value| <= 4
        && (data.results.Missing? ==> r.value == [])
        && (data.results.Present? ==>
          && |r.value| == (if |data.results.value| < 4 then |data.results.value| else 4)
          && forall i :: 0 <= i < |r.value| ==> r.value[i] == Recommend(data.results.value[i])))
  {
    match TopResults(fetch(PrefQuery(prefs, str)), 4)
    case Failure(e) => Failure(e)
    case Success(top) => Success(seq(|top|, i requires 0 <= i < |top| => Recommend(top[i])))
  }

  /** On string preferences, the two agents' searches fail together, and
      this agent's places are the first four of the other's: same names and
      addresses, the same rating where one is given, and the same types where
      they are given. */
  lemma FindPlacesAgree(fetch: string -> PlacesResponse, prefs: map<string, Json>, str: Json -> string,
                        interest: string, location: string, time: string, date: string)
    requires TextPref(prefs, "interest", interest) && TextPref(prefs, "location", location)
    requires TextPref(prefs, "time", time) && TextPref(prefs, "date", date)
    ensures var short, full := FindPlaces(fetch, prefs, str), Agent.FindPlaces(fetch, location, interest, time, date);
      && (short.Failure? <==> full.Failure?)
      && (short.Success? ==>
        && |short.value| == Min(4, |full.value|)
        && forall i :: 0 <= i < |short.value| ==>
          && short.value[i].name == full.value[i].name
          && short.value[i].address == full.value[i].address
          && (short.value[i].rating.Some? <==> full.value[i].rating.Value?)
          && (short.value[i].rating.Some? ==> full.value[i].rating.value == short.value[i].rating.value)
          && (short.value[i].types.Some? ==> full.value[i].types == short.value[i].types))
  {
    QueriesAgree(prefs, str, interest, location, time, date);
    var data := fetch(BuildQuery(interest, location, time, date));
    var short, full := FindPlaces(fetch, prefs, str), Agent.FindPlaces(fetch, location, interest, time, date);
    if short.Success? {
      forall i | 0 <= i < |short.value|
        ensures short.value[i].types.Some? ==> full.value[i].types == short.value[i].types
        ensures short.value[i].rating.Some? <==> full.value[i].rating.Value?
        ensures short.value[i].rating.Some? ==> full.value[i].rating.value == short.value[i].rating.value
      {
        var p := data.results.value[i];
        assert short.value[i] == Recommend(p);
        assert full.value[i] == Agent.Recommend(p);
      }
    }
  }

  // ---------------------------------------------------------------------
  // The brace span
  // ---------------------------------------------------------------------

  /** The first position of `c` in `s`. */
  function FirstOf(s: string, c: char): (r: Option<nat>)
    ensures r.None? <==> c !in s
    ensures r.Some? ==> r.value < |s| && s[r.value] == c && c !in s[..r.value]
    decreases |s|
  {
    if s == [] then None
    else if s[0] == c then Some(0)
    else match FirstOf(s[1..], c)
      case None => None
      case Some(i) =>
        assert s[..i + 1] == [s[0]] + s[1..][..i];
        Some(i + 1)
  }

  /** The last position of `c` in `s`. */
  function LastOf(s: string, c: char): (r: Option<nat>)
    ensures r.None? <==> c !in s
    ensures r.Some? ==> r.value < |s| && s[r.value] == c && c !in s[r.value + 1..]
    decreases |s|
  {
    if s == [] then None
    else if s[|s| - 1] == c then Some(|s| - 1)
    else match LastOf(s[..|s| - 1], c)
      case None => None
      case Some(i) =>
        assert s[i + 1..] == s[..|s| - 1][i + 1..] + [s[|s| - 1]];
        Some(i)
  }

  /** `s[a..b + 1]` runs from the first "{" of `s` to its last "}". */
  predicate SpanAt(s: string, a: int, b: int) {
    && 0 <= a < b < |s|
    && s[a] == '{' && s[b] == '}'
    && '{' !in s[..a] && '}' !in s[b + 1..]
  }

  /** What `re.search(r"\{.*\}", s, re.DOTALL)` matches: from the first
      "{" to the last "}", when that "}" comes after that "{". */
  function BraceSpan(s: string): (r: Option<string>)
    ensures r.Some? <==> exists i, j :: 0 <= i < j < |s| && s[i] == '{' && s[j] == '}'
    ensures r.Some? ==> exists a, b :: SpanAt(s, a, b) && r.value == s[a..b + 1]
  {
    match (FirstOf(s, '{'), LastOf(s, '}'))
    case (Some(a), Some(b)) =>
      if a < b then
        assert SpanAt(s, a, b);
        Some(s[a..b + 1])
      else
        assert forall i, j :: 0 <= i < j < |s| && s[i] == '{' && s[j] == '}' ==> false by {
          forall i, j | 0 <= i < j < |s| && s[i] == '{'
            ensures s[j] != '}'
          {
            assert s[i] !in s[..a];
            assert a <= i;
            if j > b {
              assert s[j] in s[b + 1..];
            }
          }
        }
        None
    case _ => None
  }

  /** Two spans start at the same "{". */
  lemma NoneBefore(s: string, a: int, a': int)
    requires 0 <= a' < |s| && s[a'] == '{'
    requires 0 <= a <= |s| && '{' !in s[..a]
    ensures a <= a'
  {
    forall k | 0 <= k < a
      ensures s[k] != '{'
    {
      assert s[k] == s[..a][k];
    }
  }

  /** Two spans end at the same "}". */
  lemma NoneAfter(s: string, b: int, b': int)
    requires 0 <= b' < |s| && s[b'] == '}'
    requires 0 <= b < |s| && '}' !in s[b + 1..]
    ensures b' <= b
  {
    forall k | b < k < |s|
      ensures s[k] != '}'
    {
      assert s[k] == s[b + 1..][k - b - 1];
    }
  }

  /** The first "{" and the last "}" fix the span. */
  lemma SpanAtUnique(s: string, a: int, b: int)
    requires SpanAt(s, a, b)
    ensures BraceSpan(s) == Some(s[a..b + 1])
  {
    assert s[a] == '{' && s[b] == '}';
    var r := BraceSpan(s);
    var a', b' :| SpanAt(s, a', b') && r.value == s[a'..b' + 1];
    NoneBefore(s, a', a);
    NoneBefore(s, a, a');
    NoneAfter(s, b', b);
    NoneAfter(s, b, b');
  }

  /** A braced text with no "{" before it and no "}" after it is the span. */
  lemma BraceSpanWrapped(pre: string, body: string, post: string)
    requires '{' !in pre && '}' !in post
    ensures BraceSpan(pre + "{" + body + "}" + post) == Some("{" + body + "}")
  {
    var s := pre + "{" + body + "}" + post;
    var a, b := |pre|, |pre| + |body| + 1;
    assert s[..a] == pre && s[a] == '{';
    assert s[b + 1..] == post && s[b] == '}';
    assert s[a..b + 1] == "{" + body + "}";
    SpanAtUnique(s, a, b);
  }

  /** A span opens with "{" and closes with "}". */
  lemma SpanEnds(s: string)
    requires BraceSpan(s).Some?
    ensures var span := BraceSpan(s).value;
      |span| >= 2 && span[0] == '{' && span[|span| - 1] == '}'
  {
    var a, b :| SpanAt(s, a, b) && BraceSpan(s).value == s[a..b + 1];
  }

  /** A text that opens with "{" and closes with "}" is its own span. */
  lemma WholeSpan(t: string)
    requires |t| >= 2 && t[0] == '{' && t[|t| - 1] == '}'
    ensures BraceSpan(t) == Some(t)
  {
    assert t[..0] == [] && t[|t|..] == [];
    assert SpanAt(t, 0, |t| - 1);
    SpanAtUnique(t, 0, |t| - 1);
    assert t[0..|t|] == t;
  }

  /** The span of a span is itself. */
  lemma BraceSpanIdempotent(s: string)
    requires BraceSpan(s).Some?
    ensures BraceSpan(BraceSpan(s).value) == BraceSpan(s)
  {
    SpanEnds(s);
    WholeSpan(BraceSpan(s).value);
  }

  /** A reply without "{" holds no span. */
  lemma NoOpeningBraceNoSpan(t: string)
    requires '{' !in t
    ensures BraceSpan(Strip(t)).None?
  {
    var r := Strip(t);
    assert forall i :: 0 <= i < |r| ==> r[i] in t;
  }

  // ---------------------------------------------------------------------
  // Preferences and the agent's reply
  // ---------------------------------------------------------------------

  /** `extract_preferences(prompt_text)`: `reply` is the model's reply or
      the error its call raised; `parse` is `json.loads`, None where it
      raises. Every failure gives None. */
  function ExtractPreferences(reply: Result<string, string>, parse: string -> Option<Json>): (r: Option<Json>)
    ensures reply.Failure? ==> r.None?
    ensures reply.Success? && BraceSpan(Strip(reply.value)).None? ==> r.None?
    ensures reply.Success? && BraceSpan(Strip(reply.value)).Some? ==>
      r == parse(BraceSpan(Strip(reply.value)).value)
  {
    match reply
    case Failure(_) => None
    case Success(text) =>
      match BraceSpan(Strip(text))
      case None => None
      case Some(span) => parse(span)
  }

  const Apology := "Sorry, I couldn't understand your request."

  /** The error `.get` on a decoded value that is not an object raises. */
  const NoGet := "AttributeError: object has no attribute 'get'"

  /** What `run_agent` returns, or the exception it lets escape. */
  datatype Reply = Message(text: string) | Places(places: seq<Recommendation>) | Raised(error: string)

  /** The branch `run_agent` takes on the extracted preferences: the
      apology when there are none or they are falsy (an empty object among
      them), otherwise the places found for them. */
  function Respond(prefs: Option<Json>, fetch: string -> PlacesResponse, str: Json -> string): (r: Reply)
    ensures r == Message(Apology) <==> prefs.None? || !Truthy(prefs.value)
    ensures r.Places? ==>
      && prefs.Some? && prefs.value.JObject?
      && FindPlaces(fetch, prefs.value.fields, str) == Success(r.places)
    ensures prefs.Some? && prefs.value.JObject? && Truthy(prefs.value) ==>
      match FindPlaces(fetch, prefs.value.fields, str)
      case Success(places) => r == Places(places)
      case Failure(e) => r == Raised(e)
    ensures prefs.Some? && Truthy(prefs.value) && !prefs.value.JObject? ==> r == Raised(NoGet)
  {
    match prefs
    case None => Message(Apology)
    case Some(p) =>
      if !Truthy(p) then Message(Apology)
      else if !p.JObject? then Raised(NoGet)
      else
        match FindPlaces(fetch, p.fields, str)
        case Success(places) => Places(places)
        case Failure(e) => Raised(e)
  }

  /** `run_agent(user_input)`: the preferences extracted from the model's
      reply, then the branch above. */
  function RunAgent(reply: Result<string, string>, parse: string -> Option<Json>,
                    fetch: string -> PlacesResponse, str: Json -> string): (r: Reply)
    ensures reply.Failure? ==> r == Message(Apology)
    ensures reply.Success? && BraceSpan(Strip(reply.value)).None? ==> r == Message(Apology)
    ensures (reply.Success? && BraceSpan(Strip(reply.value)).Some?
             && parse(BraceSpan(Strip(reply.value)).value).None?) ==> r == Message(Apology)
  {
    Respond(ExtractPreferences(reply, parse), fetch, str)
  }

  /** A reply without "{" earns the apology, whatever the model meant. */
  lemma BracelessReplyApologises(t: string, parse: string -> Option<Json>,
                                 fetch: string -> PlacesResponse, str: Json -> string)
    requires '{' !in t
    ensures RunAgent(Success(t), parse, fetch, str) == Message(Apology)
  {
    NoOpeningBraceNoSpan(t);
  }
}
