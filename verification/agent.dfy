/** The pure steps of the LLM places agent: the text search it runs for a
    set of preferences, how it reads preferences out of a model reply, and
    when its command loop stops. The model call and the HTTP request are
    parameters. */
module Agent {
  import opened Wrappers
  import opened Text
  import opened JsonValues
  import opened Places

  /** One recommendation returned by `find_places`. */
  datatype Recommendation = Recommendation(
    name: Option<string>,
    address: Option<string>,
    rating: OrText<real>,
    types: Option<seq<string>>)

  /** The dictionary built for one upstream result. */
  function Recommend(p: PlaceResult): (r: Recommendation)
    ensures r.name == p.name.Get() && r.address == p.formattedAddress.Get()
    ensures p.rating.Missing? <==> r.rating == Text("No rating")
    ensures p.rating.Null? <==> r.rating.NoValue?
    ensures p.rating.Present? ==> r.rating == Value(p.rating.value)
    ensures p.types.Missing? ==> r.types == Some([])
    ensures p.types.Null? <==> r.types.None?
    ensures p.types.Present? ==> r.types == Some(p.types.value)
  {
    Recommendation(p.name.Get(), p.formattedAddress.Get(), p.rating.GetOrText("No rating"), p.types.GetOr([]))
  }

  /** `find_places(location, interest, time, date)`, where `fetch` stands for
      the Places text search: at most the first five results, in order. */
  function FindPlaces(fetch: string -> PlacesResponse, location: string, interest: string,
                      time: string, date: string): (r: Result<seq<Recommendation>, string>)
    ensures var data := fetch(BuildQuery(interest, location, time, date));
      && (data.results.Null? <==> r.Failure?)
      && (r.Success? ==>
        && |r.value| <= 5
        && (data.results.Missing? ==> r.value == [])
        && (data.results.Present? ==>
          && |r.value| == (if |data.results.value| < 5 then |data.results.value| else 5)
          && forall i :: 0 <= i < |r.value| ==> r.value[i] == Recommend(data.results.value[i])))
  {
    match TopResults(fetch(BuildQuery(interest, location, time, date)), 5)
    case Failure(e) => Failure(e)
    case Success(top) => Success(seq(|top|, i requires 0 <= i < |top| => Recommend(top[i])))
  }

  /** The values `find_places` uses for arguments the caller leaves out. */
  const DefaultLocation := "San Francisco"

  const DefaultInterest := "fun things"

  /** A call of `find_places` in which any argument may be left out (None);
      the ReAct tool may make such calls. */
  function FindPlacesCall(fetch: string -> PlacesResponse, location: Option<string>, interest: Option<string>,
                          time: Option<string>, date: Option<string>): Result<seq<Recommendation>, string> {
    FindPlaces(fetch, location.GetOr(DefaultLocation), interest.GetOr(DefaultInterest),
      time.GetOr(""), date.GetOr(""))
  }

  /** A call with every argument left out searches for "fun things in San
      Francisco" and returns the first five results of that search. */
  lemma NoArgumentsSearch(fetch: string -> PlacesResponse)
    ensures var data := fetch("fun things in San Francisco");
      var r := FindPlacesCall(fetch, None, None, None, None);
      && (data.results.Null? <==> r.Failure?)
      && (r.Success? && data.results.Present? ==>
        && |r.value| == (if |data.results.value| < 5 then |data.results.value| else 5)
        && forall i :: 0 <= i < |r.value| ==> r.value[i] == Recommend(data.results.value[i]))
  {
    var q := BuildQuery(DefaultInterest, DefaultLocation, "", "");
    assert q == DefaultInterest + " in " + DefaultLocation;
    assert q == "fun things in San Francisco";
  }

  /** Leaving out the time or the date is the same as passing "": neither
      adds to the query. */
  lemma OmittedTimeAndDate(fetch: string -> PlacesResponse, location: string, interest: string)
    ensures FindPlacesCall(fetch, Some(location), Some(interest), None, None)
         == FindPlaces(fetch, location, interest, "", "")
    ensures BuildQuery(interest, location, "", "") == interest + " in " + location
  {
  }

  // ---------------------------------------------------------------------
  // Preferences from a model reply
  // ---------------------------------------------------------------------

  const Fence := "```"

  const JsonFence := "```json"

  /** The text before the first occurrence of `sep`, or all of `t`. */
  function UpTo(t: string, sep: string): (r: string)
    requires sep != []
    ensures Contains(t, sep) ==> r == t[..IndexOf(t, sep).value]
    ensures !Contains(t, sep) ==> r == t
    ensures !Contains(r, sep)
  {
    SplitFirst(t, sep);
    Split(t, sep)[0]
  }

  /** The text after the first occurrence of `sep`. */
  function After(s: string, sep: string): string
    requires Contains(s, sep)
  {
    s[IndexOf(s, sep).value + |sep|..]
  }

  /** `s.split(sep)[1]` is the text between the first two occurrences. */
  lemma SecondPiece(s: string, sep: string)
    requires sep != [] && Contains(s, sep)
    ensures |Split(s, sep)| >= 2
    ensures Split(s, sep)[1] == UpTo(After(s, sep), sep)
  {
    SplitSecond(s, sep);
    SplitFirst(After(s, sep), sep);
  }

  /** `s.split(open)[1].split("```")[0].strip()`: the stripped text after
      the first `open` fence, cut at the next `open` and then at the next
      plain fence. */
  function FencedPart(s: string, open: string): (r: string)
    requires open == JsonFence || open == Fence
    requires Contains(s, open)
    ensures r == Strip(UpTo(UpTo(After(s, open), open), Fence))
    ensures !Contains(r, Fence)
  {
    SecondPiece(s, open);
    var inner := Split(s, open)[1];
    SplitFirst(inner, Fence);
    StripAvoids(Split(inner, Fence)[0], Fence);
    Strip(Split(inner, Fence)[0])
  }

  /** Cutting at `sep` a second time changes nothing. */
  lemma UpToTwice(t: string, sep: string)
    requires sep != []
    ensures UpTo(UpTo(t, sep), sep) == UpTo(t, sep)
  {
  }

  /** The plain fence begins the ```json fence. */
  lemma FenceInJsonFence(s: string)
    requires Contains(s, JsonFence)
    ensures Contains(s, Fence)
  {
    assert OccursAt(JsonFence, Fence, 0);
    ContainsTransitive(s, JsonFence, Fence);
  }

  /** The fence handling of `extract_preferences` on the stripped reply. */
  function StripFences(s: string): (r: string)
    ensures Contains(s, JsonFence) ==> r == Strip(UpTo(UpTo(After(s, JsonFence), JsonFence), Fence))
    ensures !Contains(s, JsonFence) && Contains(s, Fence) ==> r == Strip(UpTo(After(s, Fence), Fence))
    ensures !Contains(s, Fence) ==> r == s
    ensures Contains(s, Fence) ==> !Contains(r, Fence)
  {
    if Contains(s, JsonFence) then
      FenceInJsonFence(s);
      FencedPart(s, JsonFence)
    else if Contains(s, Fence) then
      UpToTwice(After(s, Fence), Fence);
      FencedPart(s, Fence)
    else
      s
  }

  /** The preferences used whenever extraction fails. */
  const Fallback := JObject(map[
    "location" := JString("San Francisco"),
    "interest" := JString("fun things"),
    "time" := JString(""),
    "date" := JString("")])

  /** `extract_preferences(text)`: `reply` is the model's reply text, or the
      error its call raised; `parse` is `json.loads`, None where it raises.
      Any failure gives the fallback preferences. */
  function ExtractPreferences(reply: Result<string, string>, parse: string -> Option<Json>): (r: Json)
    ensures reply.Failure? ==> r == Fallback
    ensures reply.Success? ==>
      var candidate := StripFences(Strip(reply.value));
      && (parse(candidate).None? ==> r == Fallback)
      && (parse(candidate).Some? ==> r == parse(candidate).value)
  {
    match reply
    case Failure(_) => Fallback
    case Success(text) =>
      match parse(StripFences(Strip(text)))
      case None => Fallback
      case Some(j) => j
  }

  /** In "\n" + j + "\n```", where `j` holds no fence, the only fence is
      the closing one. */
  lemma FenceOnlyAtEnd(j: string)
    requires !Contains(j, Fence)
    ensures var rest := "\n" + j + "\n" + Fence;
      && IndexOf(rest, Fence) == Some(|j| + 2)
      && forall k :: 0 <= k < |j| + 2 ==> !OccursAt(rest, Fence, k)
  {
    var rest := "\n" + j + "\n" + Fence;
    assert OccursAt(rest, Fence, |j| + 2);
    forall k | 0 <= k < |j| + 2
      ensures !OccursAt(rest, Fence, k)
    {
      if k == 0 {
        assert rest[0] == '\n';
      } else if k + 3 <= |j| + 1 {
        assert rest[k..k + 3] == j[k - 1..k + 2];
        assert !OccursAt(j, Fence, k - 1);
      } else {
        assert rest[|j| + 1] == '\n';
        assert k + 3 <= |rest| ==> rest[k..k + 3][|j| + 1 - k] == '\n';
      }
    }
  }

  /** Nor does a ```json fence occur there. */
  lemma NoJsonFenceAfterOpening(j: string)
    requires !Contains(j, Fence)
    ensures !Contains("\n" + j + "\n" + Fence, JsonFence)
  {
    var rest := "\n" + j + "\n" + Fence;
    FenceOnlyAtEnd(j);
    forall k | 0 <= k <= |rest| - |JsonFence|
      ensures !OccursAt(rest, JsonFence, k)
    {
      assert !OccursAt(rest, Fence, k);
      assert rest[k..k + 7][..3] == rest[k..k + 3];
    }
  }

  /** A JSON text wrapped in a ```json block comes back unchanged. */
  lemma FencedReplyRoundTrip(j: string)
    requires j != [] && !IsSpace(j[0]) && !IsSpace(j[|j| - 1])
    requires !Contains(j, Fence)
    ensures StripFences(Strip(JsonFence + "\n" + j + "\n" + Fence)) == j
  {
    var s := JsonFence + "\n" + j + "\n" + Fence;
    StripUnpadded(s);
    assert OccursAt(s, JsonFence, 0);
    var rest := s[|JsonFence|..];
    assert After(s, JsonFence) == rest;
    assert rest == "\n" + j + "\n" + Fence;
    FenceOnlyAtEnd(j);
    NoJsonFenceAfterOpening(j);
    assert UpTo(rest, Fence) == "\n" + j + "\n";
    StripPadded("\n", j, "\n");
  }

  // ---------------------------------------------------------------------
  // The command loop
  // ---------------------------------------------------------------------

  /** `user_input.lower() in ['exit', 'quit']`: only a four-letter input can
      stop the loop. */
  predicate IsExit(input: string)
    ensures IsExit(input) ==> |input| == 4
  {
    Lower(input) == "exit" || Lower(input) == "quit"
  }

  /** Only four-letter inputs stop the loop, in any mix of case. */
  lemma ExitIgnoresCase(input: string)
    ensures IsExit(input) ==> |input| == 4
    ensures IsExit(input) <==> IsExit(Lower(input))
  {
    LowerIdempotent(input);
  }

  /** The input is not stripped: a leading space keeps the loop going. */
  lemma PaddedExitContinues(s: string)
    ensures !IsExit(" " + s)
  {
    assert Lower(" " + s)[0] == ' ';
  }
}
