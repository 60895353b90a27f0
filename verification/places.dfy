/** The Places text-search step shared by the two LLM agents: the query
    they compose and the shape of the results they read back. */
module Places {
  import opened Wrappers

  /** `f"{interest} in {location}"`, then `f" during the {time}"` and
      `f" on {date}"` for the parts that are present. */
  function ComposeQuery(interest: string, location: string, time: Option<string>, date: Option<string>): (r: string)
    ensures var head := interest + " in " + location;
      var t := if time.Some? then |time.value| + 12 else 0;
      && |r| == |head| + t + (if date.Some? then |date.value| + 4 else 0)
      && r[..|head|] == head
      && (time.Some? ==> r[|head|..|head| + t] == " during the " + time.value)
      && (date.Some? ==> r[|head| + t..] == " on " + date.value)
  {
    var q := interest + " in " + location;
    var q := if time.Some? then q + " during the " + time.value else q;
    if date.Some? then q + " on " + date.value else q
  }

  /** The query from string preferences: a part is added exactly when it is
      non-empty. */
  function BuildQuery(interest: string, location: string, time: string, date: string): (r: string)
    ensures var head := interest + " in " + location;
      var t := if time != [] then |time| + 12 else 0;
      && |r| == |head| + t + (if date != [] then |date| + 4 else 0)
      && r[..|head|] == head
      && (time != [] ==> r[|head|..|head| + t] == " during the " + time)
      && (date != [] ==> r[|head| + t..] == " on " + date)
  {
    ComposeQuery(interest, location,
      if time != [] then Some(time) else None,
      if date != [] then Some(date) else None)
  }

  /** One entry of the upstream `results` list. */
  datatype PlaceResult = PlaceResult(
    name: Field<string>,
    formattedAddress: Field<string>,
    rating: Field<real>,
    types: Field<seq<string>>)

  /** The decoded upstream response; only its `results` key is read. */
  datatype PlacesResponse = PlacesResponse(results: Field<seq<PlaceResult>>)

  /** The error `None[:n]` raises when `results` holds None. */
  const NotSubscriptable := "TypeError: 'NoneType' object is not subscriptable"

  /** `data.get("results", [])[:n]`. */
  function TopResults(data: PlacesResponse, n: nat): (r: Result<seq<PlaceResult>, string>)
    ensures data.results.Missing? ==> r == Success([])
    ensures data.results.Null? ==> r == Failure(NotSubscriptable)
    ensures data.results.Present? ==>
      var xs := data.results.value;
      && r.Success?
      && |r.value| == (if |xs| < n then |xs| else n)
      && r.value == xs[..|r.value|]
  {
    match data.results
    case Missing => Success([])
    case Null => Failure(NotSubscriptable)
    case Present(xs) => Success(if |xs| < n then xs else xs[..n])
  }
}
