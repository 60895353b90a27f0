/** The result formatter the API uses: ten display fields per activity,
    "$" repeated for the price and kilometres for every distance. */
module SummaryAgent {
  import opened Wrappers
  import opened Records
  import opened Text
  import opened Numerals
  import opened Formatting

  /** The coordinates entry: latitude and longitude as read, or None. */
  datatype LatLng = LatLng(lat: Option<real>, lng: Option<real>)

  /** One formatted activity: exactly the ten keys `format_results` writes. */
  datatype Formatted = Formatted(
    id: Option<string>,
    name: Option<string>,
    category: Option<string>,
    address: Option<string>,
    coordinates: LatLng,
    price: string,
    rating: OrText<real>,
    hours: string,
    description: Option<string>,
    distance: string)

  /** `_format_price_level(level)`: None is "Unknown", a positive level is
      that many "$", and zero or below is "Free". */
  function FormatPriceLevel(level: Option<int>): (r: string)
    ensures level.None? <==> r == "Unknown"
    ensures level.Some? && level.value > 0 ==> r == Repeat('$', level.value)
    ensures level.Some? && level.value <= 0 <==> r == "Free"
  {
    if level.None? then "Unknown"
    else if level.value > 0 then
      var r := Repeat('$', level.value);
      assert r[0] == '$';
      r
    else "Free"
  }

  /** The number of leading "$" characters of a price string. */
  function DollarCount(s: string): nat
    decreases |s|
  {
    if s != [] && s[0] == '$' then 1 + DollarCount(s[1..]) else 0
  }

  /** A positive level can be read back from its price string. */
  lemma {:induction false} PriceRoundTrip(n: int)
    requires n > 0
    ensures DollarCount(FormatPriceLevel(Some(n))) == n
    decreases n
  {
    if n > 1 {
      PriceRoundTrip(n - 1);
      assert Repeat('$', n)[1..] == Repeat('$', n - 1);
    }
  }

  /** `_format_distance(distance)`: two decimals of kilometres, for every
      distance, followed by " km". */
  function FormatDistance(distance: Option<real>): (r: string)
    ensures distance.None? ==> r == "Unknown"
    ensures distance.Some? ==>
      && |r| >= 7 && r[|r| - 3..] == " km"
      && HundredthsValue(r[..|r| - 3]) == Some(RoundHalfEven(distance.value * 100.0))
  {
    if distance.None? then "Unknown"
    else
      var fixed := Fixed2(distance.value);
      Fixed2RoundTrip(distance.value);
      assert (fixed + " km")[..|fixed|] == fixed;
      fixed + " km"
  }

  /** One entry of `format_results`. */
  function FormatActivity(a: RawActivity): (r: Formatted)
    ensures r.id == a.id.Get() && r.name == a.name.Get() && r.category == a.category.Get()
    ensures a.location.None? ==> r.address == Some("Unknown") && r.coordinates == LatLng(None, None)
    ensures a.location.Some? ==>
      var l := a.location.value;
      && (l.address.Missing? ==> r.address == Some("Unknown"))
      && (l.address.Null? ==> r.address.None?)
      && (l.address.Present? ==> r.address == Some(l.address.value))
      && r.coordinates == LatLng(l.lat.Get(), l.lng.Get())
    ensures a.priceLevel.Missing? ==> r.price == "Free"
    ensures a.priceLevel.Null? ==> r.price == "Unknown"
    ensures a.priceLevel.Present? ==> r.price == FormatPriceLevel(Some(a.priceLevel.value))
    ensures a.rating.Missing? ==> r.rating == Text("N/A")
    ensures a.rating.Null? ==> r.rating.NoValue?
    ensures a.rating.Present? ==> r.rating == Value(a.rating.value)
    ensures a.openingHours.Missing? ==> r.hours == NoHours
    ensures r.hours == FormatHours(a.openingHours.GetOr([]))
    ensures a.description.Missing? ==> r.description == Some("")
    ensures a.description.Null? ==> r.description.None?
    ensures a.description.Present? ==> r.description == Some(a.description.value)
    ensures r.distance == FormatDistance(a.distance.Get())
  {
    Formatted(
      a.id.Get(), a.name.Get(), a.category.Get(),
      AddressOf(a), LatLng(LatOf(a), LngOf(a)),
      FormatPriceLevel(a.priceLevel.GetOr(0)),
      a.rating.GetOrText("N/A"),
      FormatHours(HoursOf(a)),
      a.description.GetOr(""),
      FormatDistance(a.distance.Get()))
  }

  /** `format_results(activities)`: one formatted entry per activity, in
      order. */
  function FormatResults(activities: seq<RawActivity>): (r: seq<Formatted>)
    ensures |r| == |activities|
    ensures forall i :: 0 <= i < |r| ==> r[i] == FormatActivity(activities[i])
  {
    seq(|activities|, i requires 0 <= i < |activities| => FormatActivity(activities[i]))
  }
}
