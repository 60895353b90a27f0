/** The result formatter kept in the filter agent's file (a second
    `SummaryAgent`): besides the display fields it keeps the numeric price
    level and distance for sorting, renders short distances in metres and
    attaches tags. */
module FilterAgent {
  import opened Wrappers
  import opened Records
  import opened Text
  import opened Numerals
  import opened Formatting

  /** One formatted activity: the dictionary `format_results` builds. */
  datatype Formatted = Formatted(
    id: Option<string>,
    name: Option<string>,
    category: Option<string>,
    address: Option<string>,
    lat: Option<real>,
    lng: Option<real>,
    price: string,
    priceLevel: Option<int>,
    rating: OrText<real>,
    hours: string,
    description: Option<string>,
    distance: string,
    distanceValue: Option<real>,
    tags: seq<string>)

  /** `_format_price_level(level)`: the five known levels map to "Free" and
      one to four "$"; None and every other value are "Unknown". */
  function FormatPriceLevel(level: Option<int>): (r: string)
    ensures level == Some(0) <==> r == "Free"
    ensures level.Some? && 1 <= level.value <= 4 ==> r == Repeat('$', level.value)
    ensures level.None? || level.value < 0 || level.value > 4 ==> r == "Unknown"
  {
    if level.None? then "Unknown"
    else
      match level.value
      case 0 => "Free"
      case 1 => "$"
      case 2 => "$$"
      case 3 => "$$$"
      case 4 => "$$$$"
      case _ => "Unknown"
  }

  /** `_format_distance(distance)` (kilometres): under one kilometre it is
      whole metres, rounded half to even, followed by " m"; otherwise two
      decimals followed by " km". */
  function FormatDistance(distance: Option<real>): (r: string)
    ensures distance.None? ==> r == "Unknown"
    ensures distance.Some? && distance.value < 1.0 ==>
      && |r| >= 3 && r[|r| - 2..] == " m"
      && DecimalValue(r[..|r| - 2]) == Some(RoundHalfEven(distance.value * 1000.0))
    ensures distance.Some? && distance.value >= 1.0 ==>
      && |r| >= 7 && r[|r| - 3..] == " km"
      && HundredthsValue(r[..|r| - 3]) == Some(RoundHalfEven(distance.value * 100.0))
  {
    if distance.None? then "Unknown"
    else if distance.value < 1.0 then
      var metres := IntToDecimal(RoundHalfEven(distance.value * 1000.0));
      DecimalRoundTrip(RoundHalfEven(distance.value * 1000.0));
      assert (metres + " m")[..|metres|] == metres;
      metres + " m"
    else
      var fixed := Fixed2(distance.value);
      Fixed2RoundTrip(distance.value);
      assert (fixed + " km")[..|fixed|] == fixed;
      fixed + " km"
  }

  // ---------------------------------------------------------------------
  // Tags
  // ---------------------------------------------------------------------

  /** The category tag: the capitalised category when it is a non-empty
      string. */
  function CategoryTag(category: Field<string>): (r: Option<string>)
    ensures r.Some? <==> category.Present? && category.value != []
    ensures r.Some? ==> r.value == Capitalize(category.value)
  {
    if category.Present? && category.value != [] then Some(Capitalize(category.value)) else None
  }

  /** The price tag reads the raw `price_level` entry, with no default. */
  function PriceTag(level: Field<int>): (r: Option<string>)
    ensures r.Some? <==> level.Present? && level.value in {0, 1, 4}
    ensures level == Present(0) ==> r == Some("Free")
    ensures level == Present(1) ==> r == Some("Budget-friendly")
    ensures level == Present(4) ==> r == Some("Luxury")
  {
    match level
    case Present(0) => Some("Free")
    case Present(1) => Some("Budget-friendly")
    case Present(4) => Some("Luxury")
    case _ => None
  }

  /** `rating and float(rating) >= 4.7`: the truthiness test adds nothing,
      since a rating of at least 4.7 is never 0. */
  predicate HighlyRated(rating: Field<real>)
    ensures HighlyRated(rating) <==> rating.Present? && rating.value >= 4.7
  {
    rating.Present? && rating.value != 0.0 && rating.value >= 4.7
  }

  /** `distance and distance < 1`: a distance of exactly 0 is falsy. A
      nearby activity always shows its distance in metres. */
  predicate Nearby(distance: Field<real>)
    ensures Nearby(distance) ==>
      var shown := FormatDistance(distance.Get());
      |shown| >= 3 && shown[|shown| - 2..] == " m"
  {
    distance.Present? && distance.value != 0.0 && distance.value < 1.0
  }

  function Count(b: bool): nat { if b then 1 else 0 }

  /** `_generate_tags(activity)`: each of the four rules adds at most one
      tag, in rule order, so a rule's tag sits after the tags of the rules
      before it that fired. */
  function GenerateTags(a: RawActivity): (r: seq<string>)
    ensures
      var c, p, h, n :=
        Count(CategoryTag(a.category).Some?), Count(PriceTag(a.priceLevel).Some?),
        Count(HighlyRated(a.rating)), Count(Nearby(a.distance));
      && |r| == c + p + h + n <= 4
      && (CategoryTag(a.category).Some? ==> r[0] == CategoryTag(a.category).value)
      && (PriceTag(a.priceLevel).Some? ==> r[c] == PriceTag(a.priceLevel).value)
      && (HighlyRated(a.rating) ==> r[c + p] == "Highly rated")
      && (Nearby(a.distance) ==> r[c + p + h] == "Nearby")
  {
    var byCategory := match CategoryTag(a.category) case Some(t) => [t] case None => [];
    var byPrice := match PriceTag(a.priceLevel) case Some(t) => [t] case None => [];
    var byRating := if HighlyRated(a.rating) then ["Highly rated"] else [];
    var byDistance := if Nearby(a.distance) then ["Nearby"] else [];
    byCategory + byPrice + byRating + byDistance
  }

  /** Every tag is the capitalised category or one of five fixed labels. */
  lemma TagVocabulary(a: RawActivity)
    ensures forall t :: t in GenerateTags(a) ==>
      || (a.category.Present? && t == Capitalize(a.category.value))
      || t in ["Free", "Budget-friendly", "Luxury", "Highly rated", "Nearby"]
  {
  }

  // ---------------------------------------------------------------------
  // Records
  // ---------------------------------------------------------------------

  /** One entry of `format_results`. */
  function FormatActivity(a: RawActivity): (r: Formatted)
    ensures r.id == a.id.Get() && r.name == a.name.Get() && r.category == a.category.Get()
    ensures a.location.None? ==> r.address == Some("Unknown") && r.lat.None? && r.lng.None?
    ensures a.location.Some? ==>
      var l := a.location.value;
      && (l.address.Missing? ==> r.address == Some("Unknown"))
      && (l.address.Null? ==> r.address.None?)
      && (l.address.Present? ==> r.address == Some(l.address.value))
      && r.lat == l.lat.Get() && r.lng == l.lng.Get()
    ensures a.priceLevel.Missing? ==> r.priceLevel == Some(0) && r.price == "Free"
    ensures a.priceLevel.Null? ==> r.priceLevel.None? && r.price == "Unknown"
    ensures a.priceLevel.Present? ==> r.priceLevel == Some(a.priceLevel.value)
    ensures r.price == FormatPriceLevel(r.priceLevel)
    ensures a.rating.Missing? ==> r.rating == Text("N/A")
    ensures a.rating.Null? ==> r.rating.NoValue?
    ensures a.rating.Present? ==> r.rating == Value(a.rating.value)
    ensures r.hours == FormatHours(a.openingHours.GetOr([]))
    ensures a.description.Missing? ==> r.description == Some("")
    ensures a.description.Null? ==> r.description.None?
    ensures a.description.Present? ==> r.description == Some(a.description.value)
    ensures r.distanceValue == a.distance.Get()
    ensures r.distance == FormatDistance(r.distanceValue)
    ensures r.tags == GenerateTags(a)
  {
    var level := a.priceLevel.GetOr(0);
    Formatted(
      a.id.Get(), a.name.Get(), a.category.Get(),
      AddressOf(a), LatOf(a), LngOf(a),
      FormatPriceLevel(level), level,
      a.rating.GetOrText("N/A"),
      FormatHours(HoursOf(a)),
      a.description.GetOr(""),
      FormatDistance(a.distance.Get()), a.distance.Get(),
      GenerateTags(a))
  }

  /** `format_results(activities)`: nothing for None or an empty list,
      otherwise one formatted entry per activity, in order. */
  function FormatResults(activities: Option<seq<RawActivity>>): (r: seq<Formatted>)
    ensures activities.None? ==> r == []
    ensures activities.Some? ==> |r| == |activities.value|
    ensures activities.Some? ==> forall i :: 0 <= i < |r| ==> r[i] == FormatActivity(activities.value[i])
  {
    if activities.None? || activities.value == [] then []
    else seq(|activities.value|, i requires 0 <= i < |activities.value| => FormatActivity(activities.value[i]))
  }

  /** A missing price level reads as 0 for the display fields, but the tag
      rule sees the absent entry and adds no price tag: the tags are those of
      a mid-range level. */
  lemma MissingPriceNoFreeTag(a: RawActivity)
    requires a.priceLevel.Missing?
    ensures FormatActivity(a).price == "Free" && FormatActivity(a).priceLevel == Some(0)
    ensures GenerateTags(a) == GenerateTags(a.(priceLevel := Present(2)))
    ensures GenerateTags(a) != GenerateTags(a.(priceLevel := Present(0)))
  {
    var b := a.(priceLevel := Present(0));
    assert |GenerateTags(b)| == |GenerateTags(a)| + 1;
  }

  /** A distance of exactly zero is shown as "0 m" but is not "Nearby": the
      tags are those of an activity with no distance at all. */
  lemma ZeroDistanceNotNearby(a: RawActivity)
    requires a.distance == Present(0.0)
    ensures FormatActivity(a).distance == "0 m"
    ensures FormatActivity(a).tags == FormatActivity(a.(distance := Missing)).tags
  {
    RoundInteger(0);
  }

  /** Any other distance under one kilometre is "Nearby", and its tag comes
      last. */
  lemma ShortDistanceNearby(a: RawActivity)
    requires a.distance.Present? && 0.0 < a.distance.value < 1.0
    ensures var t := FormatActivity(a).tags;
      |t| >= 1 && t[|t| - 1] == "Nearby"
  {
  }
}
