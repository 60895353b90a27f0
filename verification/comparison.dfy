/** Where the two result formatters agree and where they differ. */
module FormatterComparison {
  import opened Wrappers
  import opened Records
  import FilterAgent
  import SummaryAgent
  import DataAgent

  /** The price strings agree exactly on None and the levels 0 to 4. */
  lemma PriceFormattersAgree(level: Option<int>)
    ensures FilterAgent.FormatPriceLevel(level) == SummaryAgent.FormatPriceLevel(level)
      <==> level.None? || 0 <= level.value <= 4
  {
    if level.Some? && level.value > 4 {
      assert SummaryAgent.FormatPriceLevel(level)[0] == '$';
    }
  }

  /** Level 5 is "Unknown" to one formatter and "$$$$$" to the other. */
  lemma LevelFiveDiffers()
    ensures FilterAgent.FormatPriceLevel(Some(5)) == "Unknown"
    ensures SummaryAgent.FormatPriceLevel(Some(5)) == "$$$$$"
  {
  }

  /** The distance strings agree exactly when there is no distance or it is
      at least one kilometre. */
  lemma DistanceFormattersAgree(distance: Option<real>)
    ensures FilterAgent.FormatDistance(distance) == SummaryAgent.FormatDistance(distance)
      <==> distance.None? || distance.value >= 1.0
  {
    if distance.Some? && distance.value < 1.0 {
      var f := FilterAgent.FormatDistance(distance);
      var s := SummaryAgent.FormatDistance(distance);
      assert f[|f| - 2] == ' ' && s[|s| - 2] == 'k';
    }
  }

  /** Formatting one activity both ways: the fields both formatters write
      agree, except the price and distance strings under the conditions
      above. */
  lemma SharedFieldsAgree(a: RawActivity)
    ensures var f, s := FilterAgent.FormatActivity(a), SummaryAgent.FormatActivity(a);
      && f.id == s.id && f.name == s.name && f.category == s.category
      && f.address == s.address && f.lat == s.coordinates.lat && f.lng == s.coordinates.lng
      && f.rating == s.rating && f.hours == s.hours && f.description == s.description
      && (f.price == s.price <==> a.priceLevel.Null? || a.priceLevel.Missing? || 0 <= a.priceLevel.value <= 4)
      && (f.distance == s.distance <==> !a.distance.Present? || a.distance.value >= 1.0)
  {
    PriceFormattersAgree(a.priceLevel.GetOr(0));
    DistanceFormattersAgree(a.distance.Get());
  }

  /** On the data agent's records both formatters give the same, known,
      price string. */
  lemma CatalogPricesAgree(centre: Coordinates, d: Option<string>, i: nat)
    requires i < 10
    ensures var a := AsRaw(DataAgent.GetActivities(centre, d)[i]);
      && FilterAgent.FormatActivity(a).price == SummaryAgent.FormatActivity(a).price
      && FilterAgent.FormatActivity(a).price != "Unknown"
  {
    DataAgent.ActivityPrices(centre, d);
    var a := AsRaw(DataAgent.GetActivities(centre, d)[i]);
    SharedFieldsAgree(a);
  }
}
