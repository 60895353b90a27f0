/** The data collection agent: a fixed catalogue of ten mock activities
    placed at fixed offsets around the requested centre. */
module DataAgent {
  import opened Wrappers
  import opened Records
  import Text

  /** The categories the API advertises to the frontend. */
  const ServedCategories: seq<string> :=
    ["food", "outdoors", "entertainment", "sports", "culture", "nightlife", "shopping"]

  /** One catalogue entry before it is placed: the position is an offset
      from the centre. */
  datatype Template = Template(
    id: string, name: string, category: string, address: string,
    dLat: real, dLng: real, priceLevel: int, rating: real,
    hours: string, description: string)

  const Templates: seq<Template> := [
    Template("1", "Central Park Walking Tour", "outdoors", "Central Park, New York",
      0.01, -0.01, 1, 4.5, "9:00 AM - 5:00 PM", "Guided tour through the historic Central Park."),
    Template("2", "Metropolitan Museum of Art", "culture", "1000 5th Ave, New York",
      -0.02, 0.01, 2, 4.8, "10:00 AM - 5:30 PM", "World-class art museum with extensive collections."),
    Template("3", "Broadway Show", "entertainment", "Times Square, New York",
      0.015, 0.02, 4, 4.7, "7:00 PM - 10:00 PM", "Live theatrical performance on Broadway."),
    Template("4", "Local Coffee Shop", "food", "123 Coffee Lane",
      -0.01, -0.02, 2, 4.3, "6:00 AM - 8:00 PM", "Cozy café with specialty coffee and pastries."),
    Template("5", "City Bike Tour", "outdoors", "456 Bike Avenue",
      0.02, 0.03, 3, 4.6, "10:00 AM - 4:00 PM", "Guided bicycle tour of city highlights."),
    Template("6", "Rooftop Bar", "nightlife", "789 Sky View",
      -0.03, 0.02, 3, 4.4, "4:00 PM - 2:00 AM", "Trendy rooftop bar with city views."),
    Template("7", "Shopping Mall", "shopping", "101 Retail Road",
      0.025, -0.015, 2, 4.0, "10:00 AM - 9:00 PM", "Large shopping center with various stores."),
    Template("8", "Local Sports Game", "sports", "202 Stadium Blvd",
      -0.025, -0.03, 3, 4.5, "Varies by game schedule", "Professional sports event at the local stadium."),
    Template("9", "Fine Dining Restaurant", "food", "303 Gourmet Street",
      0.008, -0.009, 4, 4.9, "5:00 PM - 11:00 PM", "Upscale restaurant with award-winning chef."),
    Template("10", "Modern Art Gallery", "culture", "404 Gallery Row",
      -0.012, 0.014, 1, 4.2, "11:00 AM - 6:00 PM", "Contemporary art gallery featuring local artists.")
  ]

  /** The ids are the decimal numerals "1" to "10", in order. */
  lemma TemplateIds()
    ensures forall i :: 0 <= i < |Templates| ==> Templates[i].id == Text.IntToDecimal(i + 1)
  {
    assert Text.IntToDecimal(10) == "10";
  }

  lemma TemplatePrices()
    ensures seq(|Templates|, i requires 0 <= i < |Templates| => Templates[i].priceLevel)
      == [1, 2, 4, 2, 3, 3, 2, 3, 4, 1]
  {
  }

  lemma TemplateCategories()
    ensures forall i :: 0 <= i < |Templates| ==> Templates[i].category in ServedCategories
  {
  }

  lemma TemplateOffsets()
    ensures forall i :: 0 <= i < |Templates| ==>
      Abs(Templates[i].dLat) <= 0.03 && Abs(Templates[i].dLng) <= 0.03
  {
  }

  lemma TemplateRatings()
    ensures forall i :: 0 <= i < |Templates| ==> 4.0 <= Templates[i].rating <= 4.9
  {
  }

  /** Places one template relative to `centre`. */
  function Place(t: Template, centre: Coordinates): ActivityRecord {
    ActivityRecord(t.id, t.name, t.category,
      Records.Place(t.address, centre.lat + t.dLat, centre.lng + t.dLng),
      t.priceLevel, t.rating, [t.hours], t.description)
  }

  function Abs(x: real): real { if x < 0.0 then -x else x }

  /** `get_activities(coords, datetime_str)`: the ten mock activities around
      `centre`, one per template, in template order. The datetime string is
      parsed in the source but the parsed value is never read, so it is
      accepted here and ignored. */
  function GetActivities(centre: Coordinates, datetimeStr: Option<string>): (r: seq<ActivityRecord>)
    ensures |r| == |Templates| == 10
    ensures forall i :: 0 <= i < |r| ==> r[i] == Place(Templates[i], centre)
  {
    seq(|Templates|, i requires 0 <= i < |Templates| => Place(Templates[i], centre))
  }

  /** The ids are "1" to "10" in order, hence pairwise distinct. */
  lemma ActivityIds(centre: Coordinates, d: Option<string>)
    ensures var r := GetActivities(centre, d);
      && (forall i :: 0 <= i < |r| ==> r[i].id == Text.IntToDecimal(i + 1))
      && (forall i, j :: 0 <= i < j < |r| ==> r[i].id != r[j].id)
  {
    var r := GetActivities(centre, d);
    TemplateIds();
    forall i, j | 0 <= i < j < |r|
      ensures r[i].id != r[j].id
    {
      Text.IntToDecimalInjective(i + 1, j + 1);
    }
  }

  /** Every price level is a valid 0-4 level; the levels are fixed. */
  lemma ActivityPrices(centre: Coordinates, d: Option<string>)
    ensures var r := GetActivities(centre, d);
      && (forall i :: 0 <= i < |r| ==> 0 <= r[i].priceLevel <= 4)
      && PriceLevels(r) == [1, 2, 4, 2, 3, 3, 2, 3, 4, 1]
  {
    var r := GetActivities(centre, d);
    TemplatePrices();
    assert PriceLevels(r) == seq(|Templates|, i requires 0 <= i < |Templates| => Templates[i].priceLevel);
  }

  /** Every category is one the API serves. */
  lemma ActivityCategories(centre: Coordinates, d: Option<string>)
    ensures var r := GetActivities(centre, d);
      forall i :: 0 <= i < |r| ==> r[i].category in ServedCategories
  {
    TemplateCategories();
  }

  /** Every activity lies within 0.03 degrees of the centre on each axis. */
  lemma ActivityOffsets(centre: Coordinates, d: Option<string>)
    ensures var r := GetActivities(centre, d);
      forall i :: 0 <= i < |r| ==>
        && Abs(r[i].location.lat - centre.lat) <= 0.03
        && Abs(r[i].location.lng - centre.lng) <= 0.03
  {
    TemplateOffsets();
  }

  /** Every activity has one opening-hours string and a rating in [4.0, 4.9]. */
  lemma ActivityHoursAndRatings(centre: Coordinates, d: Option<string>)
    ensures var r := GetActivities(centre, d);
      forall i :: 0 <= i < |r| ==> |r[i].openingHours| == 1 && 4.0 <= r[i].rating <= 4.9
  {
    TemplateRatings();
  }

  /** The price levels of a list of records, in order. */
  function PriceLevels(rs: seq<ActivityRecord>): seq<int> {
    seq(|rs|, i requires 0 <= i < |rs| => rs[i].priceLevel)
  }

  /** Moving the centre moves every activity by the same amount and changes
      nothing else; the datetime string never matters. */
  lemma ActivitiesFollowCentre(c1: Coordinates, c2: Coordinates, d1: Option<string>, d2: Option<string>, i: nat)
    requires i < 10
    ensures var a, b := GetActivities(c1, d1)[i], GetActivities(c2, d2)[i];
      && a.location.lat - c1.lat == b.location.lat - c2.lat
      && a.location.lng - c1.lng == b.location.lng - c2.lng
      && a.location.address == b.location.address
      && a.(location := b.location) == b
  {
  }
}
