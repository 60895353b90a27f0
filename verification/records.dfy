/** The record shapes shared by the agents: coordinates, the activity
    records the data agent produces, and the activity dictionaries the
    formatters read (where any key may be absent or None). */
module Records {
  import opened Wrappers

  /** A point given by latitude and longitude in degrees. */
  datatype Coordinates = Coordinates(lat: real, lng: real)

  /** The `location` entry of an activity: address and position. */
  datatype Place = Place(address: string, lat: real, lng: real)

  /** An activity record as the data agent builds it: every key present. */
  datatype ActivityRecord = ActivityRecord(
    id: string,
    name: string,
    category: string,
    location: Place,
    priceLevel: int,
    rating: real,
    openingHours: seq<string>,
    description: string)

  /** The `location` dictionary of an activity as the formatters read it. */
  datatype RawLocation = RawLocation(address: Field<string>, lat: Field<real>, lng: Field<real>)

  /** An activity dictionary as the formatters read it. `location` is None
      when the key is absent (the formatters then read an empty dictionary);
      `distance` is the key a filtering step would attach. */
  datatype RawActivity = RawActivity(
    id: Field<string>,
    name: Field<string>,
    category: Field<string>,
    location: Option<RawLocation>,
    priceLevel: Field<int>,
    rating: Field<real>,
    openingHours: Field<seq<string>>,
    description: Field<string>,
    distance: Field<real>)

  /** The dictionary a data-agent record is: every key present, no distance. */
  function AsRaw(a: ActivityRecord): RawActivity
  {
    RawActivity(
      Present(a.id), Present(a.name), Present(a.category),
      Some(RawLocation(Present(a.location.address), Present(a.location.lat), Present(a.location.lng))),
      Present(a.priceLevel), Present(a.rating), Present(a.openingHours), Present(a.description),
      Missing)
  }

  /** `location.get("address", "Unknown")` and friends, reading an absent
      `location` as an empty dictionary. */
  function AddressOf(a: RawActivity): Option<string> {
    match a.location
    case None => Some("Unknown")
    case Some(l) => l.address.GetOr("Unknown")
  }

  function LatOf(a: RawActivity): Option<real> {
    match a.location
    case None => None
    case Some(l) => l.lat.Get()
  }

  function LngOf(a: RawActivity): Option<real> {
    match a.location
    case None => None
    case Some(l) => l.lng.Get()
  }

  /** `activity.get("opening_hours", [])`. */
  function HoursOf(a: RawActivity): Option<seq<string>> {
    a.openingHours.GetOr([])
  }
}
