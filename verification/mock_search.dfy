/** The mock search agent: a four-entry catalogue, filtered by type,
    shuffled and cut to three results, and a lookup of details by id. */
module MockSearch {
  import opened Wrappers
  import opened Numerals

  datatype CatalogItem = CatalogItem(
    id: string, name: string, kind: string, location: string,
    description: string, rating: real, imageUrl: string)

  const Catalog: seq<CatalogItem> := [
    CatalogItem("act1", "Golden Gate Park", "park", "San Francisco, CA",
      "A large urban park with gardens, lakes, and museums", 4.8, "https://example.com/golden-gate.jpg"),
    CatalogItem("act2", "The Exploratorium", "museum", "San Francisco, CA",
      "Interactive science museum with hands-on exhibits", 4.7, "https://example.com/exploratorium.jpg"),
    CatalogItem("act3", "Fisherman's Wharf", "attraction", "San Francisco, CA",
      "Popular tourist area with seafood restaurants and shops", 4.5, "https://example.com/fishermans-wharf.jpg"),
    CatalogItem("act4", "Tartine Bakery", "restaurant", "San Francisco, CA",
      "Famous bakery known for its bread and pastries", 4.6, "https://example.com/tartine.jpg")
  ]

  predicate Distinct<T(==)>(s: seq<T>) {
    forall i, j :: 0 <= i < j < |s| ==> s[i] != s[j]
  }

  /** No two catalogue entries share an id. */
  lemma CatalogIdsDistinct()
    ensures forall i, j :: 0 <= i < j < |Catalog| ==> Catalog[i].id != Catalog[j].id
  {
  }

  // ---------------------------------------------------------------------
  // Shuffling
  // ---------------------------------------------------------------------

  /** Exchanges the entries at `i` and `j`. */
  function Swap<T>(s: seq<T>, i: nat, j: nat): (r: seq<T>)
    requires i < |s| && j < |s|
    ensures |r| == |s| && r[i] == s[j] && r[j] == s[i]
    ensures forall k :: 0 <= k < |s| && k != i && k != j ==> r[k] == s[k]
  {
    s[i := s[j]][j := s[i]]
  }

  /** One exchange of a shuffle; a pair naming a position outside `s`
      leaves it as it is. */
  function Step<T>(s: seq<T>, swap: (nat, nat)): (r: seq<T>)
    ensures |r| == |s|
  {
    if swap.0 < |s| && swap.1 < |s| then Swap(s, swap.0, swap.1) else s
  }

  /** `random.shuffle(s)`, driven by an arbitrary list of exchanges. Every
      permutation arises from some list, so a property proved for all lists
      holds for every outcome of the shuffle. */
  function Shuffle<T>(s: seq<T>, swaps: seq<(nat, nat)>): (r: seq<T>)
    ensures |r| == |s|
    decreases |swaps|
  {
    if swaps == [] then s else Shuffle(Step(s, swaps[0]), swaps[1..])
  }

  lemma SwapPermutes<T>(s: seq<T>, i: nat, j: nat)
    requires i < |s| && j < |s|
    ensures multiset(Swap(s, i, j)) == multiset(s)
  {
  }

  /** Shuffling rearranges: the result has the same elements, each as
      often as before. */
  lemma {:induction false} ShufflePermutes<T>(s: seq<T>, swaps: seq<(nat, nat)>)
    ensures multiset(Shuffle(s, swaps)) == multiset(s)
    decreases |swaps|
  {
    if swaps != [] {
      var t := Step(s, swaps[0]);
      if swaps[0].0 < |s| && swaps[0].1 < |s| {
        SwapPermutes(s, swaps[0].0, swaps[0].1);
      }
      ShufflePermutes(t, swaps[1..]);
    }
  }

  /** Shuffling a list without repeats gives a list without repeats. */
  lemma {:induction false} ShuffleKeepsDistinct<T>(s: seq<T>, swaps: seq<(nat, nat)>)
    requires Distinct(s)
    ensures Distinct(Shuffle(s, swaps))
    decreases |swaps|
  {
    if swaps != [] {
      var (i, j) := swaps[0];
      var t := Step(s, swaps[0]);
      if i < |s| && j < |s| {
        forall a, b | 0 <= a < b < |t|
          ensures t[a] != t[b]
        {
          var a' := if a == i then j else if a == j then i else a;
          var b' := if b == i then j else if b == j then i else b;
          assert t[a] == s[a'] && t[b] == s[b'] && a' != b';
        }
      }
      ShuffleKeepsDistinct(t, swaps[1..]);
    }
  }

  /** Membership survives a rearrangement. */
  lemma PermutationMembers<T>(a: seq<T>, b: seq<T>)
    requires multiset(a) == multiset(b)
    ensures forall x :: x in a <==> x in b
  {
    forall x
      ensures x in a <==> x in b
    {
      assert x in a <==> x in multiset(a);
      assert x in b <==> x in multiset(b);
    }
  }

  // ---------------------------------------------------------------------
  // Search
  // ---------------------------------------------------------------------

  /** `[act for act in activities if act["type"] in kinds]`. */
  function OfKinds(items: seq<CatalogItem>, kinds: seq<string>): (r: seq<CatalogItem>)
    ensures |r| <= |items|
    ensures forall x :: x in r <==> x in items && x.kind in kinds
    ensures Distinct(items) ==> Distinct(r)
    decreases |items|
  {
    if items == [] then []
    else
      var rest := OfKinds(items[1..], kinds);
      assert forall x :: x in items[1..] ==> x in items;
      if items[0].kind in kinds then
        assert Distinct(items) ==> items[0] !in items[1..];
        [items[0]] + rest
      else rest
  }

  /** The activities a search may return: all of them when no kinds are
      requested, otherwise those of a requested kind. */
  function Eligible(items: seq<CatalogItem>, kinds: seq<string>): seq<CatalogItem> {
    if kinds == [] then items else OfKinds(items, kinds)
  }

  /** The catalogue after a search and the results it returned. */
  datatype SearchOutcome = SearchOutcome(catalog: seq<CatalogItem>, results: seq<CatalogItem>)

  /** `search(location, radius, activity_types)`. With no kinds requested
      the catalogue list itself is shuffled in place; otherwise a filtered
      copy is shuffled and the catalogue keeps its order. `location` and
      `radius` are accepted and ignored. */
  function Search(catalog: seq<CatalogItem>, location: string, radius: int, kinds: seq<string>,
                  swaps: seq<(nat, nat)>): (r: SearchOutcome)
    ensures |r.results| == Min(3, |Eligible(catalog, kinds)|) <= 3
    ensures forall x :: x in r.results ==> x in catalog
    ensures kinds != [] ==> forall x :: x in r.results ==> x.kind in kinds
    ensures Distinct(catalog) ==> Distinct(r.results)
    ensures multiset(r.catalog) == multiset(catalog)
    ensures kinds != [] ==> r.catalog == catalog
  {
    var eligible := Eligible(catalog, kinds);
    var shuffled := Shuffle(eligible, swaps);
    ShufflePermutes(eligible, swaps);
    PermutationMembers(eligible, shuffled);
    assert Distinct(catalog) ==> Distinct(shuffled) by {
      if Distinct(catalog) {
        ShuffleKeepsDistinct(eligible, swaps);
      }
    }
    var results := shuffled[..Min(3, |shuffled|)];
    assert forall x :: x in results ==> x in shuffled;
    SearchOutcome(if kinds == [] then shuffled else catalog, results)
  }

  /** `location` and `radius` never change the outcome. */
  lemma SearchIgnoresLocation(catalog: seq<CatalogItem>, l1: string, l2: string, r1: int, r2: int,
                              kinds: seq<string>, swaps: seq<(nat, nat)>)
    ensures Search(catalog, l1, r1, kinds, swaps) == Search(catalog, l2, r2, kinds, swaps)
  {
  }

  /** A single exchange with the front brings any element to the front. */
  lemma ShuffleToFront<T>(s: seq<T>, k: nat)
    requires k < |s|
    ensures Shuffle(s, [(0, k)])[0] == s[k]
  {
    var swaps: seq<(nat, nat)> := [(0, k)];
    assert swaps[1..] == [];
    var t := Step(s, (0, k));
    assert Shuffle(s, swaps) == Shuffle(t, []) == t;
  }

  /** Every eligible activity can come first: some shuffle puts it there. */
  lemma AnyEligibleCanLead(catalog: seq<CatalogItem>, kinds: seq<string>, k: nat)
    requires k < |Eligible(catalog, kinds)|
    ensures Search(catalog, "", 0, kinds, [(0, k)]).results[0] == Eligible(catalog, kinds)[k]
  {
    ShuffleToFront(Eligible(catalog, kinds), k);
  }

  // ---------------------------------------------------------------------
  // Details
  // ---------------------------------------------------------------------

  datatype Review = Review(rating: int, text: string)

  /** `get_details(activity_id)`: the catalogue entry's own fields plus
      fixed contact details and two reviews, or an error entry. */
  datatype DetailsResult =
    | Details(item: CatalogItem, hours: string, address: string, phone: string,
              website: string, reviews: seq<Review>)
    | NotFound(error: string)

  /** The position of the first entry with the given id. */
  function FindId(items: seq<CatalogItem>, id: string): (r: Option<nat>)
    ensures r.None? <==> forall i :: 0 <= i < |items| ==> items[i].id != id
    ensures r.Some? ==>
      && r.value < |items| && items[r.value].id == id
      && forall i :: 0 <= i < r.value ==> items[i].id != id
    decreases |items|
  {
    if items == [] then None
    else if items[0].id == id then Some(0)
    else match FindId(items[1..], id)
      case None => None
      case Some(i) => Some(i + 1)
  }

  /** Entry `k` is the first one carrying `id`. */
  predicate FirstWithId(items: seq<CatalogItem>, id: string, k: nat)
    requires k < |items|
  {
    items[k].id == id && forall i :: 0 <= i < k ==> items[i].id != id
  }

  function GetDetails(items: seq<CatalogItem>, id: string): (r: DetailsResult)
    ensures r.NotFound? <==> forall i :: 0 <= i < |items| ==> items[i].id != id
    ensures r.NotFound? ==> r.error == "Activity not found"
    ensures r.Details? ==> exists k :: 0 <= k < |items| && FirstWithId(items, id, k) && r.item == items[k]
    ensures r.Details? ==>
      && r.hours == "9:00 AM - 5:00 PM"
      && r.address == "123 Main St, San Francisco, CA"
      && r.phone == "(555) 123-4567"
      && r.website == "https://example.com"
      && r.reviews == [Review(5, "Amazing place!"), Review(4, "Great experience")]
  {
    match FindId(items, id)
    case None => NotFound("Activity not found")
    case Some(i) =>
      Details(items[i], "9:00 AM - 5:00 PM", "123 Main St, San Francisco, CA", "(555) 123-4567",
        "https://example.com", [Review(5, "Amazing place!"), Review(4, "Great experience")])
  }

  /** With distinct ids, the details are those of the one entry with that id. */
  lemma DetailsOfEntry(items: seq<CatalogItem>, k: nat)
    requires k < |items|
    requires forall i, j :: 0 <= i < j < |items| ==> items[i].id != items[j].id
    ensures GetDetails(items, items[k].id).Details?
    ensures GetDetails(items, items[k].id).item == items[k]
  {
    var i := FindId(items, items[k].id).value;
    assert !(i < k) && !(k < i);
  }

  /** Every catalogue entry can be looked up. */
  lemma CatalogDetails(k: nat)
    requires k < |Catalog|
    ensures GetDetails(Catalog, Catalog[k].id).Details?
    ensures GetDetails(Catalog, Catalog[k].id).item == Catalog[k]
  {
    CatalogIdsDistinct();
    DetailsOfEntry(Catalog, k);
  }

  /** An id outside the catalogue gives the error entry. */
  lemma UnknownIdNotFound(id: string)
    requires id == "act5"
    ensures GetDetails(Catalog, id) == NotFound("Activity not found")
  {
    assert forall i :: 0 <= i < |Catalog| ==> Catalog[i].id[3] != id[3];
  }
}
