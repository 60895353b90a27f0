/** Worked examples of location resolution over the city table. Each
    example names its literal input through a parameter, and each
    evaluation step on it is its own small lemma. */
module LocationExamples {
  import opened Wrappers
  import opened Records
  import opened Text
  import opened LocationAgent

  /** No key of the table equals `c` when each differs in length or first letter. */
  lemma NoKeyIs(c: string)
    requires c != []
    requires forall i :: 0 <= i < |Database| ==> |Database[i].0| != |c| || Database[i].0[0] != c[0]
    ensures Lookup(Database, c) == None
  {
  }

  /** With no exact entry, the first entry that partially matches wins. */
  lemma ResolveFirstPartial(s: string, c: string)
    requires s != [] && Normalize(s) == c
    requires Lookup(Database, c) == None && PartialMatch(Database[0].0, c)
    ensures Resolve(Some(s)) == Some(Database[0].1)
  {
  }

  /** An input that cleans to a key resolves to that key's entry. */
  lemma ResolveExact(s: string, c: string, k: nat, at: Coordinates)
    requires s != [] && Normalize(s) == c
    requires k < |Database| && Database[k] == (c, at)
    ensures Resolve(Some(s)) == Some(at)
  {
  }

  lemma StripNewYorkCity()
    ensures Strip("New York City") == "New York City"
  {
    StripUnpadded("New York City");
  }

  lemma LowerNewYorkCity()
    ensures Lower("New York City") == "new york city"
  {
  }

  lemma NormalizeNewYorkCity()
    ensures Normalize("New York City") == "new york city"
  {
    StripNewYorkCity();
    LowerNewYorkCity();
  }

  lemma NewYorkInNewYorkCity(c: string)
    requires c == "new york city"
    ensures PartialMatch(Database[0].0, c)
  {
    assert OccursAt(c, "new york", 0);
  }

  /** "New York City" has no exact entry; "new york" is inside it. */
  lemma ResolveNewYorkCity(s: string)
    requires s == "New York City"
    ensures Resolve(Some(s)) == Some(Coordinates(40.7128, -74.0060))
  {
    var c := "new york city";
    NormalizeNewYorkCity();
    NoKeyIs(c);
    NewYorkInNewYorkCity(c);
    ResolveFirstPartial(s, c);
  }

  lemma LowerParis()
    ensures Lower("Paris") == "paris"
  {
  }

  lemma NormalizeParis()
    ensures Normalize("Paris") == "paris"
  {
    StripUnpadded("Paris");
    LowerParis();
  }

  /** No key holds a 'p', so "paris" is inside none of them. */
  lemma ParisInNoKey(c: string)
    requires c == "paris"
    ensures forall i :: 0 <= i < |Database| ==> !Contains(Database[i].0, c)
  {
    forall i | 0 <= i < |Database|
      ensures !Contains(Database[i].0, c)
    {
      assert 'p' !in Database[i].0;
      NotContainsByChar(Database[i].0, c, 0);
    }
  }

  /** Every key holds a character that "paris" lacks. */
  lemma NoKeyInParis(c: string)
    requires c == "paris"
    ensures forall i :: 0 <= i < |Database| ==> !Contains(c, Database[i].0)
  {
    NotContainsByChar(c, Database[0].0, 0);
    NotContainsByChar(c, Database[1].0, 0);
    NotContainsByChar(c, Database[2].0, 0);
    NotContainsByChar(c, Database[3].0, 2);
    NotContainsByChar(c, Database[4].0, 0);
    NotContainsByChar(c, Database[5].0, 1);
    NotContainsByChar(c, Database[6].0, 0);
    NotContainsByChar(c, Database[7].0, 0);
    NotContainsByChar(c, Database[8].0, 0);
    NotContainsByChar(c, Database[9].0, 1);
  }

  /** A name that matches nothing falls back to San Francisco, whatever
      its case. */
  lemma ResolveParis(s: string)
    requires s == "Paris"
    ensures Resolve(Some(s)) == Some(DefaultCoordinates)
  {
    NormalizeParis();
    ParisInNoKey("paris");
    NoKeyInParis("paris");
  }

  lemma StripChicago()
    ensures Strip("  CHICAGO ") == "CHICAGO"
  {
    assert "  CHICAGO " == "  " + "CHICAGO" + " ";
    StripPadded("  ", "CHICAGO", " ");
  }

  lemma LowerChicago()
    ensures Lower("CHICAGO") == "chicago"
  {
  }

  lemma NormalizeChicago()
    ensures Normalize("  CHICAGO ") == "chicago"
  {
    StripChicago();
    LowerChicago();
  }

  lemma LowerChicagoPlain(c: string)
    requires c == "chicago"
    ensures Lower(c) == c
  {
  }

  lemma NormalizeChicagoPlain(c: string)
    requires c == "chicago"
    ensures Normalize(c) == c
  {
    StripUnpadded(c);
    LowerChicagoPlain(c);
  }

  /** "chicago" is the third key. */
  lemma ChicagoEntry(c: string)
    requires c == "chicago"
    ensures Database[2] == (c, Coordinates(41.8781, -87.6298))
  {
  }

  /** A key resolves to its own entry. */
  lemma ResolveChicagoPlain(plain: string)
    requires plain == "chicago"
    ensures Resolve(Some(plain)) == Some(Coordinates(41.8781, -87.6298))
  {
    var at := Coordinates(41.8781, -87.6298);
    assert Normalize(plain) == plain by { NormalizeChicagoPlain(plain); }
    assert Database[2] == (plain, at) by { ChicagoEntry(plain); }
    ResolveExact(plain, plain, 2, at);
  }

  /** Surrounding whitespace and upper case do not matter. */
  lemma ResolveChicago(padded: string)
    requires padded == "  CHICAGO "
    ensures Resolve(Some(padded)) == Some(Coordinates(41.8781, -87.6298))
  {
    NormalizeChicago();
    ResolveIgnoresCaseAndSpace(Database, padded);
    ResolveChicagoPlain("chicago");
  }

  /** Whitespace-only input lands on the first entry, New York. */
  lemma ResolveBlank(s: string)
    requires s == "   "
    ensures Resolve(Some(s)) == Some(Coordinates(40.7128, -74.0060))
  {
    ResolveWhitespaceOnly(Database, s);
  }

  /** The empty string and non-string input resolve to nothing. */
  lemma ResolveEmpty()
    ensures Resolve(Some("")) == None && Resolve(None) == None
  {
  }
}
