/** The public spot list (components/spots-list.tsx): the store query built
    from the filter values, the sort the `sort` value selects, and which of
    the three views the result renders as. */
module SpotsList {
  import opened Common
  import opened Text
  import opened Seqs
  import opened Query
  import opened AdminSpots

  /** The five URL-driven props; an absent one is "". */
  datatype SpotParams = SpotParams(search: string, difficulty: string, waveType: string, season: string, sort: string)

  /** A filter value that constrains the query: non-empty and not "any". */
  predicate Active(v: string) { v != "" && v != "any" }

  /** The query object: a case-insensitive name match for a non-empty
      search, equality on difficulty (parsed by `Number.parseInt`, so a
      `0x` prefix reads hexadecimal), wave type and best season for each
      active value, all of them together. A difficulty that does not parse
      never reaches a match: the load fails first (`LoadSpots`). */
  predicate SpotMatches(s: Spot, p: SpotParams) {
    (p.search != "" ==> ContainsCI(s.name, p.search)) &&
    (Active(p.difficulty) ==> ParseInt(p.difficulty).Some? && s.difficulty == ParseInt(p.difficulty).value as real) &&
    (Active(p.waveType) ==> s.waveType == p.waveType) &&
    (Active(p.season) ==> s.bestSeason == p.season)
  }

  datatype SortKey = NameAscending | DifficultyAscending | DifficultyDescending | NewestFirstKey

  /** The `switch (sort)`; anything unrecognised sorts by name. */
  function SortOption(sort: string): (k: SortKey)
    ensures k == DifficultyAscending <==> sort == "difficulty-asc"
    ensures k == DifficultyDescending <==> sort == "difficulty-desc"
    ensures k == NewestFirstKey <==> sort == "newest"
    ensures k == NameAscending <==> sort != "difficulty-asc" && sort != "difficulty-desc" && sort != "newest"
  {
    match sort
    case "name" => NameAscending
    case "difficulty-asc" => DifficultyAscending
    case "difficulty-desc" => DifficultyDescending
    case "newest" => NewestFirstKey
    case _ => NameAscending
  }

  /** Code-unit-wise lexicographic order, the store's default string order. */
  predicate LexLe(a: string, b: string) {
    a == [] || (b != [] && (a[0] < b[0] || (a[0] == b[0] && LexLe(a[1..], b[1..]))))
  }

  lemma {:induction false} LexLeTotal(a: string, b: string)
    ensures LexLe(a, b) || LexLe(b, a)
  {
    if a != [] && b != [] && a[0] == b[0] {
      LexLeTotal(a[1..], b[1..]);
    }
  }

  lemma {:induction false} LexLeTransitive(a: string, b: string, c: string)
    requires LexLe(a, b) && LexLe(b, c)
    ensures LexLe(a, c)
  {
    if a != [] && b != [] && c != [] && a[0] == b[0] && b[0] == c[0] {
      LexLeTransitive(a[1..], b[1..], c[1..]);
    }
  }

  /** The comparison each sort key induces on spots. */
  function Before(k: SortKey): (Spot, Spot) -> bool {
    match k
    case NameAscending => (x: Spot, y: Spot) => LexLe(x.name, y.name)
    case DifficultyAscending => (x: Spot, y: Spot) => x.difficulty <= y.difficulty
    case DifficultyDescending => (x: Spot, y: Spot) => x.difficulty >= y.difficulty
    case NewestFirstKey => (x: Spot, y: Spot) => x.createdAt >= y.createdAt
  }

  lemma BeforeIsPreorder(k: SortKey)
    ensures TotalPreorder(Before(k))
  {
    if k == NameAscending {
      forall x: Spot, y: Spot ensures Before(k)(x, y) || Before(k)(y, x) {
        LexLeTotal(x.name, y.name);
      }
      forall x: Spot, y: Spot, z: Spot | Before(k)(x, y) && Before(k)(y, z) ensures Before(k)(x, z) {
        LexLeTransitive(x.name, y.name, z.name);
      }
    }
  }

  /** `SurfSpot.find(query).sort(sortOption)`: exactly the matching spots,
      ordered by the selected key. */
  function FindSpots(all: seq<Spot>, p: SpotParams): (r: seq<Spot>)
    ensures multiset(r) == multiset(Filter(all, (s: Spot) => SpotMatches(s, p)))
    ensures forall s :: s in r <==> s in all && SpotMatches(s, p)
    ensures Sorted(r, Before(SortOption(p.sort)))
  {
    BeforeIsPreorder(SortOption(p.sort));
    var r := SortBy(Filter(all, (s: Spot) => SpotMatches(s, p)), Before(SortOption(p.sort)));
    assert forall s :: s in r <==> s in multiset(r);
    r
  }

  /** `getSurfSpots`: an active difficulty that `Number.parseInt` cannot
      read puts NaN in the query, which the store's cast to the numeric
      `difficulty` path refuses, so the load throws; otherwise the spots
      the query finds. */
  function LoadSpots(all: seq<Spot>, p: SpotParams): (r: Option<seq<Spot>>)
    ensures r.None? <==> Active(p.difficulty) && ParseInt(p.difficulty).None?
    ensures r.Some? ==> r.value == FindSpots(all, p)
  {
    if Active(p.difficulty) && ParseInt(p.difficulty).None? then None
    else Some(FindSpots(all, p))
  }

  /** What the component renders: the error alert when the load failed,
      the "No surf spots found" notice for an empty result, else one card
      per spot in order. */
  datatype View = LoadError | NoSpotsFound | Cards(spots: seq<Spot>)

  function Render(loaded: Option<seq<Spot>>): (v: View)
    ensures loaded.None? <==> v == LoadError
    ensures v == NoSpotsFound <==> loaded == Some([])
    ensures v.Cards? ==> loaded.Some? && v.spots == loaded.value && |v.spots| > 0
  {
    match loaded
    case None => LoadError
    case Some(spots) => if |spots| == 0 then NoSpotsFound else Cards(spots)
  }

  /** "any" and "" are interchangeable for the three equality filters. */
  lemma AnyIsNoFilter(s: Spot, p: SpotParams)
    ensures SpotMatches(s, p.(difficulty := "any", waveType := "any", season := "any")) ==
            SpotMatches(s, p.(difficulty := "", waveType := "", season := ""))
  {
  }

  /** A plain difficulty digit string selects exactly the spots with that
      difficulty. */
  lemma DifficultyDigits(s: Spot, p: SpotParams)
    requires p.search == "" && !Active(p.waveType) && !Active(p.season)
    requires p.difficulty != [] && AllDigits(p.difficulty)
    ensures SpotMatches(s, p) <==> s.difficulty == DigitsValue(p.difficulty) as real
  {
    ParseIntOfDigits(p.difficulty);
  }

  /** A `0x`-prefixed difficulty is read in base 16: `0x3` selects the
      difficulty-3 spots. */
  lemma HexDifficulty(s: Spot, p: SpotParams, h: string)
    requires p.search == "" && !Active(p.waveType) && !Active(p.season)
    requires h != [] && AllHexDigits(h) && p.difficulty == "0x" + h
    ensures SpotMatches(s, p) <==> s.difficulty == HexValue(h) as real
  {
    ParseIntOfHex(h);
  }

  /** A difficulty with no leading digit, such as `abc`, shows the load
      error rather than an empty list. */
  lemma UnreadableDifficultyFails(all: seq<Spot>, p: SpotParams)
    requires p.difficulty == "abc"
    ensures Render(LoadSpots(all, p)) == LoadError
  {
    ParseIntNaN();
  }

  /** A readable (or inactive) difficulty never makes the load fail. */
  lemma ReadableDifficultyLoads(all: seq<Spot>, p: SpotParams)
    requires !Active(p.difficulty) || ParseInt(p.difficulty).Some?
    ensures Render(LoadSpots(all, p)) != LoadError
  {
  }
}
