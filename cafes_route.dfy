/** The café list endpoint (GET /api/cafes) and the café create endpoint
    (POST /api/cafes): filtering on the query flags, the per-café
    aggregates computed from the café's visits, and the name check and
    field defaults of a create. */
module CafesRoute {
  import opened Records
  import opened Lists
  import opened Text
  import opened Rounding

  // ---------------------------------------------------------------------
  // Filtering on the query flags

  /** The café's lower-cased name contains the lower-cased search term. */
  predicate NameMatches(c: Cafe, search: string)
  {
    Contains(ToLower(c.name), ToLower(search))
  }

  /** The name search ignores case on both sides: lower-casing the term
      first changes nothing. */
  lemma NameSearchIgnoresCase(c: Cafe, search: string)
    ensures NameMatches(c, ToLower(search)) == NameMatches(c, search)
  {
    ToLowerIdempotent(search);
  }

  /** A match is a position at which the lower-cased term occurs in the
      lower-cased name. */
  lemma NameMatchesAt(c: Cafe, search: string)
    ensures NameMatches(c, search) <==> OccursSomewhere(ToLower(c.name), ToLower(search))
  {
    ContainsAt(ToLower(c.name), ToLower(search));
  }

  /** What the GET handler keeps: with `unvisited=true` only cafés without
      visits, and with a non-empty `search` only cafés whose name matches. */
  predicate KeepCafe(c: Cafe, search: Option<string>, unvisited: bool)
  {
    (unvisited ==> c.visits == []) && (TruthyText(search) ==> NameMatches(c, search.value))
  }

  function Selected(cafes: seq<Cafe>, search: Option<string>, unvisited: bool): seq<Cafe>
  {
    Filter(cafes, c => KeepCafe(c, search, unvisited))
  }

  /** The reassignments of `filtered` in the GET handler. */
  method FilterCafes(cafes: seq<Cafe>, search: Option<string>, unvisited: bool)
    returns (filtered: seq<Cafe>)
    ensures filtered == Selected(cafes, search, unvisited)
    ensures forall c :: c in filtered <==> c in cafes && KeepCafe(c, search, unvisited)
    ensures Subsequence(filtered, cafes)
  {
    var noVisits := (c: Cafe) => |c.visits| == 0;
    filtered := cafes;
    if unvisited {
      filtered := Filter(filtered, noVisits);
    }
    if TruthyText(search) {
      var term := search.value;
      var matches := (c: Cafe) => NameMatches(c, term);
      if unvisited {
        FilterFilter(cafes, noVisits, matches, c => KeepCafe(c, search, unvisited));
      } else {
        FilterSame(cafes, matches, c => KeepCafe(c, search, unvisited));
      }
      filtered := Filter(filtered, matches);
    } else if unvisited {
      FilterSame(cafes, noVisits, c => KeepCafe(c, search, unvisited));
    } else {
      FilterKeepsAll(cafes, c => KeepCafe(c, search, unvisited));
    }
  }

  // ---------------------------------------------------------------------
  // Aggregates over a café's visits

  function Names(visits: seq<Visit>): (r: seq<string>)
    ensures |r| == |visits|
    ensures forall i :: 0 <= i < |visits| ==> r[i] == visits[i].visitorName
  {
    if visits == [] then []
    else Names(visits[..|visits| - 1]) + [visits[|visits| - 1].visitorName]
  }

  /** `visits.reduce((sum, v) => sum + rating, 0)` for one dimension. */
  function DimensionSum(visits: seq<Visit>, d: Dimension): int
  {
    if visits == [] then 0
    else DimensionSum(visits[..|visits| - 1], d) + Rating(visits[|visits| - 1], d)
  }

  /** The mean rating of one dimension; only defined when there is a visit,
      so no caller can divide by zero. */
  function Average(visits: seq<Visit>, d: Dimension): real
    requires |visits| > 0
  {
    DimensionSum(visits, d) as real / |visits| as real
  }

  /** The overall rating: the mean of the four per-dimension means. */
  function OverallRating(visits: seq<Visit>): real
    requires |visits| > 0
  {
    (Average(visits, Vibe) + Average(visits, Food) + Average(visits, Coffee) + Average(visits, Price)) / 4.0
  }

  /** The position of the visit whose date the lastVisit reduce keeps: it
      replaces its accumulator only on a strictly later date. */
  function LatestVisitIndex(visits: seq<Visit>): (r: Option<nat>)
    ensures r.None? <==> visits == []
    ensures r.Some? ==> r.value < |visits|
    ensures r.Some? ==> forall j :: 0 <= j < |visits| ==> visits[j].visitDate <= visits[r.value].visitDate
    ensures r.Some? ==> forall j :: 0 <= j < r.value ==> visits[j].visitDate < visits[r.value].visitDate
  {
    if visits == [] then None
    else
      var init := visits[..|visits| - 1];
      var latest := LatestVisitIndex(init);
      if latest.None? || visits[|visits| - 1].visitDate > init[latest.value].visitDate
      then Some(|visits| - 1)
      else latest
  }

  /** The lastVisit aggregate: null without visits, otherwise the latest
      date, taken from the first visit that has it. */
  function LastVisit(visits: seq<Visit>): (r: Option<int>)
    ensures r.None? <==> visits == []
    ensures r.Some? ==> exists k :: 0 <= k < |visits| && visits[k].visitDate == r.value
    ensures r.Some? ==> forall j :: 0 <= j < |visits| ==> visits[j].visitDate <= r.value
  {
    match LatestVisitIndex(visits)
    case None => None
    case Some(k) => Some(visits[k].visitDate)
  }

  /** counts holds, for each name in names, how often it occurs, and no
      other key. */
  ghost predicate CountsOf(counts: map<string, nat>, names: seq<string>)
  {
    && (forall n :: n in counts <==> n in names)
    && (forall n :: n in counts ==> counts[n] == multiset(names)[n])
  }

  /** `counts[name] = (counts[name] || 0) + 1`. */
  function Bump(counts: map<string, nat>, name: string): map<string, nat>
  {
    counts[name := (if name in counts then counts[name] else 0) + 1]
  }

  lemma CountStep(counts: map<string, nat>, names: seq<string>, name: string)
    requires CountsOf(counts, names)
    ensures CountsOf(Bump(counts, name), names + [name])
  {
    var counted := Bump(counts, name);
    assert multiset(names + [name]) == multiset(names) + multiset{name};
    forall n | n in counted ensures counted[n] == multiset(names + [name])[n] {
      if n == name && name !in counts {
        assert multiset(names)[name] == 0;
      }
    }
  }

  lemma CountLoopStep(visits: seq<Visit>, i: int, order: seq<string>, counts: map<string, nat>)
    requires 0 <= i < |visits|
    requires order == Distinct(Names(visits[..i]))
    requires CountsOf(counts, Names(visits[..i]))
    ensures Distinct(Names(visits[..i + 1])) ==
      if visits[i].visitorName in counts then order else order + [visits[i].visitorName]
    ensures CountsOf(Bump(counts, visits[i].visitorName), Names(visits[..i + 1]))
  {
    PrefixSnoc(visits, i);
    assert Names(visits[..i + 1]) == Names(visits[..i]) + [visits[i].visitorName];
    CountStep(counts, Names(visits[..i]), visits[i].visitorName);
    DistinctSnoc(Names(visits[..i]), visits[i].visitorName);
  }

  /** The `visitorCounts` reduce: a dictionary from visitor name to the
      number of that visitor's visits, grown one visit at a time. The order
      in which keys were first inserted, which is the order the JSON object
      lists them in, is kept beside the dictionary: it is the order of first
      visits, the same list as uniqueVisitors. */
  method CountVisitors(visits: seq<Visit>) returns (order: seq<string>, counts: map<string, nat>)
    ensures order == Distinct(Names(visits))
    ensures forall n :: n in counts <==> n in Names(visits)
    ensures forall n :: n in counts ==> counts[n] == multiset(Names(visits))[n]
  {
    order, counts := [], map[];
    for i := 0 to |visits|
      invariant order == Distinct(Names(visits[..i]))
      invariant CountsOf(counts, Names(visits[..i]))
    {
      var name := visits[i].visitorName;
      CountLoopStep(visits, i, order, counts);
      if name !in counts {
        order := order + [name];
      }
      counts := Bump(counts, name);
    }
    assert visits[..|visits|] == visits;
  }

  /** What the GET handler returns for café c. */
  ghost predicate IsSummaryOf(s: CafeSummary, c: Cafe)
  {
    && s.cafe == c
    && s.totalVisits == |c.visits|
    && (c.visits == [] ==>
          && s.avgRating == 0.0 && s.avgVibe == 0.0 && s.avgFood == 0.0
          && s.avgCoffee == 0.0 && s.avgPrice == 0.0
          && s.uniqueVisitors == [] && s.visitorCounts == map[] && s.lastVisit == None)
    && (c.visits != [] ==>
          && s.avgVibe == RoundTenth(Average(c.visits, Vibe))
          && s.avgFood == RoundTenth(Average(c.visits, Food))
          && s.avgCoffee == RoundTenth(Average(c.visits, Coffee))
          && s.avgPrice == RoundTenth(Average(c.visits, Price))
          && s.avgRating == RoundTenth(OverallRating(c.visits))
          && s.uniqueVisitors == Distinct(Names(c.visits))
          && (forall n :: n in s.visitorCounts <==> n in Names(c.visits))
          && (forall n :: n in s.visitorCounts ==> s.visitorCounts[n] == multiset(Names(c.visits))[n])
          && s.lastVisit == LastVisit(c.visits))
  }

  /** The aggregate step of the GET handler for one café. The
      `uniqueVisitors` list is the key order of the `visitorCounts` loop,
      which is `[...new Set(names)]`. */
  method Summarize(c: Cafe) returns (s: CafeSummary)
    ensures IsSummaryOf(s, c)
  {
    var visits := c.visits;
    if |visits| == 0 {
      return CafeSummary(c, 0.0, 0.0, 0.0, 0.0, 0.0, 0, [], map[], None);
    }
    var order, counts := CountVisitors(visits);
    s := CafeSummary(
      c,
      RoundTenth(OverallRating(visits)),
      RoundTenth(Average(visits, Vibe)),
      RoundTenth(Average(visits, Food)),
      RoundTenth(Average(visits, Coffee)),
      RoundTenth(Average(visits, Price)),
      |visits|,
      order,
      counts,
      LastVisit(visits));
  }

  /** GET /api/cafes: the selected cafés, each with its aggregates, in the
      store's order. */
  method GetCafes(cafes: seq<Cafe>, search: Option<string>, unvisited: bool)
    returns (result: seq<CafeSummary>)
    ensures |result| == |Selected(cafes, search, unvisited)|
    ensures forall i :: 0 <= i < |result| ==> IsSummaryOf(result[i], Selected(cafes, search, unvisited)[i])
  {
    var filtered := FilterCafes(cafes, search, unvisited);
    result := [];
    for i := 0 to |filtered|
      invariant |result| == i
      invariant forall k :: 0 <= k < i ==> IsSummaryOf(result[k], filtered[k])
    {
      var s := Summarize(filtered[i]);
      result := result + [s];
    }
  }

  // ---------------------------------------------------------------------
  // Properties of the aggregates

  /** The per-visitor counts add up to the number of visits. */
  lemma VisitorCountsSumToTotal(s: CafeSummary, c: Cafe)
    requires IsSummaryOf(s, c)
    ensures forall n :: n in s.uniqueVisitors ==> n in s.visitorCounts
    ensures SumValues(s.uniqueVisitors, s.visitorCounts) == s.totalVisits
  {
    var names := Names(c.visits);
    if c.visits != [] {
      SumValuesOfCounts(s.uniqueVisitors, s.visitorCounts, multiset(names));
      SumCountsCoversAll(Distinct(names), multiset(names));
    }
  }

  /** uniqueVisitors lists each visitor once, in order of first visit, and
      names exactly the keys of visitorCounts. */
  lemma UniqueVisitorsMatchCounts(s: CafeSummary, c: Cafe)
    requires IsSummaryOf(s, c)
    ensures NoDup(s.uniqueVisitors)
    ensures forall n :: n in s.uniqueVisitors <==> n in s.visitorCounts
    ensures forall n :: n in s.uniqueVisitors <==> exists v :: v in c.visits && v.visitorName == n
    ensures forall i, j :: 0 <= i < j < |s.uniqueVisitors| ==>
      FirstIndex(Names(c.visits), s.uniqueVisitors[i]) < FirstIndex(Names(c.visits), s.uniqueVisitors[j])
  {
    var names := Names(c.visits);
    DistinctKeepsFirstOccurrenceOrder(names);
    forall n | n in names ensures exists v :: v in c.visits && v.visitorName == n {
      var i :| 0 <= i < |names| && names[i] == n;
      assert c.visits[i] in c.visits;
    }
  }

  lemma {:induction false} DimensionSumBounds(visits: seq<Visit>, d: Dimension)
    requires forall v :: v in visits ==> HasValidRatings(v)
    ensures |visits| <= DimensionSum(visits, d) <= 5 * |visits|
  {
    if visits != [] {
      var init := visits[..|visits| - 1];
      assert forall v :: v in init ==> v in visits;
      DimensionSumBounds(init, d);
      assert HasValidRatings(visits[|visits| - 1]);
    }
  }

  /** If every rating is in [1,5], so is every average and the overall
      rating, before and after rounding. */
  lemma AveragesInRange(visits: seq<Visit>)
    requires |visits| > 0
    requires forall v :: v in visits ==> HasValidRatings(v)
    ensures forall d :: 1.0 <= Average(visits, d) <= 5.0
    ensures forall d :: 1.0 <= RoundTenth(Average(visits, d)) <= 5.0
    ensures 1.0 <= OverallRating(visits) <= 5.0
    ensures 1.0 <= RoundTenth(OverallRating(visits)) <= 5.0
  {
    forall d: Dimension ensures 1.0 <= Average(visits, d) <= 5.0 && 1.0 <= RoundTenth(Average(visits, d)) <= 5.0 {
      DimensionSumBounds(visits, d);
      AverageBounds(DimensionSum(visits, d), |visits|);
      RoundTenthWithin(Average(visits, d), 1, 5);
    }
    RoundTenthWithin(OverallRating(visits), 1, 5);
  }

  lemma AverageBounds(sum: int, n: int)
    requires 0 < n && n <= sum <= 5 * n
    ensures 1.0 <= sum as real / n as real <= 5.0
  {
    var nr := n as real;
    var a := sum as real / nr;
    assert a * nr == sum as real;
    assert (5.0 - a) * nr == (5 * n - sum) as real;
    assert (a - 1.0) * nr == (sum - n) as real;
  }

  /** Every visit carries all four ratings, so the mean of the four means is
      also the mean of all ratings given. */
  lemma OverallIsMeanOfAllRatings(visits: seq<Visit>)
    requires |visits| > 0
    ensures OverallRating(visits) ==
      (DimensionSum(visits, Vibe) + DimensionSum(visits, Food) + DimensionSum(visits, Coffee) + DimensionSum(visits, Price)) as real
      / (4 * |visits|) as real
  {
    var n := |visits| as real;
    var sv, sf, sc, sp := DimensionSum(visits, Vibe) as real, DimensionSum(visits, Food) as real,
      DimensionSum(visits, Coffee) as real, DimensionSum(visits, Price) as real;
    assert (sv / n + sf / n + sc / n + sp / n) / 4.0 == (sv + sf + sc + sp) / (4.0 * n);
  }

  // ---------------------------------------------------------------------
  // POST /api/cafes

  /** The fields of a create request; an absent field is None. */
  datatype CafeInput = CafeInput(
    name: Option<string>,
    area: Option<string>,
    postcode: Option<string>,
    latitude: Option<real>,
    longitude: Option<real>,
    source: Option<string>)

  /** `field || null` stored: a truthy value as given, anything else as null. */
  predicate StoredText(stored: Option<string>, given: Option<string>)
  {
    (stored.Some? <==> TruthyText(given)) && (stored.Some? ==> stored == given)
  }

  predicate StoredNumber(stored: Option<real>, given: Option<real>)
  {
    (stored.Some? <==> TruthyNumber(given)) && (stored.Some? ==> stored == given)
  }

  /** POST /api/cafes over the café table: a missing or empty name is
      rejected and nothing is stored; otherwise the new café is appended,
      with falsy optional fields stored as null. */
  function CreateCafe(store: seq<Cafe>, body: CafeInput, newId: string): (r: (Response<Cafe>, seq<Cafe>))
    ensures r.0.BadRequest? <==> !TruthyText(body.name)
    ensures r.0.BadRequest? ==> r.1 == store
    ensures r.0.Created? ==> r.1 == store + [r.0.value]
    ensures r.0.Created? ==> r.0.value.name == body.name.value && r.0.value.visits == []
    ensures r.0.Created? ==> StoredText(r.0.value.area, body.area) && StoredText(r.0.value.postcode, body.postcode)
    ensures r.0.Created? ==> StoredNumber(r.0.value.latitude, body.latitude)
    ensures r.0.Created? ==> StoredNumber(r.0.value.longitude, body.longitude)
    ensures r.0.Created? ==> r.0.value.source == (if TruthyText(body.source) then body.source.value else "user_added")
    ensures r.0.Created? ==> r.0.value.website == None && r.0.value.neighbourhood == None
  {
    if !TruthyText(body.name) then
      (BadRequest("Café name is required"), store)
    else
      var cafe := Cafe(
        newId,
        body.name.value,
        if TruthyText(body.area) then body.area else None,
        if TruthyText(body.postcode) then body.postcode else None,
        if TruthyNumber(body.latitude) then body.latitude else None,
        if TruthyNumber(body.longitude) then body.longitude else None,
        None,
        None,
        if TruthyText(body.source) then body.source.value else "user_added",
        []);
      (Created(cafe), store + [cafe])
  }

  /** A latitude or longitude of 0 is falsy and is stored as null. */
  lemma ZeroCoordinateBecomesNull(store: seq<Cafe>, body: CafeInput, newId: string)
    requires TruthyText(body.name) && body.latitude == Some(0.0)
    ensures CreateCafe(store, body, newId).0.value.latitude == None
  {
  }
}
