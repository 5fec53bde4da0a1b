/** The map page: the cafés it can place (those with coordinates), the
    search and visited filters, the marker colour for a rating and the
    visitor-initials badge on a marker. */
module MapPage {
  import opened Records
  import opened Lists
  import opened Text
  import CafesRoute

  /** `c.latitude && c.longitude`: both coordinates present and non-zero. */
  predicate HasCoordinates(c: CafeSummary)
  {
    TruthyNumber(c.cafe.latitude) && TruthyNumber(c.cafe.longitude)
  }

  /** The cafés kept after loading: a coordinate of 0 or null drops the café. */
  function ValidCafes(data: seq<CafeSummary>): (r: seq<CafeSummary>)
    ensures forall c :: c in r <==>
      && c in data
      && c.cafe.latitude.Some? && c.cafe.latitude.value != 0.0
      && c.cafe.longitude.Some? && c.cafe.longitude.value != 0.0
    ensures Subsequence(r, data)
  {
    Filter(data, HasCoordinates)
  }

  // ---------------------------------------------------------------------
  // The filter effect

  datatype VisitedFilter = All | Visited | Unvisited

  /** `area?.toLowerCase().includes(search)`: a null field never matches. */
  predicate FieldMatches(field: Option<string>, term: string)
  {
    field.Some? && Contains(ToLower(field.value), ToLower(term))
  }

  /** The search matches the name, the area or the postcode. */
  predicate SearchMatches(c: CafeSummary, term: string)
  {
    CafesRoute.NameMatches(c.cafe, term) || FieldMatches(c.cafe.area, term) || FieldMatches(c.cafe.postcode, term)
  }

  predicate NotVisited(c: CafeSummary)
  {
    c.totalVisits == 0
  }

  predicate ModeKeeps(c: CafeSummary, mode: VisitedFilter)
  {
    match mode
    case All => true
    case Visited => IsVisited(c)
    case Unvisited => NotVisited(c)
  }

  /** An empty term would match every café anyway, so skipping the text
      filter for it changes nothing. */
  lemma EmptyTermMatchesAll(c: CafeSummary)
    ensures SearchMatches(c, "")
  {
    ContainsEmpty(ToLower(c.cafe.name));
  }

  /** What the filter effect keeps: an empty term applies no text filter. */
  predicate MapKeeps(c: CafeSummary, term: string, mode: VisitedFilter)
  {
    (term == "" || SearchMatches(c, term)) && ModeKeeps(c, mode)
  }

  /** The filter effect, reassigning `filtered` one filter at a time. */
  method FilterMap(cafes: seq<CafeSummary>, term: string, mode: VisitedFilter)
    returns (filtered: seq<CafeSummary>)
    ensures filtered == Filter(cafes, c => MapKeeps(c, term, mode))
    ensures forall c :: c in filtered <==> c in cafes && MapKeeps(c, term, mode)
    ensures Subsequence(filtered, cafes)
  {
    var keeps := (c: CafeSummary) => MapKeeps(c, term, mode);
    var search := (c: CafeSummary) => term == "" || SearchMatches(c, term);
    var visited := (c: CafeSummary) => IsVisited(c);
    var unvisited := (c: CafeSummary) => NotVisited(c);
    filtered := cafes;
    if term != "" {
      filtered := Filter(filtered, (c: CafeSummary) => SearchMatches(c, term));
      FilterSame(cafes, (c: CafeSummary) => SearchMatches(c, term), search);
    } else {
      FilterKeepsAll(cafes, search);
    }
    assert filtered == Filter(cafes, search);
    if mode == Visited {
      filtered := Filter(filtered, visited);
      FilterFilter(cafes, search, visited, keeps);
    } else if mode == Unvisited {
      filtered := Filter(filtered, unvisited);
      FilterFilter(cafes, search, unvisited, keeps);
    } else {
      FilterSame(cafes, search, keeps);
    }
  }

  /** 'visited' and 'unvisited' split the cafés (and the legend's two
      counts add up to the 'all' count); 'all' keeps everything. */
  lemma VisitedModesPartition(cafes: seq<CafeSummary>)
    ensures |Filter(cafes, IsVisited)| + |Filter(cafes, NotVisited)| == |cafes|
    ensures multiset(Filter(cafes, IsVisited)) + multiset(Filter(cafes, NotVisited)) == multiset(cafes)
    ensures Filter(cafes, (c: CafeSummary) => ModeKeeps(c, All)) == cafes
  {
    FilterPartition(cafes, IsVisited, NotVisited);
    FilterKeepsAll(cafes, (c: CafeSummary) => ModeKeeps(c, All));
  }

  // ---------------------------------------------------------------------
  // Marker colour

  datatype Color = Gray | Red | Orange | Yellow | Green

  /** `getColorForRating`. */
  function ColorForRating(rating: real): Color
  {
    if rating == 0.0 then Gray
    else if rating < 2.5 then Red
    else if rating < 3.5 then Orange
    else if rating < 4.5 then Yellow
    else Green
  }

  /** The CSS colour each band is drawn in. */
  function Hex(c: Color): string
  {
    match c
    case Gray => "#9ca3af"
    case Red => "#ef4444"
    case Orange => "#f59e0b"
    case Yellow => "#eab308"
    case Green => "#22c55e"
  }

  /** The band rank, worst to best; gray (no rating) is below all. */
  function Rank(c: Color): nat
  {
    match c
    case Gray => 0
    case Red => 1
    case Orange => 2
    case Yellow => 3
    case Green => 4
  }

  /** Each band is exactly one interval of ratings. */
  lemma ColorBands(rating: real)
    ensures ColorForRating(rating) == Gray <==> rating == 0.0
    ensures ColorForRating(rating) == Red <==> rating != 0.0 && rating < 2.5
    ensures ColorForRating(rating) == Orange <==> 2.5 <= rating < 3.5
    ensures ColorForRating(rating) == Yellow <==> 3.5 <= rating < 4.5
    ensures ColorForRating(rating) == Green <==> 4.5 <= rating
    ensures Hex(ColorForRating(rating)) == "#9ca3af" <==> rating == 0.0
  {
  }

  /** Among positive ratings a higher rating never gets a worse band. */
  lemma ColorMonotone(x: real, y: real)
    requires 0.0 < x <= y
    ensures 1 <= Rank(ColorForRating(x)) <= Rank(ColorForRating(y))
  {
  }

  /** A café with no visits is drawn gray; one with visits whose ratings
      are in range never is. */
  lemma GrayIffUnvisited(s: CafeSummary, c: Cafe)
    requires CafesRoute.IsSummaryOf(s, c)
    requires forall v :: v in c.visits ==> HasValidRatings(v)
    ensures ColorForRating(s.avgRating) == Gray <==> c.visits == []
  {
    if c.visits != [] {
      CafesRoute.AveragesInRange(c.visits);
    }
  }

  // ---------------------------------------------------------------------
  // Visitor badge

  /** `v[0]`: the first character, or nothing for an empty name. */
  function Initial(name: string): string
  {
    if name == "" then "" else [name[0]]
  }

  /** `visitors.map(v => v[0]).join('')`. */
  function Initials(visitors: seq<string>): string
  {
    if visitors == [] then "" else Initials(visitors[..|visitors| - 1]) + Initial(visitors[|visitors| - 1])
  }

  /** The badge is drawn only for a café with visitors. */
  function BadgeText(s: CafeSummary): (r: Option<string>)
    ensures r.Some? <==> |s.uniqueVisitors| > 0
  {
    if |s.uniqueVisitors| > 0 then Some(Initials(s.uniqueVisitors)) else None
  }

  /** With non-empty names, the badge has one letter per visitor: the
      visitor's first letter, in visitor order. */
  lemma {:induction false} InitialsAreFirstLetters(visitors: seq<string>)
    requires forall i :: 0 <= i < |visitors| ==> visitors[i] != ""
    ensures |Initials(visitors)| == |visitors|
    ensures forall i :: 0 <= i < |visitors| ==> Initials(visitors)[i] == visitors[i][0]
  {
    if visitors != [] {
      var init := visitors[..|visitors| - 1];
      InitialsAreFirstLetters(init);
      assert forall i :: 0 <= i < |init| ==> init[i] == visitors[i];
    }
  }

  /** Empty names contribute nothing, so the badge is never longer than
      the number of visitors. */
  lemma {:induction false} InitialsAtMostOnePerVisitor(visitors: seq<string>)
    ensures |Initials(visitors)| <= |visitors|
  {
    if visitors != [] {
      InitialsAtMostOnePerVisitor(visitors[..|visitors| - 1]);
    }
  }
}
