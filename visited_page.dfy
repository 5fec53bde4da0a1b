/** The visited page: the cafés with at least one visit, narrowed by the
    name search and the area choice, then sorted on a copy by rating, by
    number of visits or by the date of the last visit. */
module VisitedPage {
  import opened Records
  import opened Lists
  import opened Sorting
  import opened ClientFilters

  /** The cafés kept after loading. */
  function VisitedOnly(data: seq<CafeSummary>): (r: seq<CafeSummary>)
    ensures forall c :: c in r <==> c in data && c.totalVisits > 0
    ensures Subsequence(r, data)
  {
    Filter(data, IsVisited)
  }

  datatype SortBy = ByRating | ByVisits | ByDate

  function RatingKey(c: CafeSummary): real
  {
    c.avgRating
  }

  function VisitsKey(c: CafeSummary): real
  {
    c.totalVisits as real
  }

  predicate Dated(c: CafeSummary)
  {
    c.lastVisit.Some?
  }

  predicate Undated(c: CafeSummary)
  {
    c.lastVisit.None?
  }

  function LastVisitKey(c: CafeSummary): real
  {
    if c.lastVisit.Some? then c.lastVisit.value as real else 0.0
  }

  /** The comparator sort: `b - a` on the rating or the visit count, and
      for dates the cafés with a last visit, newest first, then the ones
      without. */
  function SortView(filtered: seq<CafeSummary>, sortBy: SortBy): seq<CafeSummary>
  {
    match sortBy
    case ByRating => SortByDesc(filtered, RatingKey)
    case ByVisits => SortByDesc(filtered, VisitsKey)
    case ByDate => SortByDesc(Filter(filtered, Dated), LastVisitKey) + Filter(filtered, Undated)
  }

  /** The list the page shows. */
  function VisitedView(cafes: seq<CafeSummary>, term: string, area: string, sortBy: SortBy): seq<CafeSummary>
  {
    SortView(AreaStep(SearchStep(cafes, term), area), sortBy)
  }

  predicate VisitedKeeps(c: CafeSummary, term: string, area: string)
  {
    SearchKeeps(c, term) && AreaKeeps(c, area)
  }

  /** The two filters keep exactly the cafés that pass both, in order. */
  lemma FilteredIsConjunction(cafes: seq<CafeSummary>, term: string, area: string)
    ensures AreaStep(SearchStep(cafes, term), area) == Filter(cafes, c => VisitedKeeps(c, term, area))
  {
    SearchStepIsFilter(cafes, term);
    AreaStepIsFilter(SearchStep(cafes, term), area);
    FilterFilter(cafes, (c: CafeSummary) => SearchKeeps(c, term), (c: CafeSummary) => AreaKeeps(c, area),
      c => VisitedKeeps(c, term, area));
  }

  /** Sorting only rearranges the filtered cafés. */
  lemma SortViewIsPermutation(filtered: seq<CafeSummary>, sortBy: SortBy)
    ensures multiset(SortView(filtered, sortBy)) == multiset(filtered)
  {
    if sortBy == ByDate {
      FilterPartition(filtered, Dated, Undated);
    }
  }

  /** What the page shows: the cafés passing both filters, each once,
      rearranged. */
  lemma VisitedViewContents(cafes: seq<CafeSummary>, term: string, area: string, sortBy: SortBy)
    ensures multiset(VisitedView(cafes, term, area, sortBy)) == multiset(Filter(cafes, c => VisitedKeeps(c, term, area)))
    ensures forall c :: c in VisitedView(cafes, term, area, sortBy) <==> c in cafes && VisitedKeeps(c, term, area)
  {
    FilteredIsConjunction(cafes, term, area);
    SortViewIsPermutation(AreaStep(SearchStep(cafes, term), area), sortBy);
    var v := VisitedView(cafes, term, area, sortBy);
    var f := Filter(cafes, c => VisitedKeeps(c, term, area));
    forall c ensures c in v <==> c in f {
      assert c in v <==> c in multiset(v);
      assert c in f <==> c in multiset(f);
    }
  }

  /** 'rating' and 'visits' put the highest value first. */
  lemma SortedByRatingOrVisits(filtered: seq<CafeSummary>)
    ensures var r := SortView(filtered, ByRating);
      forall i, j :: 0 <= i < j < |r| ==> r[i].avgRating >= r[j].avgRating
    ensures var r := SortView(filtered, ByVisits);
      forall i, j :: 0 <= i < j < |r| ==> r[i].totalVisits >= r[j].totalVisits
  {
    var r1 := SortView(filtered, ByRating);
    assert SortedDesc(r1, RatingKey);
    assert forall i, j :: 0 <= i < j < |r1| ==> RatingKey(r1[i]) >= RatingKey(r1[j]);
    var r2 := SortView(filtered, ByVisits);
    assert SortedDesc(r2, VisitsKey);
    assert forall i, j :: 0 <= i < j < |r2| ==> VisitsKey(r2[i]) >= VisitsKey(r2[j]);
  }

  /** Cafés with equal ratings keep their filtered order. */
  lemma RatingTiesKeepOrder(filtered: seq<CafeSummary>, k: real)
    ensures WithKey(SortView(filtered, ByRating), RatingKey, k) == WithKey(filtered, RatingKey, k)
  {
    SortByDescIsStable(filtered, RatingKey, k);
  }

  /** 'date' puts every café with a last visit before every café without
      one, and the dated ones newest first. */
  lemma SortedByDate(filtered: seq<CafeSummary>)
    ensures var r := SortView(filtered, ByDate);
      forall i, j :: 0 <= i < j < |r| && r[j].lastVisit.Some? ==> r[i].lastVisit.Some?
    ensures var r := SortView(filtered, ByDate);
      forall i, j :: 0 <= i < j < |r| && r[j].lastVisit.Some? ==> r[i].lastVisit.value >= r[j].lastVisit.value
  {
    var fd := Filter(filtered, Dated);
    var dated := SortByDesc(fd, LastVisitKey);
    var undated := Filter(filtered, Undated);
    assert SortView(filtered, ByDate) == dated + undated;
    forall i | 0 <= i < |dated| ensures dated[i].lastVisit.Some? {
      assert dated[i] in multiset(dated);
      assert dated[i] in fd;
    }
    forall i | 0 <= i < |undated| ensures undated[i].lastVisit.None? {
      assert undated[i] in undated;
    }
    DatedThenUndated(dated, undated);
  }

  lemma DatedThenUndated(dated: seq<CafeSummary>, undated: seq<CafeSummary>)
    requires forall i :: 0 <= i < |dated| ==> dated[i].lastVisit.Some?
    requires forall i :: 0 <= i < |undated| ==> undated[i].lastVisit.None?
    requires SortedDesc(dated, LastVisitKey)
    ensures var r := dated + undated;
      forall i, j :: 0 <= i < j < |r| && r[j].lastVisit.Some? ==> r[i].lastVisit.Some?
    ensures var r := dated + undated;
      forall i, j :: 0 <= i < j < |r| && r[j].lastVisit.Some? ==> r[i].lastVisit.value >= r[j].lastVisit.value
  {
    var r := dated + undated;
    forall i, j | 0 <= i < j < |r| && r[j].lastVisit.Some?
      ensures r[i].lastVisit.Some? && r[i].lastVisit.value >= r[j].lastVisit.value
    {
      assert r[i] == dated[i] && r[j] == dated[j];
      assert LastVisitKey(dated[i]) >= LastVisitKey(dated[j]);
    }
  }
}
