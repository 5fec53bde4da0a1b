/** The pieces the visited and to-visit pages share: the name search and
    exact area filters applied to the café list the client received, and
    the list of distinct areas offered in the area drop-down. The client
    works on the summaries the café list endpoint returns. */
module ClientFilters {
  import opened Records
  import opened Lists
  import CafesRoute

  /** `if (searchTerm) filtered = filtered.filter(name includes term)`:
      an empty term keeps every café. */
  function SearchStep(cafes: seq<CafeSummary>, term: string): seq<CafeSummary>
  {
    if term == "" then cafes else Filter(cafes, (c: CafeSummary) => CafesRoute.NameMatches(c.cafe, term))
  }

  /** `if (filterArea) filtered = filtered.filter(cafe.area === filterArea)`:
      an empty choice keeps every café, and a café without an area never
      equals a chosen one. */
  function AreaStep(cafes: seq<CafeSummary>, area: string): seq<CafeSummary>
  {
    if area == "" then cafes else Filter(cafes, (c: CafeSummary) => c.cafe.area == Some(area))
  }

  predicate SearchKeeps(c: CafeSummary, term: string)
  {
    term == "" || CafesRoute.NameMatches(c.cafe, term)
  }

  predicate AreaKeeps(c: CafeSummary, area: string)
  {
    area == "" || c.cafe.area == Some(area)
  }

  /** Each step keeps exactly the cafés its condition accepts. */
  lemma {:induction false} StepIsFilter<T(!new)>(xs: seq<T>, on: bool, p: T -> bool, keeps: T -> bool)
    requires forall x :: keeps(x) == (!on || p(x))
    ensures (if on then Filter(xs, p) else xs) == Filter(xs, keeps)
  {
    if on {
      FilterSame(xs, p, keeps);
    } else {
      FilterKeepsAll(xs, keeps);
    }
  }

  lemma SearchStepIsFilter(cafes: seq<CafeSummary>, term: string)
    ensures SearchStep(cafes, term) == Filter(cafes, (c: CafeSummary) => SearchKeeps(c, term))
  {
    StepIsFilter(cafes, term != "", (c: CafeSummary) => CafesRoute.NameMatches(c.cafe, term), c => SearchKeeps(c, term));
  }

  lemma AreaStepIsFilter(cafes: seq<CafeSummary>, area: string)
    ensures AreaStep(cafes, area) == Filter(cafes, (c: CafeSummary) => AreaKeeps(c, area))
  {
    StepIsFilter(cafes, area != "", (c: CafeSummary) => c.cafe.area == Some(area), c => AreaKeeps(c, area));
  }

  // ---------------------------------------------------------------------
  // The area drop-down

  /** `cafes.map(c => c.area).filter(Boolean)`: the non-empty areas, in
      café order. */
  function TruthyAreas(cafes: seq<CafeSummary>): (r: seq<string>)
    ensures forall a :: a in r <==> exists k :: 0 <= k < |cafes| && HasArea(cafes[k], a)
  {
    if cafes == [] then []
    else
      var init := cafes[..|cafes| - 1];
      var last := cafes[|cafes| - 1];
      var rest := TruthyAreas(init);
      assert forall k :: 0 <= k < |init| ==> init[k] == cafes[k];
      if TruthyText(last.cafe.area) then rest + [last.cafe.area.value] else rest
  }

  /** The café has the non-empty area a. */
  predicate HasArea(c: CafeSummary, a: string)
  {
    a != "" && c.cafe.area == Some(a)
  }

  /** `[...new Set(truthy areas)]`. */
  function Areas(cafes: seq<CafeSummary>): seq<string>
  {
    Distinct(TruthyAreas(cafes))
  }

  /** Some café with area a comes before every café with area b. */
  predicate AreaFirstBefore(cafes: seq<CafeSummary>, a: string, b: string)
  {
    exists k :: 0 <= k < |cafes| && HasArea(cafes[k], a) && forall l :: 0 <= l <= k ==> !HasArea(cafes[l], b)
  }

  /** The drop-down lists every non-empty area once, nothing else, and in
      the order in which the areas first occur among the cafés. */
  lemma AreasAreDistinctInFirstOccurrenceOrder(cafes: seq<CafeSummary>)
    ensures NoDup(Areas(cafes))
    ensures forall a :: a in Areas(cafes) <==> exists k :: 0 <= k < |cafes| && HasArea(cafes[k], a)
    ensures forall i, j :: 0 <= i < j < |Areas(cafes)| ==> AreaFirstBefore(cafes, Areas(cafes)[i], Areas(cafes)[j])
  {
    AreasInFirstOccurrenceOrder(cafes);
  }

  predicate AreasOrdered(cafes: seq<CafeSummary>)
  {
    forall i, j :: 0 <= i < j < |Areas(cafes)| ==> AreaFirstBefore(cafes, Areas(cafes)[i], Areas(cafes)[j])
  }

  lemma {:induction false} AreasInFirstOccurrenceOrder(cafes: seq<CafeSummary>)
    ensures AreasOrdered(cafes)
  {
    if cafes != [] {
      var init, last := cafes[..|cafes| - 1], cafes[|cafes| - 1];
      AreasInFirstOccurrenceOrder(init);
      assert cafes == init + [last];
      AreasSnoc(init, last);
      var d, r := Areas(init), Areas(cafes);
      forall i, j | 0 <= i < j < |r|
        ensures AreaFirstBefore(cafes, r[i], r[j])
      {
        if j < |d| {
          assert AreaFirstBefore(init, d[i], d[j]);
          AreaFirstBeforeSnoc(init, last, d[i], d[j]);
        } else {
          AreaFirstBeforeNew(init, last, r[i], r[j]);
        }
      }
    }
  }

  lemma AreasSnoc(init: seq<CafeSummary>, last: CafeSummary)
    ensures Areas(init + [last]) ==
      if TruthyText(last.cafe.area) && last.cafe.area.value !in Areas(init)
      then Areas(init) + [last.cafe.area.value] else Areas(init)
  {
    var cafes := init + [last];
    assert cafes[..|cafes| - 1] == init;
    if TruthyText(last.cafe.area) {
      DistinctSnoc(TruthyAreas(init), last.cafe.area.value);
    }
  }

  lemma AreaFirstBeforeSnoc(init: seq<CafeSummary>, last: CafeSummary, a: string, b: string)
    requires AreaFirstBefore(init, a, b)
    ensures AreaFirstBefore(init + [last], a, b)
  {
    var cafes := init + [last];
    var k :| 0 <= k < |init| && HasArea(init[k], a) && forall l :: 0 <= l <= k ==> !HasArea(init[l], b);
    assert cafes[k] == init[k];
    forall l | 0 <= l <= k ensures !HasArea(cafes[l], b) {
      assert cafes[l] == init[l];
    }
  }

  lemma AreaFirstBeforeNew(init: seq<CafeSummary>, last: CafeSummary, a: string, b: string)
    requires a in Areas(init) && b !in Areas(init)
    ensures AreaFirstBefore(init + [last], a, b)
  {
    var cafes := init + [last];
    var k :| 0 <= k < |init| && HasArea(init[k], a);
    assert cafes[k] == init[k];
    forall l | 0 <= l <= k ensures !HasArea(cafes[l], b) {
      assert cafes[l] == init[l];
    }
  }
}
