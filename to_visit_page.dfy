/** The to-visit page: the unvisited cafés the café list endpoint returns,
    narrowed by the name search, the area choice and the website choice. */
module ToVisitPage {
  import opened Records
  import opened Lists
  import opened ClientFilters
  import CafesRoute

  datatype WebsiteFilter = AnyWebsite | WithWebsite | WithoutWebsite

  /** `cafe.website` is truthy: present and non-empty. */
  predicate HasWebsite(c: CafeSummary)
  {
    TruthyText(c.cafe.website)
  }

  predicate LacksWebsite(c: CafeSummary)
  {
    !TruthyText(c.cafe.website)
  }

  function WebsiteStep(cafes: seq<CafeSummary>, website: WebsiteFilter): seq<CafeSummary>
  {
    match website
    case AnyWebsite => cafes
    case WithWebsite => Filter(cafes, HasWebsite)
    case WithoutWebsite => Filter(cafes, LacksWebsite)
  }

  /** The list the page shows: the three filters in turn. */
  function ToVisitView(cafes: seq<CafeSummary>, term: string, area: string, website: WebsiteFilter): seq<CafeSummary>
  {
    WebsiteStep(AreaStep(SearchStep(cafes, term), area), website)
  }

  predicate WebsiteKeeps(c: CafeSummary, website: WebsiteFilter)
  {
    match website
    case AnyWebsite => true
    case WithWebsite => HasWebsite(c)
    case WithoutWebsite => LacksWebsite(c)
  }

  predicate ToVisitKeeps(c: CafeSummary, term: string, area: string, website: WebsiteFilter)
  {
    SearchKeeps(c, term) && AreaKeeps(c, area) && WebsiteKeeps(c, website)
  }

  /** The chained filters keep exactly the cafés that pass all three, as an
      order-preserving subsequence of the input. */
  lemma ToVisitViewIsConjunction(cafes: seq<CafeSummary>, term: string, area: string, website: WebsiteFilter)
    ensures ToVisitView(cafes, term, area, website) == Filter(cafes, c => ToVisitKeeps(c, term, area, website))
    ensures Subsequence(ToVisitView(cafes, term, area, website), cafes)
  {
    var search := (c: CafeSummary) => SearchKeeps(c, term);
    var both := (c: CafeSummary) => SearchKeeps(c, term) && AreaKeeps(c, area);
    var all := (c: CafeSummary) => ToVisitKeeps(c, term, area, website);
    SearchStepIsFilter(cafes, term);
    AreaStepIsFilter(SearchStep(cafes, term), area);
    FilterFilter(cafes, search, (c: CafeSummary) => AreaKeeps(c, area), both);
    var filtered := AreaStep(SearchStep(cafes, term), area);
    assert filtered == Filter(cafes, both);
    match website
    case AnyWebsite =>
      FilterSame(cafes, both, all);
    case WithWebsite =>
      FilterFilter(cafes, both, HasWebsite, all);
    case WithoutWebsite =>
      FilterFilter(cafes, both, LacksWebsite, all);
  }

  /** 'with' and 'without' split the filtered cafés between them, and 'all'
      keeps every one. */
  lemma WebsiteFiltersPartition(filtered: seq<CafeSummary>)
    ensures |WebsiteStep(filtered, WithWebsite)| + |WebsiteStep(filtered, WithoutWebsite)| == |filtered|
    ensures multiset(WebsiteStep(filtered, WithWebsite)) + multiset(WebsiteStep(filtered, WithoutWebsite)) == multiset(filtered)
    ensures forall c :: c in WebsiteStep(filtered, WithWebsite) ==> c !in WebsiteStep(filtered, WithoutWebsite)
  {
    FilterPartition(filtered, HasWebsite, LacksWebsite);
  }
}
