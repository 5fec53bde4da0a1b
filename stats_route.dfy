/** GET /api/stats: the scoreboard's overview of how many cafés have been
    visited, the per-visitor leaderboard, the top-rated cafés and the
    completion of each area. */
module StatsRoute {
  import opened Records
  import opened Lists
  import opened Rounding
  import opened Sorting
  import CafesRoute

  // ---------------------------------------------------------------------
  // Overview

  predicate HasVisits(c: Cafe)
  {
    |c.visits| > 0
  }

  predicate Unvisited(c: Cafe)
  {
    |c.visits| == 0
  }

  function VisitedCafes(cafes: seq<Cafe>): seq<Cafe>
  {
    Filter(cafes, HasVisits)
  }

  /** `((part / whole) * 100).toFixed(1)` read back as a number when whole
      is positive, and 0 otherwise. */
  function Percent(part: nat, whole: nat): real
  {
    if whole > 0 then RoundTenth(part as real / whole as real * 100.0) else 0.0
  }

  lemma PercentBounds(part: nat, whole: nat)
    requires part <= whole
    ensures 0.0 <= Percent(part, whole) <= 100.0
    ensures IsTenth(Percent(part, whole))
    ensures part == 0 ==> Percent(part, whole) == 0.0
    ensures 0 < part == whole ==> Percent(part, whole) == 100.0
    ensures whole > 0 ==>
      part as real / whole as real * 100.0 - 0.05 < Percent(part, whole) <= part as real / whole as real * 100.0 + 0.05
  {
    if whole > 0 {
      var q := part as real / whole as real;
      QuotientBounds(part as real, whole as real);
      RoundTenthWithin(q * 100.0, 0, 100);
      RoundTenthOfTenths(0);
      if part == whole {
        assert q == 1.0;
        RoundTenthOfTenths(1000);
        assert 1000 as real / 10.0 == q * 100.0;
      }
    } else {
      assert IsTenth(0.0);
    }
  }

  lemma QuotientBounds(a: real, b: real)
    requires 0.0 <= a <= b && 0.0 < b
    ensures 0.0 <= a / b <= 1.0
    ensures a == b ==> a / b == 1.0
  {
    assert a / b * b == a;
  }

  datatype Overview = Overview(totalCafes: nat, totalVisited: nat, totalRemaining: int, percentComplete: real)

  function ComputeOverview(cafes: seq<Cafe>): (o: Overview)
    ensures o.totalCafes == |cafes|
    ensures o.totalVisited == |Filter(cafes, HasVisits)| <= o.totalCafes
    ensures o.totalRemaining == |Filter(cafes, Unvisited)|
    ensures o.totalVisited + o.totalRemaining == o.totalCafes
    ensures 0.0 <= o.percentComplete <= 100.0
    ensures o.totalCafes == 0 ==> o.percentComplete == 0.0
    ensures o.totalCafes > 0 ==> o.percentComplete == RoundTenth(o.totalVisited as real / o.totalCafes as real * 100.0)
  {
    var visited := |VisitedCafes(cafes)|;
    FilterPartition(cafes, HasVisits, Unvisited);
    PercentBounds(visited, |cafes|);
    Overview(|cafes|, visited, |cafes| - visited, Percent(visited, |cafes|))
  }

  // ---------------------------------------------------------------------
  // Visitor leaderboard

  /** One visitor's running totals in the visitorStats dictionary. */
  datatype Tally = Tally(totalVisits: nat, uniqueCafes: set<string>)

  datatype LeaderEntry = LeaderEntry(name: string, totalVisits: nat, uniqueCafes: nat)

  /** The ids of the cafés that the named visitor has visited. */
  function CafesVisitedBy(visits: seq<Visit>, name: string): set<string>
  {
    if visits == [] then {}
    else
      var last := visits[|visits| - 1];
      CafesVisitedBy(visits[..|visits| - 1], name) + (if last.visitorName == name then {last.cafeId} else {})
  }

  lemma {:induction false} CafesVisitedByMeaning(visits: seq<Visit>, name: string)
    ensures forall id :: id in CafesVisitedBy(visits, name) <==>
      exists v :: v in visits && v.visitorName == name && v.cafeId == id
  {
    if visits != [] {
      var init, last := visits[..|visits| - 1], visits[|visits| - 1];
      CafesVisitedByMeaning(init, name);
      assert visits == init + [last];
    }
  }

  /** A visitor has visited at most as many cafés as they made visits. */
  lemma {:induction false} CafesVisitedAtMostVisits(visits: seq<Visit>, name: string)
    ensures |CafesVisitedBy(visits, name)| <= multiset(CafesRoute.Names(visits))[name]
  {
    if visits != [] {
      var init, last := visits[..|visits| - 1], visits[|visits| - 1];
      CafesVisitedAtMostVisits(init, name);
      assert CafesRoute.Names(visits) == CafesRoute.Names(init) + [last.visitorName];
      var before := CafesVisitedBy(init, name);
      if last.visitorName == name {
        assert |before + {last.cafeId}| <= |before| + 1;
      }
    }
  }

  /** tallies is the visitorStats dictionary after counting visits: a key
      per visitor, holding their number of visits and their cafés. */
  ghost predicate TalliesOf(tallies: map<string, Tally>, visits: seq<Visit>)
  {
    && (forall n :: n in tallies <==> n in CafesRoute.Names(visits))
    && (forall n :: n in tallies ==>
          tallies[n] == Tally(multiset(CafesRoute.Names(visits))[n], CafesVisitedBy(visits, n)))
  }

  /** The visitorStats update for one visit: create the visitor's entry
      on first sight, then count the visit and add its café. */
  function Record(tallies: map<string, Tally>, v: Visit): map<string, Tally>
  {
    var t := if v.visitorName in tallies then tallies[v.visitorName] else Tally(0, {});
    tallies[v.visitorName := Tally(t.totalVisits + 1, t.uniqueCafes + {v.cafeId})]
  }

  lemma NamesSnoc(init: seq<Visit>, v: Visit)
    ensures CafesRoute.Names(init + [v]) == CafesRoute.Names(init) + [v.visitorName]
  {
    assert (init + [v])[..|init|] == init;
  }

  lemma CafesVisitedBySnoc(init: seq<Visit>, v: Visit, n: string)
    ensures CafesVisitedBy(init + [v], n) == CafesVisitedBy(init, n) + (if v.visitorName == n then {v.cafeId} else {})
  {
    assert (init + [v])[..|init|] == init;
  }

  /** Counting one more visit keeps one visitor's entry faithful. */
  lemma TallyStepAt(tallies: map<string, Tally>, init: seq<Visit>, v: Visit, n: string)
    requires TalliesOf(tallies, init)
    requires n in Record(tallies, v)
    ensures Record(tallies, v)[n] == Tally(multiset(CafesRoute.Names(init + [v]))[n], CafesVisitedBy(init + [v], n))
  {
    var names := CafesRoute.Names(init);
    NamesSnoc(init, v);
    CafesVisitedBySnoc(init, v, n);
    CountSnoc(names, v.visitorName, n);
    if n !in tallies {
      NoVisitsNoCafes(init, n);
    }
    RecordAt(tallies, v, n, multiset(names)[n], CafesVisitedBy(init, n));
  }

  /** The count of n after appending x to names. */
  lemma CountSnoc(names: seq<string>, x: string, n: string)
    ensures multiset(names + [x])[n] == multiset(names)[n] + (if x == n then 1 else 0)
    ensures n !in names ==> multiset(names)[n] == 0
  {
    assert multiset(names + [x]) == multiset(names) + multiset{x};
  }

  /** Record changes only the visiting visitor's entry, by one visit and
      one café, starting from nothing for a new visitor. */
  lemma RecordAt(tallies: map<string, Tally>, v: Visit, n: string, count: nat, cafes: set<string>)
    requires n in tallies ==> tallies[n] == Tally(count, cafes)
    requires n !in tallies ==> count == 0 && cafes == {}
    requires n in Record(tallies, v)
    ensures Record(tallies, v)[n] ==
      Tally(count + (if v.visitorName == n then 1 else 0), cafes + (if v.visitorName == n then {v.cafeId} else {}))
  {
  }

  /** Counting one more visit keeps the dictionary faithful. */
  lemma TallyStep(tallies: map<string, Tally>, init: seq<Visit>, v: Visit)
    requires TalliesOf(tallies, init)
    ensures TalliesOf(Record(tallies, v), init + [v])
  {
    NamesSnoc(init, v);
    forall n | n in Record(tallies, v)
      ensures Record(tallies, v)[n] == Tally(multiset(CafesRoute.Names(init + [v]))[n], CafesVisitedBy(init + [v], n))
    {
      TallyStepAt(tallies, init, v, n);
    }
  }

  /** Someone who made no visit has visited no café. */
  lemma NoVisitsNoCafes(visits: seq<Visit>, name: string)
    requires name !in CafesRoute.Names(visits)
    ensures CafesVisitedBy(visits, name) == {}
  {
    CafesVisitedByMeaning(visits, name);
    forall v | v in visits ensures v.visitorName != name {
      var k :| 0 <= k < |visits| && visits[k] == v;
      assert CafesRoute.Names(visits)[k] == v.visitorName;
    }
  }

  /** The visitorStats reduce: one pass over the visits that creates a
      visitor's entry on first sight, then counts the visit and adds its
      café. The order in which keys were first inserted, which is the order
      Object.entries reports them in, is kept beside the dictionary. */
  method TallyVisitors(visits: seq<Visit>) returns (order: seq<string>, tallies: map<string, Tally>)
    ensures order == Distinct(CafesRoute.Names(visits))
    ensures TalliesOf(tallies, visits)
  {
    order, tallies := [], map[];
    for i := 0 to |visits|
      invariant order == Distinct(CafesRoute.Names(visits[..i]))
      invariant TalliesOf(tallies, visits[..i])
    {
      var v := visits[i];
      TallyLoopStep(visits, i, order, tallies);
      if v.visitorName !in tallies {
        order := order + [v.visitorName];
      }
      tallies := Record(tallies, v);
    }
    assert visits[..|visits|] == visits;
  }

  lemma TallyLoopStep(visits: seq<Visit>, i: int, order: seq<string>, tallies: map<string, Tally>)
    requires 0 <= i < |visits|
    requires order == Distinct(CafesRoute.Names(visits[..i]))
    requires TalliesOf(tallies, visits[..i])
    ensures Distinct(CafesRoute.Names(visits[..i + 1])) ==
      if visits[i].visitorName in tallies then order else order + [visits[i].visitorName]
    ensures TalliesOf(Record(tallies, visits[i]), visits[..i + 1])
  {
    var v := visits[i];
    PrefixSnoc(visits, i);
    TallyStep(tallies, visits[..i], v);
    NamesSnoc(visits[..i], v);
    DistinctSnoc(CafesRoute.Names(visits[..i]), v.visitorName);
  }

  /** The leaderboard entry of one visitor: their number of visits and of
      distinct cafés. */
  function VisitorEntry(visits: seq<Visit>, name: string): LeaderEntry
  {
    LeaderEntry(name, multiset(CafesRoute.Names(visits))[name], |CafesVisitedBy(visits, name)|)
  }

  function Entries(visits: seq<Visit>, order: seq<string>): (r: seq<LeaderEntry>)
    ensures |r| == |order|
    ensures forall i :: 0 <= i < |order| ==> r[i] == VisitorEntry(visits, order[i])
  {
    if order == [] then [] else [VisitorEntry(visits, order[0])] + Entries(visits, order[1..])
  }

  /** `Object.entries(visitorStats).map(...)`, the keys taken in order. */
  function TallyEntries(order: seq<string>, tallies: map<string, Tally>): (r: seq<LeaderEntry>)
    requires forall n :: n in order ==> n in tallies
    ensures |r| == |order|
    ensures forall i :: 0 <= i < |order| ==>
      r[i] == LeaderEntry(order[i], tallies[order[i]].totalVisits, |tallies[order[i]].uniqueCafes|)
  {
    if order == [] then []
    else
      var t := tallies[order[0]];
      [LeaderEntry(order[0], t.totalVisits, |t.uniqueCafes|)] + TallyEntries(order[1..], tallies)
  }

  function UniqueCafesKey(e: LeaderEntry): real
  {
    e.uniqueCafes as real
  }

  function TotalVisitsOf(e: LeaderEntry): int
  {
    e.totalVisits
  }

  function EntryName(e: LeaderEntry): string
  {
    e.name
  }

  /** The leaderboard the handler returns: one entry per visitor, in order
      of first visit, then sorted by distinct cafés. */
  function Leaderboard(visits: seq<Visit>): seq<LeaderEntry>
  {
    SortByDesc(Entries(visits, Distinct(CafesRoute.Names(visits))), UniqueCafesKey)
  }

  method BuildLeaderboard(visits: seq<Visit>) returns (board: seq<LeaderEntry>)
    ensures board == Leaderboard(visits)
  {
    var order, tallies := TallyVisitors(visits);
    var entries := TallyEntries(order, tallies);
    TallyEntriesMatch(order, tallies, visits);
    board := SortByDesc(entries, UniqueCafesKey);
  }

  lemma TallyEntriesMatch(order: seq<string>, tallies: map<string, Tally>, visits: seq<Visit>)
    requires TalliesOf(tallies, visits)
    requires forall n :: n in order ==> n in tallies
    ensures TallyEntries(order, tallies) == Entries(visits, order)
  {
    var r, e := TallyEntries(order, tallies), Entries(visits, order);
    forall i | 0 <= i < |order| ensures r[i] == e[i] {
      assert order[i] in tallies;
    }
  }

  /** Each leaderboard entry counts one visitor's visits and the distinct
      cafés among them, and the second never exceeds the first. */
  lemma LeaderboardEntryCounts(visits: seq<Visit>, e: LeaderEntry)
    requires e in Leaderboard(visits)
    ensures e.name in CafesRoute.Names(visits)
    ensures e.totalVisits == multiset(CafesRoute.Names(visits))[e.name]
    ensures e.uniqueCafes == |CafesVisitedBy(visits, e.name)|
    ensures e.uniqueCafes <= e.totalVisits
  {
    EntryIsVisitorEntry(visits, e);
    CafesVisitedAtMostVisits(visits, e.name);
  }

  /** Every leaderboard entry is the entry of one of the visitors. */
  lemma EntryIsVisitorEntry(visits: seq<Visit>, e: LeaderEntry)
    requires e in Leaderboard(visits)
    ensures e.name in CafesRoute.Names(visits) && e == VisitorEntry(visits, e.name)
  {
    var order := Distinct(CafesRoute.Names(visits));
    var entries := Entries(visits, order);
    assert e in multiset(entries);
    var k :| 0 <= k < |entries| && entries[k] == e;
    assert order[k] in order;
  }

  /** Every visitor has an entry, and no two entries share a name. */
  lemma LeaderboardOneEntryPerVisitor(visits: seq<Visit>)
    ensures forall n :: n in CafesRoute.Names(visits) ==> exists e :: e in Leaderboard(visits) && e.name == n
    ensures DistinctBy(Leaderboard(visits), EntryName)
    ensures |Leaderboard(visits)| == |Distinct(CafesRoute.Names(visits))|
  {
    var names := CafesRoute.Names(visits);
    var order := Distinct(names);
    var entries := Entries(visits, order);
    var board := Leaderboard(visits);
    forall n | n in names ensures exists e :: e in board && e.name == n {
      var k := FirstIndex(order, n);
      assert entries[k] in multiset(board);
    }
    assert DistinctBy(entries, EntryName);
    DistinctByPermutation(entries, board, EntryName);
  }

  /** The visits counted on the leaderboard add up to all visits. */
  lemma LeaderboardTotalsSumToVisits(visits: seq<Visit>)
    ensures SumBy(Leaderboard(visits), TotalVisitsOf) == |visits|
  {
    var names := CafesRoute.Names(visits);
    var order := Distinct(names);
    SortKeepsSum(Entries(visits, order), UniqueCafesKey, TotalVisitsOf);
    EntriesSum(visits, order);
    SumCountsCoversAll(order, multiset(names));
  }

  lemma {:induction false} EntriesSum(visits: seq<Visit>, order: seq<string>)
    ensures SumBy(Entries(visits, order), TotalVisitsOf) == SumCounts(order, multiset(CafesRoute.Names(visits)))
  {
    if order != [] {
      EntriesSum(visits, order[1..]);
      assert Entries(visits, order)[1..] == Entries(visits, order[1..]);
    }
  }

  /** The leaderboard is ordered by distinct cafés, most first; visitors
      with the same number keep the order of their first visit. */
  lemma LeaderboardOrder(visits: seq<Visit>)
    ensures SortedDesc(Leaderboard(visits), UniqueCafesKey)
    ensures forall i, j :: 0 <= i < j < |Leaderboard(visits)| && Leaderboard(visits)[i].uniqueCafes == Leaderboard(visits)[j].uniqueCafes ==>
      Leaderboard(visits)[i].name in CafesRoute.Names(visits) && Leaderboard(visits)[j].name in CafesRoute.Names(visits) &&
      FirstIndex(CafesRoute.Names(visits), Leaderboard(visits)[i].name) < FirstIndex(CafesRoute.Names(visits), Leaderboard(visits)[j].name)
  {
    var names := CafesRoute.Names(visits);
    var order := Distinct(names);
    var entries := Entries(visits, order);
    var board := Leaderboard(visits);
    assert NoDup(entries) by {
      assert DistinctBy(entries, EntryName);
    }
    SortByDescKeepsTieOrder(entries, UniqueCafesKey);
    forall i, j | 0 <= i < j < |board| && board[i].uniqueCafes == board[j].uniqueCafes
      ensures board[i].name in names && board[j].name in names
      ensures FirstIndex(names, board[i].name) < FirstIndex(names, board[j].name)
    {
      assert UniqueCafesKey(board[i]) == UniqueCafesKey(board[j]);
      EarlierEntry(visits, board[i], board[j]);
    }
  }

  /** An entry that comes earlier in the unsorted entries belongs to a
      visitor who visited first. */
  lemma EarlierEntry(visits: seq<Visit>, x: LeaderEntry, y: LeaderEntry)
    requires var entries := Entries(visits, Distinct(CafesRoute.Names(visits)));
      x in entries && y in entries && FirstIndex(entries, x) < FirstIndex(entries, y)
    ensures x.name in CafesRoute.Names(visits) && y.name in CafesRoute.Names(visits)
    ensures FirstIndex(CafesRoute.Names(visits), x.name) < FirstIndex(CafesRoute.Names(visits), y.name)
  {
    var names := CafesRoute.Names(visits);
    var order := Distinct(names);
    var entries := Entries(visits, order);
    DistinctKeepsFirstOccurrenceOrder(names);
    var a, b := FirstIndex(entries, x), FirstIndex(entries, y);
    assert x.name == order[a] && y.name == order[b];
  }

  // ---------------------------------------------------------------------
  // Top-rated cafés

  datatype TopCafe = TopCafe(id: string, name: string, area: Option<string>, avgRating: real, totalVisits: nat)

  /** A café with enough visits to be ranked. */
  predicate Popular(c: Cafe)
  {
    |c.visits| >= 2
  }

  function TopEntry(c: Cafe): TopCafe
    requires |c.visits| > 0
  {
    TopCafe(c.id, c.name, c.area, RoundTenth(CafesRoute.OverallRating(c.visits)), |c.visits|)
  }

  function TopEntries(cafes: seq<Cafe>): (r: seq<TopCafe>)
    requires forall c :: c in cafes ==> |c.visits| > 0
    ensures |r| == |cafes|
    ensures forall i :: 0 <= i < |cafes| ==> r[i] == TopEntry(cafes[i])
  {
    if cafes == [] then [] else [TopEntry(cafes[0])] + TopEntries(cafes[1..])
  }

  function RatingKey(t: TopCafe): real
  {
    t.avgRating
  }

  /** The visited cafés with at least two visits, rated, ordered by rating
      and cut to the first ten. */
  function TopCafes(cafes: seq<Cafe>): seq<TopCafe>
  {
    var ranked := Ranked(cafes);
    if |ranked| <= 10 then ranked else ranked[..10]
  }

  /** At most ten cafés are listed, ten whenever that many qualify, in
      order of rating, highest first. */
  lemma TopCafesSizeAndOrder(cafes: seq<Cafe>)
    ensures |TopCafes(cafes)| == if |Filter(cafes, Popular)| <= 10 then |Filter(cafes, Popular)| else 10
    ensures SortedDesc(TopCafes(cafes), RatingKey)
  {
    FilterFilter(cafes, HasVisits, Popular, Popular);
  }

  /** Every listed café has at least two visits and shows its rounded
      overall rating. */
  lemma TopCafeIsPopular(cafes: seq<Cafe>, t: TopCafe)
    requires t in TopCafes(cafes)
    ensures exists c :: c in cafes && Popular(c) && t == TopEntry(c)
  {
    var eligible := Filter(VisitedCafes(cafes), Popular);
    var entries := TopEntries(eligible);
    var ranked := SortByDesc(entries, RatingKey);
    assert t in ranked;
    assert t in multiset(entries);
    var k :| 0 <= k < |entries| && entries[k] == t;
    assert eligible[k] in eligible;
  }

  /** The ranking before the cut to ten. */
  function Ranked(cafes: seq<Cafe>): seq<TopCafe>
  {
    SortByDesc(TopEntries(Filter(VisitedCafes(cafes), Popular)), RatingKey)
  }

  lemma TopCafesArePrefix(cafes: seq<Cafe>)
    ensures |TopCafes(cafes)| <= |Ranked(cafes)|
    ensures TopCafes(cafes) == Ranked(cafes)[..|TopCafes(cafes)|]
    ensures SortedDesc(Ranked(cafes), RatingKey)
  {
    var r := Ranked(cafes);
    if |r| <= 10 {
      assert r[..|r|] == r;
    }
  }

  lemma PopularIsRanked(cafes: seq<Cafe>, c: Cafe)
    requires c in cafes && Popular(c)
    ensures TopEntry(c) in Ranked(cafes)
  {
    var eligible := Filter(VisitedCafes(cafes), Popular);
    var entries := TopEntries(eligible);
    var k := FirstIndex(eligible, c);
    assert entries[k] == TopEntry(c);
    assert TopEntry(c) in multiset(Ranked(cafes));
  }

  /** A café that qualifies but is not listed rates no higher than any
      listed one. */
  lemma TopCafesOmitNoBetter(cafes: seq<Cafe>, c: Cafe, t: TopCafe)
    requires c in cafes && Popular(c) && TopEntry(c) !in TopCafes(cafes)
    requires t in TopCafes(cafes)
    ensures t.avgRating >= TopEntry(c).avgRating
  {
    TopCafesArePrefix(cafes);
    PopularIsRanked(cafes, c);
    var top := TopCafes(cafes);
    PrefixDominates(Ranked(cafes), |top|, RatingKey, TopEntry(c), t);
  }

  /** With valid ratings every listed rating lies between 1 and 5. */
  lemma TopCafesRatingsInRange(cafes: seq<Cafe>)
    requires forall c :: c in cafes ==> forall v :: v in c.visits ==> HasValidRatings(v)
    ensures forall t :: t in TopCafes(cafes) ==> 1.0 <= t.avgRating <= 5.0
  {
    forall t | t in TopCafes(cafes) ensures 1.0 <= t.avgRating <= 5.0 {
      TopCafeIsPopular(cafes, t);
      var c :| c in cafes && Popular(c) && t == TopEntry(c);
      CafesRoute.AveragesInRange(c.visits);
    }
  }

  // ---------------------------------------------------------------------
  // Area completion

  datatype AreaTally = AreaTally(total: nat, visited: nat)

  datatype AreaStat = AreaStat(area: string, total: nat, visited: nat, remaining: int, percentComplete: real)

  /** `cafe.area || 'Unknown'`: a missing or empty area is counted as
      "Unknown". */
  function AreaKey(c: Cafe): string
  {
    if TruthyText(c.area) then c.area.value else "Unknown"
  }

  function AreaKeys(cafes: seq<Cafe>): (r: seq<string>)
    ensures |r| == |cafes|
  {
    if cafes == [] then [] else AreaKeys(cafes[..|cafes| - 1]) + [AreaKey(cafes[|cafes| - 1])]
  }

  lemma AreaKeysSnoc(cafes: seq<Cafe>, c: Cafe)
    ensures AreaKeys(cafes + [c]) == AreaKeys(cafes) + [AreaKey(c)]
  {
  }

  /** The number of cafés in area a. */
  function AreaCount(cafes: seq<Cafe>, a: string): nat
  {
    multiset(AreaKeys(cafes))[a]
  }

  /** The number of cafés in area a that have been visited. */
  function VisitedCount(cafes: seq<Cafe>, a: string): nat
  {
    multiset(AreaKeys(VisitedCafes(cafes)))[a]
  }

  lemma VisitedStep(init: seq<Cafe>, c: Cafe, a: string)
    requires VisitedCount(init, a) <= AreaCount(init, a)
    ensures VisitedCount(init + [c], a) == VisitedCount(init, a) + (if AreaKey(c) == a && |c.visits| > 0 then 1 else 0)
    ensures AreaCount(init + [c], a) == AreaCount(init, a) + (if AreaKey(c) == a then 1 else 0)
    ensures VisitedCount(init + [c], a) <= AreaCount(init + [c], a)
  {
    FilterSnoc(init, c, HasVisits);
    AreaKeysSnoc(init, c);
    AreaKeysSnoc(VisitedCafes(init), c);
  }

  /** An area has no more visited cafés than cafés. */
  lemma {:induction false} AreaVisitedAtMostTotal(cafes: seq<Cafe>, a: string)
    ensures VisitedCount(cafes, a) <= AreaCount(cafes, a)
  {
    if cafes != [] {
      var init, last := cafes[..|cafes| - 1], cafes[|cafes| - 1];
      assert cafes == init + [last];
      AreaVisitedAtMostTotal(init, a);
      VisitedStep(init, last, a);
    }
  }

  /** `acc[area].total++`, and `acc[area].visited++` for a visited café. */
  function CountCafe(t: AreaTally, c: Cafe): AreaTally
  {
    AreaTally(t.total + 1, if |c.visits| > 0 then t.visited + 1 else t.visited)
  }

  /** tallies is the areaBreakdown dictionary after counting cafés: a key
      per area, holding its number of cafés and of visited cafés. */
  ghost predicate AreaTalliesOf(tallies: map<string, AreaTally>, cafes: seq<Cafe>)
  {
    && (forall a :: a in tallies <==> a in AreaKeys(cafes))
    && (forall a :: a in tallies ==> tallies[a] == AreaTally(AreaCount(cafes, a), VisitedCount(cafes, a)))
  }

  /** Counting one more café keeps the dictionary faithful. */
  lemma AreaStep(tallies: map<string, AreaTally>, init: seq<Cafe>, c: Cafe, counted: map<string, AreaTally>)
    requires AreaTalliesOf(tallies, init)
    requires var t := if AreaKey(c) in tallies then tallies[AreaKey(c)] else AreaTally(0, 0);
      counted == tallies[AreaKey(c) := CountCafe(t, c)]
    ensures AreaTalliesOf(counted, init + [c])
  {
    AreaKeysSnoc(init, c);
    forall a | a in counted
      ensures counted[a] == AreaTally(AreaCount(init + [c], a), VisitedCount(init + [c], a))
    {
      AreaStepAt(tallies, init, c, counted, a);
    }
  }

  lemma AreaStepAt(tallies: map<string, AreaTally>, init: seq<Cafe>, c: Cafe, counted: map<string, AreaTally>, a: string)
    requires a in tallies ==> tallies[a] == AreaTally(AreaCount(init, a), VisitedCount(init, a))
    requires a !in tallies ==> AreaCount(init, a) == 0
    requires var t := if AreaKey(c) in tallies then tallies[AreaKey(c)] else AreaTally(0, 0);
      counted == tallies[AreaKey(c) := CountCafe(t, c)]
    requires a in counted
    ensures counted[a] == AreaTally(AreaCount(init + [c], a), VisitedCount(init + [c], a))
  {
    AreaVisitedAtMostTotal(init, a);
    VisitedStep(init, c, a);
  }

  lemma AreaOrderStep(cafes: seq<Cafe>, i: int, order: seq<string>, tallies: map<string, AreaTally>)
    requires 0 <= i < |cafes|
    requires order == Distinct(AreaKeys(cafes[..i]))
    requires forall a :: a in tallies <==> a in AreaKeys(cafes[..i])
    ensures Distinct(AreaKeys(cafes[..i + 1])) == if AreaKey(cafes[i]) in tallies then order else order + [AreaKey(cafes[i])]
  {
    PrefixSnoc(cafes, i);
    AreaKeysSnoc(cafes[..i], cafes[i]);
    DistinctSnoc(AreaKeys(cafes[..i]), AreaKey(cafes[i]));
  }

  lemma AreaTallyStep(cafes: seq<Cafe>, i: int, tallies: map<string, AreaTally>, counted: map<string, AreaTally>)
    requires 0 <= i < |cafes|
    requires AreaTalliesOf(tallies, cafes[..i])
    requires var t := if AreaKey(cafes[i]) in tallies then tallies[AreaKey(cafes[i])] else AreaTally(0, 0);
      counted == tallies[AreaKey(cafes[i]) := CountCafe(t, cafes[i])]
    ensures AreaTalliesOf(counted, cafes[..i + 1])
  {
    PrefixSnoc(cafes, i);
    AreaStep(tallies, cafes[..i], cafes[i], counted);
  }

  /** The areaBreakdown reduce: one pass over the cafés that creates an
      area's entry on first sight, then counts the café, and counts it as
      visited when it has visits. The key order is kept beside the
      dictionary. */
  method TallyAreas(cafes: seq<Cafe>) returns (order: seq<string>, tallies: map<string, AreaTally>)
    ensures order == Distinct(AreaKeys(cafes))
    ensures AreaTalliesOf(tallies, cafes)
  {
    order, tallies := [], map[];
    for i := 0 to |cafes|
      invariant order == Distinct(AreaKeys(cafes[..i]))
      invariant AreaTalliesOf(tallies, cafes[..i])
    {
      var c := cafes[i];
      var area := AreaKey(c);
      var t := if area in tallies then tallies[area] else AreaTally(0, 0);
      var counted := tallies[area := CountCafe(t, c)];
      AreaOrderStep(cafes, i, order, tallies);
      AreaTallyStep(cafes, i, tallies, counted);
      if area !in tallies {
        order := order + [area];
      }
      tallies := counted;
    }
    assert cafes[..|cafes|] == cafes;
  }

  /** The row of one area, computed from its two counts. */
  function StatOf(area: string, t: AreaTally): AreaStat
  {
    AreaStat(area, t.total, t.visited, t.total - t.visited, Percent(t.visited, t.total))
  }

  function AreaRow(cafes: seq<Cafe>, a: string): AreaStat
  {
    StatOf(a, AreaTally(AreaCount(cafes, a), VisitedCount(cafes, a)))
  }

  function AreaRows(cafes: seq<Cafe>, order: seq<string>): (r: seq<AreaStat>)
    ensures |r| == |order|
    ensures forall i :: 0 <= i < |order| ==> r[i] == AreaRow(cafes, order[i])
  {
    if order == [] then [] else [AreaRow(cafes, order[0])] + AreaRows(cafes, order[1..])
  }

  /** `Object.entries(areaBreakdown).map(...)`, the keys taken in order. */
  function TallyRows(order: seq<string>, tallies: map<string, AreaTally>): (r: seq<AreaStat>)
    requires forall a :: a in order ==> a in tallies
    ensures |r| == |order|
    ensures forall i :: 0 <= i < |order| ==> r[i] == StatOf(order[i], tallies[order[i]])
  {
    if order == [] then [] else [StatOf(order[0], tallies[order[0]])] + TallyRows(order[1..], tallies)
  }

  lemma TallyRowsMatch(order: seq<string>, tallies: map<string, AreaTally>, cafes: seq<Cafe>)
    requires AreaTalliesOf(tallies, cafes)
    requires forall a :: a in order ==> a in tallies
    ensures TallyRows(order, tallies) == AreaRows(cafes, order)
  {
    var r, e := TallyRows(order, tallies), AreaRows(cafes, order);
    forall i | 0 <= i < |order| ensures r[i] == e[i] {
      assert order[i] in tallies;
    }
  }

  function PercentKey(s: AreaStat): real
  {
    s.percentComplete
  }

  function TotalOf(s: AreaStat): int
  {
    s.total
  }

  function VisitedOf(s: AreaStat): int
  {
    s.visited
  }

  function AreaOf(s: AreaStat): string
  {
    s.area
  }

  /** The areaStats the handler returns: one row per area, in order of
      first appearance, then sorted by completion. */
  function AreaStats(cafes: seq<Cafe>): seq<AreaStat>
  {
    SortByDesc(AreaRows(cafes, Distinct(AreaKeys(cafes))), PercentKey)
  }

  lemma {:induction false} AreaKeysAt(cafes: seq<Cafe>, i: int)
    requires 0 <= i < |cafes|
    ensures AreaKeys(cafes)[i] == AreaKey(cafes[i])
  {
    if i < |cafes| - 1 {
      AreaKeysAt(cafes[..|cafes| - 1], i);
    }
  }

  /** Each row counts one area's cafés and visited cafés consistently. */
  lemma AreaRowConsistent(cafes: seq<Cafe>, s: AreaStat)
    requires s in AreaStats(cafes)
    ensures s.area in AreaKeys(cafes)
    ensures s.total == AreaCount(cafes, s.area) >= 1
    ensures s.visited == VisitedCount(cafes, s.area) <= s.total
    ensures s.remaining == s.total - s.visited
    ensures s.percentComplete == Percent(s.visited, s.total)
    ensures 0.0 <= s.percentComplete <= 100.0
  {
    var a := StatIsRow(cafes, s);
    AreaVisitedAtMostTotal(cafes, a);
    PercentBounds(s.visited, s.total);
  }

  /** Every sorted row is the row of one of the cafés' areas. */
  lemma StatIsRow(cafes: seq<Cafe>, s: AreaStat) returns (a: string)
    requires s in AreaStats(cafes)
    ensures a in AreaKeys(cafes) && s == AreaRow(cafes, a)
  {
    var rows := AreaRows(cafes, Distinct(AreaKeys(cafes)));
    assert s in multiset(rows);
    var k :| 0 <= k < |rows| && rows[k] == s;
    a := Distinct(AreaKeys(cafes))[k];
  }

  /** Every café's area has exactly one row, and the rows are ordered by
      completion, highest first. */
  lemma AreaRowsCoverAreas(cafes: seq<Cafe>)
    ensures forall c :: c in cafes ==> exists s :: s in AreaStats(cafes) && s.area == AreaKey(c)
    ensures DistinctBy(AreaStats(cafes), AreaOf)
    ensures SortedDesc(AreaStats(cafes), PercentKey)
  {
    var keys := AreaKeys(cafes);
    var order := Distinct(keys);
    var rows := AreaRows(cafes, order);
    var stats := AreaStats(cafes);
    forall c | c in cafes ensures exists s :: s in stats && s.area == AreaKey(c) {
      var i :| 0 <= i < |cafes| && cafes[i] == c;
      AreaKeysAt(cafes, i);
      var k := FirstIndex(order, AreaKey(c));
      assert rows[k] in multiset(stats);
    }
    assert DistinctBy(rows, AreaOf);
    DistinctByPermutation(rows, stats, AreaOf);
  }

  /** The area totals add up to the number of cafés, and the visited counts
      to the overview's number of visited cafés. */
  lemma AreaTotalsSum(cafes: seq<Cafe>)
    ensures SumBy(AreaStats(cafes), TotalOf) == |cafes| == ComputeOverview(cafes).totalCafes
    ensures SumBy(AreaStats(cafes), VisitedOf) == ComputeOverview(cafes).totalVisited
  {
    var keys := AreaKeys(cafes);
    var vkeys := AreaKeys(VisitedCafes(cafes));
    var order := Distinct(keys);
    var rows := AreaRows(cafes, order);
    SortKeepsSum(rows, PercentKey, TotalOf);
    SortKeepsSum(rows, PercentKey, VisitedOf);
    RowsSum(cafes, order);
    SumCountsCoversAll(order, multiset(keys));
    forall a | a in multiset(vkeys) ensures a in order {
      AreaVisitedAtMostTotal(cafes, a);
    }
    SumCountsCoversAll(order, multiset(vkeys));
  }

  lemma {:induction false} RowsSum(cafes: seq<Cafe>, order: seq<string>)
    ensures SumBy(AreaRows(cafes, order), TotalOf) == SumCounts(order, multiset(AreaKeys(cafes)))
    ensures SumBy(AreaRows(cafes, order), VisitedOf) == SumCounts(order, multiset(AreaKeys(VisitedCafes(cafes))))
  {
    if order != [] {
      RowsSum(cafes, order[1..]);
      assert AreaRows(cafes, order)[1..] == AreaRows(cafes, order[1..]);
    }
  }

  // ---------------------------------------------------------------------
  // The handler

  datatype Stats = Stats(overview: Overview, leaderboard: seq<LeaderEntry>, topCafes: seq<TopCafe>, areaStats: seq<AreaStat>)

  /** GET /api/stats over the cafés (each with its visits) and all visits. */
  method GetStats(allCafes: seq<Cafe>, visits: seq<Visit>) returns (s: Stats)
    ensures s.overview == ComputeOverview(allCafes)
    ensures s.leaderboard == Leaderboard(visits)
    ensures s.topCafes == TopCafes(allCafes)
    ensures s.areaStats == AreaStats(allCafes)
  {
    var board := BuildLeaderboard(visits);
    var order, tallies := TallyAreas(allCafes);
    var rows := TallyRows(order, tallies);
    TallyRowsMatch(order, tallies, allCafes);
    s := Stats(ComputeOverview(allCafes), board, TopCafes(allCafes), SortByDesc(rows, PercentKey));
  }
}
