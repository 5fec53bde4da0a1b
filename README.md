# Bristol café tracker — a verified model of its logic

The application records visits by a small group of friends to the cafés of
Bristol. Each visit rates the café on four dimensions (vibe, food, coffee,
price) from 1 to 5. The model covers these handlers of the server's JSON API:

- the café list (`GET /api/cafes`), which filters cafés and summarises each
  one's visits: averages, visitors, per-visitor counts and last visit date;
- the café create endpoint (`POST /api/cafes`);
- the visit endpoints (`POST` and `GET /api/visits`);
- the scoreboard statistics (`GET /api/stats`): an overview, a per-visitor
  leaderboard, the ten best-rated cafés and the completion of each area.

Four client pages work on what the café list returns:

- the map, with its coordinate filter, search/visited filter, rating
  colours and visitor-initials badges;
- the visited list, with its search and area filters and its three sorts;
- the to-visit list, with its search, area and website filters;
- the add-visit form, which picks a café (from suggestions, a `?cafe=`
  link or a newly created café), takes the ratings and submits the visit.

This project models that logic in Dafny and proves what it promises.
The files are:

| file | module | models |
|---|---|---|
| records.dfy | Records | cafés, visits, summaries, create responses |
| lists.dfy | Lists | `filter`, `[...new Set(xs)]`, counting |
| text.dfy | Text | `toLowerCase`, `includes`, `trim() === ''` |
| rounding.dfy | Rounding | `Number(x.toFixed(1))` on exact values |
| sorting.dfy | Sorting | the stable `Array.prototype.sort` with a `b - a` comparator |
| cafes_route.dfy | CafesRoute | app/api/cafes/route.ts |
| stats_route.dfy | StatsRoute | app/api/stats/route.ts |
| visits_route.dfy | VisitsRoute | app/api/visits/route.ts |
| map_page.dfy | MapPage | app/map/page.tsx |
| client_filters.dfy | ClientFilters | the search, area and `areas` code shared by the visited and to-visit pages |
| visited_page.dfy | VisitedPage | app/visited/page.tsx |
| to_visit_page.dfy | ToVisitPage | app/to-visit/page.tsx |
| add_visit_page.dfy | AddVisitPage | app/add-visit/page.tsx |

How the source's constructs are represented:

- **Types.** Dates are integers (milliseconds), ratings are integers and
  averages are exact reals.
- **Rounding.** `toFixed(1)` rounds the exact value to the nearest tenth,
  with halves rounded away from zero.
- **Stores.** The database tables are sequences. A create endpoint returns
  its response together with the table after the call.
- **Reduces that mutate an accumulator** (`visitorCounts`, `visitorStats`,
  `areaBreakdown`) are methods with loops. Each one is proved against a
  function of the visits. Each method also returns the order in which
  its keys were first inserted, which is the order `Object.entries`
  reports them in. For `visitorCounts` that order is the
  `uniqueVisitors` list.
- **The add-visit form** is a class. Its component state is held in
  fields, and each handler is a method on it.

## Model

| member | source | states |
|---|---|---|
| CafesRoute.Selected | app/api/cafes/route.ts:21-32 | the specification of the GET filter: the cafés passing both query conditions, in order; FilterCafes is proved to compute it |
| CafesRoute.NameSearchIgnoresCase | app/api/cafes/route.ts:28-31 | lower-casing the search term before the match changes nothing |
| CafesRoute.NameMatchesAt | app/api/cafes/route.ts:28-31 | a name matches exactly when the lower-cased term occurs at some position of the lower-cased name |
| CafesRoute.FilterCafes | app/api/cafes/route.ts:21-32 | with `unvisited=true` only cafés without visits remain, with a non-empty search only cafés whose lower-cased name contains the lower-cased term; the result is an order-preserving subsequence of the cafés |
| CafesRoute.LatestVisitIndex | app/api/cafes/route.ts:75-79 | none exactly for no visits; the kept visit's date is at least every visit's date, and every earlier-listed visit is strictly older (the strict `>` keeps the first of equal dates) |
| CafesRoute.LastVisit | app/api/cafes/route.ts:75-79 | null iff there are no visits; otherwise the date of some visit and no earlier than any visit date |
| CafesRoute.CountStep | app/api/cafes/route.ts:67-73 | one `acc[name] = (acc[name] \|\| 0) + 1` update keeps the dictionary equal to the occurrence counts of the names seen so far |
| CafesRoute.CountVisitors | app/api/cafes/route.ts:67-73 | `visitorCounts` has exactly the visitor names as keys, each mapped to that visitor's number of visits, and its keys were inserted in first-visit order (the `uniqueVisitors` list) |
| CafesRoute.Summarize | app/api/cafes/route.ts:35-93 | for no visits all averages are 0, totalVisits 0, uniqueVisitors and visitorCounts empty, lastVisit null, with no division; otherwise each average is the rounded mean of its dimension, avgRating the rounded mean of the four means, uniqueVisitors the distinct visitor names, visitorCounts the counts and lastVisit the latest date |
| CafesRoute.GetCafes | app/api/cafes/route.ts:21-95 | one summary per selected café, in the store's order |
| CafesRoute.VisitorCountsSumToTotal | app/api/cafes/route.ts:37-73 | every unique visitor is a key of visitorCounts, and the counts add up to totalVisits |
| CafesRoute.UniqueVisitorsMatchCounts | app/api/cafes/route.ts:65-73 | uniqueVisitors has no duplicates, names exactly the keys of visitorCounts and the café's visitors, and is in first-visit order |
| CafesRoute.DimensionSumBounds | app/api/cafes/route.ts:54-61 | with ratings in 1..5, a dimension's sum lies between the visit count and five times it |
| CafesRoute.AveragesInRange | app/api/cafes/route.ts:54-63 | with ratings in 1..5, every per-dimension average and the overall rating lie in [1,5], before and after rounding |
| CafesRoute.OverallIsMeanOfAllRatings | app/api/cafes/route.ts:54-63 | the mean of the four means equals the mean of all ratings given |
| CafesRoute.CreateCafe | app/api/cafes/route.ts:105-130 | a missing or empty name gives 400 and stores nothing; otherwise the café is appended with its name, no visits, falsy area/postcode/latitude/longitude as null, source defaulting to `user_added`, and website and neighbourhood null |
| CafesRoute.ZeroCoordinateBecomesNull | app/api/cafes/route.ts:122 | a latitude of 0 is falsy and is stored as null |
| Rounding.RoundTenth | app/api/cafes/route.ts:83-87 | `Number(x.toFixed(1))`: a whole number of tenths within 0.05 of x, halves rounded away from zero |
| Rounding.RoundTenthWithin | app/api/cafes/route.ts:83-87 | rounding to one decimal keeps a value inside any integer bounds it lies in |
| StatsRoute.Percent | app/api/stats/route.ts:98-101 | the rounded percentage of part in whole, 0 for an empty whole; its bounds are StatsRoute.PercentBounds |
| StatsRoute.PercentBounds | app/api/stats/route.ts:23-24 | a percentage of part ≤ whole lies in [0,100], is a whole number of tenths, is 0 for no part and 100 for all, and is within 0.05 of the exact ratio |
| StatsRoute.ComputeOverview | app/api/stats/route.ts:19-24 | totalVisited counts cafés with visits, totalRemaining those without, they add up to totalCafes, and the percentage is 0 without cafés and the rounded ratio otherwise, in [0,100] |
| StatsRoute.CafesVisitedByMeaning | app/api/stats/route.ts:36 | a café id is in a visitor's set exactly when that visitor has a visit to it |
| StatsRoute.CafesVisitedAtMostVisits | app/api/stats/route.ts:35-36 | a visitor has visited no more distinct cafés than they made visits |
| StatsRoute.TallyStepAt | app/api/stats/route.ts:28-37 | one visit's update keeps each visitor's entry equal to their visit count and café set |
| StatsRoute.TallyStep | app/api/stats/route.ts:28-37 | one visit's update keeps the whole `visitorStats` dictionary faithful to the visits seen |
| StatsRoute.TallyVisitors | app/api/stats/route.ts:27-40 | after the reduce the dictionary holds, per visitor, their visit count and café set, and the key order is the order of first visits |
| StatsRoute.TallyEntriesMatch | app/api/stats/route.ts:42-47 | mapping the dictionary's entries gives each visitor's count and number of distinct cafés |
| StatsRoute.Leaderboard | app/api/stats/route.ts:27-48 | the specification of the leaderboard: one entry per visitor in first-visit order, stably sorted by uniqueCafes; its properties are the Leaderboard lemmas below |
| StatsRoute.BuildLeaderboard | app/api/stats/route.ts:27-48 | the reduce, map and sort compute the leaderboard |
| StatsRoute.LeaderboardEntryCounts | app/api/stats/route.ts:42-47 | each entry is a visitor with their number of visits and of distinct cafés, and uniqueCafes ≤ totalVisits |
| StatsRoute.LeaderboardOneEntryPerVisitor | app/api/stats/route.ts:27-47 | every visitor has an entry, no two entries share a name, and there are as many entries as visitors |
| StatsRoute.LeaderboardTotalsSumToVisits | app/api/stats/route.ts:27-47 | the entries' totalVisits add up to the number of visits |
| StatsRoute.LeaderboardOrder | app/api/stats/route.ts:42-48 | the leaderboard is ordered by uniqueCafes, most first, and visitors with equal numbers keep the order of their first visit |
| StatsRoute.TopCafes | app/api/stats/route.ts:51-74 | the first ten of the ranked cafés with at least two visits; its properties are the TopCafes lemmas below |
| StatsRoute.TopCafesSizeAndOrder | app/api/stats/route.ts:51-74 | exactly min(10, number of cafés with at least two visits) entries, ordered by avgRating, highest first |
| StatsRoute.TopCafeIsPopular | app/api/stats/route.ts:51-72 | every listed café is a café with at least two visits, shown with its rounded overall rating and visit count |
| StatsRoute.TopCafesArePrefix | app/api/stats/route.ts:73-74 | the list is the first (up to ten) entries of the sorted ranking |
| StatsRoute.PopularIsRanked | app/api/stats/route.ts:51-73 | every café with at least two visits is in the ranking before the cut |
| StatsRoute.TopCafesOmitNoBetter | app/api/stats/route.ts:73-74 | a qualifying café left off the list rates no higher than any listed one |
| StatsRoute.TopCafesRatingsInRange | app/api/stats/route.ts:63-69 | with ratings in 1..5 every listed rating lies in [1,5] |
| StatsRoute.VisitedStep | app/api/stats/route.ts:83-86 | one café adds one to its area's total, and one to its visited count when it has visits |
| StatsRoute.AreaVisitedAtMostTotal | app/api/stats/route.ts:83-86 | an area has no more visited cafés than cafés |
| StatsRoute.AreaStep | app/api/stats/route.ts:78-87 | one café's update keeps the `areaBreakdown` dictionary faithful to the cafés seen |
| StatsRoute.TallyAreas | app/api/stats/route.ts:77-90 | after the reduce each area (missing or empty as `Unknown`) maps to its number of cafés and of visited cafés, and the key order is the order of first appearance |
| StatsRoute.AreaStats | app/api/stats/route.ts:77-103 | the area rows in first-appearance order, stably sorted by percentComplete; its properties are the area lemmas below |
| StatsRoute.TallyRowsMatch | app/api/stats/route.ts:92-102 | mapping the dictionary's entries gives each area's row from its counts |
| StatsRoute.AreaRowConsistent | app/api/stats/route.ts:92-102 | each row belongs to an area of some café, total ≥ 1 counts its cafés, visited ≤ total its visited cafés, remaining = total − visited, and the percentage lies in [0,100] |
| StatsRoute.AreaRowsCoverAreas | app/api/stats/route.ts:77-103 | every café's area has a row, no two rows share an area, and rows are ordered by percentComplete, highest first |
| StatsRoute.AreaTotalsSum | app/api/stats/route.ts:77-97 | the rows' totals add up to totalCafes and their visited counts to totalVisited |
| StatsRoute.GetStats | app/api/stats/route.ts:4-115 | the response is the overview, leaderboard, top cafés and area rows |
| VisitsRoute.SomeOutOfRange | app/api/visits/route.ts:43-45 | true exactly when some rating is below 1 or above 5 |
| VisitsRoute.RatingsCheckIsRange | app/api/visits/route.ts:42-46 | the check passes exactly when all four ratings are in 1..5 |
| VisitsRoute.PostVisit | app/api/visits/route.ts:42-71 | 400 with "Ratings must be between 1 and 5" and nothing stored iff a rating is out of range; otherwise the visit is appended with exactly the submitted café, visitor, ratings and texts, dated as given or `now` |
| VisitsRoute.PostVisitKeepsRatingsValid | app/api/visits/route.ts:42-65 | the create endpoint never stores an out-of-range rating |
| VisitsRoute.PostVisitsKeepRatingsValid | app/api/visits/route.ts:42-65 | a table built by any run of create requests holds valid ratings only |
| VisitsRoute.ListVisits | app/api/visits/route.ts:6-15 | every visit, each once, ordered by visitDate, newest first |
| MapPage.ValidCafes | app/map/page.tsx:48 | exactly the cafés with a non-null, non-zero latitude and longitude, in order |
| MapPage.FilterMap | app/map/page.tsx:59-78 | an empty term applies no text filter, otherwise a café stays iff its name, area or postcode contains the term case-insensitively; 'visited'/'unvisited' keep totalVisits > 0 / = 0; the result is an order-preserving subsequence |
| MapPage.VisitedModesPartition | app/map/page.tsx:71-75 | 'visited' and 'unvisited' split the cafés (the legend counts at lines 246-247 add up to the total) and 'all' keeps every café |
| MapPage.ColorForRating | app/map/page.tsx:400-406 | the marker colour of a rating; its bands are MapPage.ColorBands and MapPage.ColorMonotone |
| MapPage.ColorBands | app/map/page.tsx:400-406 | 0 is gray, (0,2.5) and negatives red, [2.5,3.5) orange, [3.5,4.5) yellow, ≥ 4.5 green, each rating exactly one band |
| MapPage.ColorMonotone | app/map/page.tsx:400-406 | among positive ratings a higher rating never gets a worse band |
| MapPage.GrayIffUnvisited | app/map/page.tsx:122 | a café summary is drawn gray exactly when the café has no visits (given ratings in range) |
| MapPage.BadgeText | app/map/page.tsx:126-132 | a badge exists exactly when the café has visitors |
| MapPage.Initials | app/map/page.tsx:130-132 | the first letters of the visitors joined; stated by the two lemmas below |
| MapPage.EmptyTermMatchesAll | app/map/page.tsx:62-69 | the empty term matches every café, so no text filter is the same as filtering on it |
| MapPage.InitialsAreFirstLetters | app/map/page.tsx:130-132 | with non-empty names the badge has one letter per visitor, each visitor's first letter, in order |
| MapPage.InitialsAtMostOnePerVisitor | app/map/page.tsx:130-132 | the badge is never longer than the number of visitors |
| ClientFilters.SearchStep | app/visited/page.tsx:50-55 | the search step of both list pages (also app/to-visit/page.tsx:44-49); stated by ClientFilters.SearchStepIsFilter |
| ClientFilters.AreaStep | app/visited/page.tsx:58-60 | the area step of both list pages (also app/to-visit/page.tsx:52-54); stated by ClientFilters.AreaStepIsFilter |
| ClientFilters.Areas | app/visited/page.tsx:79 | the area drop-down; stated by the two lemmas below |
| ClientFilters.SearchStepIsFilter | app/visited/page.tsx:50-55 | the search step keeps exactly the cafés whose name matches, all of them for an empty term |
| ClientFilters.AreaStepIsFilter | app/visited/page.tsx:58-60 | the area step keeps exactly the cafés whose area equals the choice, all of them for an empty choice |
| ClientFilters.TruthyAreas | app/visited/page.tsx:79 | the non-empty areas are exactly those some café has |
| ClientFilters.AreasAreDistinctInFirstOccurrenceOrder | app/visited/page.tsx:79 | the drop-down lists every non-empty area once and nothing else, in order of first occurrence (also app/to-visit/page.tsx:66) |
| VisitedPage.VisitedOnly | app/visited/page.tsx:36 | exactly the cafés with totalVisits > 0, in order |
| VisitedPage.FilteredIsConjunction | app/visited/page.tsx:46-60 | the two filters keep exactly the cafés passing both, in order |
| VisitedPage.SortView | app/visited/page.tsx:63-74 | the three sorts of the filtered copy; stated by the three sort lemmas below and SortViewIsPermutation |
| VisitedPage.VisitedView | app/visited/page.tsx:46-76 | search, then area, then sort; stated by VisitedPage.VisitedViewContents |
| VisitedPage.SortViewIsPermutation | app/visited/page.tsx:63-74 | every sort only rearranges the filtered copy |
| VisitedPage.VisitedViewContents | app/visited/page.tsx:46-76 | the shown list holds exactly the cafés passing both filters, each as often as in the input |
| VisitedPage.SortedByRatingOrVisits | app/visited/page.tsx:64-67 | 'rating' orders by avgRating and 'visits' by totalVisits, highest first |
| VisitedPage.RatingTiesKeepOrder | app/visited/page.tsx:63-65 | cafés with equal ratings keep their filtered order |
| VisitedPage.SortedByDate | app/visited/page.tsx:68-71 | 'date' puts every café with a last visit before every café without, newest first |
| ToVisitPage.ToVisitView | app/to-visit/page.tsx:40-64 | search, then area, then website; stated by ToVisitPage.ToVisitViewIsConjunction |
| ToVisitPage.ToVisitViewIsConjunction | app/to-visit/page.tsx:40-64 | the list equals the cafés filtered by the conjunction of the active search, area and website conditions, as an order-preserving subsequence |
| ToVisitPage.WebsiteFiltersPartition | app/to-visit/page.tsx:57-61 | 'with' and 'without' website split the cafés |
| AddVisitPage.Suggestions | app/add-visit/page.tsx:66-81 | a blank term hides the suggestions and clears them; otherwise they are shown and are the first min(10, n) matches |
| AddVisitPage.SuggestionsDrawnFromMatches | app/add-visit/page.tsx:73-79 | at most ten suggestions, each a café of the list |
| AddVisitPage.FindByName | app/add-visit/page.tsx:50 | the first café with exactly that name, or none when no café has it |
| AddVisitPage.DisplayedAverage | app/add-visit/page.tsx:159 | the live rating is a whole number of tenths within 0.05 of the mean of the four ratings |
| AddVisitPage.DisplayedAverageInRange | app/add-visit/page.tsx:159 | with slider ratings the live rating is in [1,5] |
| AddVisitPage.VisitRequest | app/add-visit/page.tsx:121-132 | the request carries the selected café, visitor, date and four ratings, with empty text fields as null |
| AddVisitPage.ResetEntry | app/add-visit/page.tsx:140-147 | the visitor and texts are cleared, the ratings go back to 3, and the date is kept |
| AddVisitPage.FormRequestAccepted | app/add-visit/page.tsx:466-471 | what the form sends always passes the endpoint's rating check |
| AddVisitPage.AddVisitForm.constructor | app/add-visit/page.tsx:20-41 | the initial state: no cafés, empty search, nothing selected, ratings 3, today's date |
| AddVisitPage.AddVisitForm.Load | app/add-visit/page.tsx:60-64 | the café list is replaced; nothing else changes |
| AddVisitPage.AddVisitForm.SetSearchTerm | app/add-visit/page.tsx:190 | only the search term changes |
| AddVisitPage.AddVisitForm.RefreshSuggestions | app/add-visit/page.tsx:66-81 | the suggestions and their visibility become Suggestions of the term, drawn from the café list |
| AddVisitPage.AddVisitForm.Focus | app/add-visit/page.tsx:191 | focusing shows the suggestions when there is a term |
| AddVisitPage.AddVisitForm.SelectCafe | app/add-visit/page.tsx:83-87 | the handler alone: the café is selected, its name becomes the term, suggestions hide (until the suggestions effect runs, see SelectCafeAndSettle) |
| AddVisitPage.AddVisitForm.Preselect | app/add-visit/page.tsx:47-58 | with a name and a loaded list, an exact-name match is selected and its name becomes the term, and no match only sets the term; otherwise nothing changes |
| AddVisitPage.AddVisitForm.ShowNewCafeForm | app/add-visit/page.tsx:89-93 | the term becomes the new café's name, the form shows, suggestions hide |
| AddVisitPage.AddVisitForm.SetNewCafeName | app/add-visit/page.tsx:246 | only the new café's name changes |
| AddVisitPage.AddVisitForm.CancelNewCafe | app/add-visit/page.tsx:260 | only the new-café form hides |
| AddVisitPage.AddVisitForm.CreateNewCafe | app/add-visit/page.tsx:95-109 | the handler alone: a blank name changes nothing; otherwise the café endpoint creates the café, which is selected, named in the search box and appended to the list (before the effects run, see CreateNewCafeAndSettle) |
| AddVisitPage.AddVisitForm.SetVisitor | app/add-visit/page.tsx:16 | the visitor becomes one of the three names or the empty choice (the drop-down at line 301) |
| AddVisitPage.AddVisitForm.SetVisitDate | app/add-visit/page.tsx:321 | only the date changes |
| AddVisitPage.AddVisitForm.SetRating | app/add-visit/page.tsx:346-364 | only the chosen rating changes, to a slider value in 1..5 |
| AddVisitPage.AddVisitForm.SetText | app/add-visit/page.tsx:383-409 | only the chosen text field changes |
| AddVisitPage.AddVisitForm.AverageRating | app/add-visit/page.tsx:159 | the live rating of the current ratings, always in [1,5] |
| AddVisitPage.AddVisitForm.Submit | app/add-visit/page.tsx:111-157 | with an empty search box (a required field, line 194, which the browser checks before the submit event), without a selected café or without a visitor nothing is sent or changed (also the disabled button, line 421); otherwise the request is sent, and when it arrives the visit is stored, success shows, the entry is reset and the search and selection are cleared (before the refetch and the effects, see SubmitAndSettle) |
| AddVisitPage.AddVisitForm.DismissSuccess | app/add-visit/page.tsx:150 | the success banner hides; nothing else changes |
| AddVisitPage.AddVisitForm.SelectCafeAndSettle | app/add-visit/page.tsx:66-87 | after a selection the suggestions effect runs again when the term changed, so the suggestions reopen exactly when the café's name is not blank; with an unchanged term they stay hidden |
| AddVisitPage.AddVisitForm.CreateNewCafeAndSettle | app/add-visit/page.tsx:47-109 | after a create the longer list runs the `?cafe=` effect: a URL café of that name takes the selection back from the new café, a URL name without a match replaces the term but leaves the new café selected, no URL name leaves the new café selected; the suggestions then follow the final term |
| AddVisitPage.AddVisitForm.SubmitAndSettle | app/add-visit/page.tsx:47-157 | the same send condition as Submit; after a stored visit the refetched list runs the `?cafe=` effect: a URL café is selected again and named in the search box, a URL name without a match becomes the term with nothing selected, and without a URL name the search and selection stay cleared; the suggestions follow the final term |

## Left out

- Database access, `fetch`, `NextResponse` and JSON: the tables are sequences passed in, and a create returns the table after the call.
- The 500 responses on a database failure: no failing database is modelled.
- The per-id routes, `GET /api/cafes/[id]` and `PATCH`/`DELETE /api/visits/[id]`, are not part of this model. PATCH writes ratings without a range check, so VisitsRoute.PostVisitsKeepRatingsValid covers tables built by create requests only.
- Fuse.js fuzzy matching: AddVisitForm.RefreshSuggestions takes the search results as a parameter whose elements are cafés of the list, and the settle methods take the search as a function that only returns cafés of the list it searches.
- The map itself, its markers and their DOM styling and listeners, the scoreboard, home and layout pages, and the café import script: they are presentation or file and database I/O.
- Binary floating point: averages, percentages and `toFixed(1)` are computed on exact reals, with halves rounded away from zero.
- `toLowerCase` is modelled for ASCII letters only. `v[0]` is the first character of the string, not the first UTF-16 code unit.
- Dates are integers. A visit date supplied as text is assumed to be parsed already; an empty or missing one is None.
- VisitsRoute.PostVisit: ratings are integers, so a missing or non-numeric rating, which the source's `<`/`>` comparison lets through, is not modelled.
- StatsRoute.ComputeOverview: the overview percentage is returned as the string `'0'` or a `toFixed(1)` string; the model gives the number it spells.
- VisitsRoute.ListVisits: the order of visits with equal dates is the database's; the model only promises newest-first and a permutation.
- VisitedPage.SortView: when both cafés lack a last visit the source comparator returns 1 either way, which is no consistent order. The model keeps such cafés in their filtered order after the dated ones.
- `Object.entries` puts integer-like keys first in numeric order; visitor names and area names are assumed not to be integer-like.
- The reduces index plain objects, so a visitor or area named after an inherited property (`constructor`, `toString`) starts from that inherited value instead of 0 or a fresh entry; the model's dictionaries start empty for every name.
- React effects, Suspense and the five-second success timer: re-running the filter effects is the caller calling the filter functions; the timer is AddVisitForm.DismissSuccess. In the add-visit form the effects are run by the three settle methods, once each in declaration order on the final state; the intermediate renders are not modelled.
- AddVisitPage.AddVisitForm.Submit: the refetch after a successful submit is the `data` argument of SubmitAndSettle, which loads it; a request that fails in transit is the `delivered = false` case. Of the browser's constraint validation only the empty search box is modelled; the visitor drop-down's `required` is already the handler's own visitor check.
- AddVisitPage.AddVisitForm.CreateNewCafe: a failed create request is not modelled (the source would select the error body as a café).
- AddVisitPage.AddVisitForm: the visitor, date, rating and text inputs are grouped into one `entry` field.
