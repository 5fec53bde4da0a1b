/** The records the application stores and exchanges: cafés and visits as
    the persistent store holds them, the per-café summary that the café list
    endpoint returns, and the two outcomes of a create request. */
module Records {

  datatype Option<+T> = None | Some(value: T)

  /** A create request either succeeds (HTTP 201) or is rejected (HTTP 400). */
  datatype Response<+T> = Created(value: T) | BadRequest(message: string)

  /** One visitor's dated visit to one café, with its four ratings. */
  datatype Visit = Visit(
    id: string,
    cafeId: string,
    visitorName: string,
    visitDate: int,
    vibeRating: int,
    foodRating: int,
    coffeeRating: int,
    priceRating: int,
    itemsBought: Option<string>,
    recommendations: Option<string>,
    notes: Option<string>)

  /** A café row, eagerly joined with its visits. */
  datatype Cafe = Cafe(
    id: string,
    name: string,
    area: Option<string>,
    postcode: Option<string>,
    latitude: Option<real>,
    longitude: Option<real>,
    website: Option<string>,
    neighbourhood: Option<string>,
    source: string,
    visits: seq<Visit>)

  /** A café together with the aggregates that the café list endpoint
      computes from its visits. */
  datatype CafeSummary = CafeSummary(
    cafe: Cafe,
    avgRating: real,
    avgVibe: real,
    avgFood: real,
    avgCoffee: real,
    avgPrice: real,
    totalVisits: nat,
    uniqueVisitors: seq<string>,
    visitorCounts: map<string, nat>,
    lastVisit: Option<int>)

  /** The four rating dimensions of a visit. */
  datatype Dimension = Vibe | Food | Coffee | Price

  function Rating(v: Visit, d: Dimension): int
  {
    match d
    case Vibe => v.vibeRating
    case Food => v.foodRating
    case Coffee => v.coffeeRating
    case Price => v.priceRating
  }

  /** A rating the visit endpoint accepts. */
  predicate InRange(rating: int)
  {
    1 <= rating <= 5
  }

  predicate HasValidRatings(v: Visit)
  {
    InRange(v.vibeRating) && InRange(v.foodRating) && InRange(v.coffeeRating) && InRange(v.priceRating)
  }

  /** JavaScript truthiness of an optional text: null and "" are falsy. */
  predicate TruthyText(s: Option<string>)
  {
    s.Some? && s.value != ""
  }

  /** A summarised café with at least one visit. */
  predicate IsVisited(c: CafeSummary)
  {
    c.totalVisits > 0
  }

  /** JavaScript truthiness of an optional number: null and 0 are falsy. */
  predicate TruthyNumber(x: Option<real>)
  {
    x.Some? && x.value != 0.0
  }
}
