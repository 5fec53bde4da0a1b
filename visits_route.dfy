/** The visit endpoints: POST /api/visits, which checks the four ratings
    and stores a visit, and GET /api/visits, which lists every visit,
    newest first. */
module VisitsRoute {
  import opened Records
  import opened Sorting

  /** The fields of a create request. An absent or empty date string is
      None; a present one is its parsed date. */
  datatype VisitInput = VisitInput(
    cafeId: string,
    visitorName: string,
    visitDate: Option<int>,
    vibeRating: int,
    foodRating: int,
    coffeeRating: int,
    priceRating: int,
    itemsBought: Option<string>,
    recommendations: Option<string>,
    notes: Option<string>)

  /** The ratings in the order the handler lists them. */
  function SubmittedRatings(body: VisitInput): seq<int>
  {
    [body.vibeRating, body.foodRating, body.coffeeRating, body.priceRating]
  }

  predicate OutOfRange(rating: int)
  {
    rating < 1 || rating > 5
  }

  /** `ratings.some(rating => rating < 1 || rating > 5)`. */
  function SomeOutOfRange(ratings: seq<int>): (r: bool)
    ensures r <==> exists i :: 0 <= i < |ratings| && OutOfRange(ratings[i])
  {
    if ratings == [] then false
    else
      OutOfRange(ratings[0]) || (
        var rest := SomeOutOfRange(ratings[1..]);
        assert forall i :: 1 <= i < |ratings| ==> ratings[i] == ratings[1..][i - 1];
        rest)
  }

  /** The check passes exactly when every one of the four ratings is
      between 1 and 5. */
  lemma RatingsCheckIsRange(body: VisitInput)
    ensures !SomeOutOfRange(SubmittedRatings(body)) <==>
      InRange(body.vibeRating) && InRange(body.foodRating)
      && InRange(body.coffeeRating) && InRange(body.priceRating)
  {
    var rs := SubmittedRatings(body);
    if !SomeOutOfRange(rs) {
      assert !OutOfRange(rs[0]) && !OutOfRange(rs[1]) && !OutOfRange(rs[2]) && !OutOfRange(rs[3]);
    }
  }

  /** POST /api/visits over the visit table at time `now`: a rating
      outside 1..5 is rejected and nothing is stored; otherwise the visit
      is appended with the submitted fields, dated `now` when no date is
      given. */
  function PostVisit(store: seq<Visit>, body: VisitInput, now: int, newId: string): (r: (Response<Visit>, seq<Visit>))
    ensures r.0.BadRequest? <==>
      OutOfRange(body.vibeRating) || OutOfRange(body.foodRating)
      || OutOfRange(body.coffeeRating) || OutOfRange(body.priceRating)
    ensures r.0.BadRequest? ==> r.1 == store && r.0.message == "Ratings must be between 1 and 5"
    ensures r.0.Created? ==> r.1 == store + [r.0.value] && HasValidRatings(r.0.value)
    ensures r.0.Created? ==>
      var v := r.0.value;
      && v.cafeId == body.cafeId && v.visitorName == body.visitorName
      && v.vibeRating == body.vibeRating && v.foodRating == body.foodRating
      && v.coffeeRating == body.coffeeRating && v.priceRating == body.priceRating
      && v.itemsBought == body.itemsBought && v.recommendations == body.recommendations
      && v.notes == body.notes
    ensures r.0.Created? ==> r.0.value.visitDate == (if body.visitDate.Some? then body.visitDate.value else now)
  {
    RatingsCheckIsRange(body);
    if SomeOutOfRange(SubmittedRatings(body)) then
      (BadRequest("Ratings must be between 1 and 5"), store)
    else
      var visit := Visit(
        newId,
        body.cafeId,
        body.visitorName,
        if body.visitDate.Some? then body.visitDate.value else now,
        body.vibeRating,
        body.foodRating,
        body.coffeeRating,
        body.priceRating,
        body.itemsBought,
        body.recommendations,
        body.notes);
      (Created(visit), store + [visit])
  }

  /** Every stored visit has ratings in 1..5 when the table is built by
      create requests only. */
  predicate AllValid(store: seq<Visit>)
  {
    forall i :: 0 <= i < |store| ==> HasValidRatings(store[i])
  }

  /** The create endpoint keeps every stored rating in range. */
  lemma PostVisitKeepsRatingsValid(store: seq<Visit>, body: VisitInput, now: int, newId: string)
    requires AllValid(store)
    ensures AllValid(PostVisit(store, body, now, newId).1)
  {
    var r := PostVisit(store, body, now, newId);
    if r.0.Created? {
      assert forall i :: 0 <= i < |store| ==> r.1[i] == store[i];
    }
  }

  /** A table built by a run of create requests holds valid ratings only. */
  lemma {:induction false} PostVisitsKeepRatingsValid(store: seq<Visit>, bodies: seq<VisitInput>, now: int, newId: string)
    requires AllValid(store)
    ensures AllValid(PostAll(store, bodies, now, newId))
    decreases |bodies|
  {
    if bodies != [] {
      PostVisitKeepsRatingsValid(store, bodies[0], now, newId);
      PostVisitsKeepRatingsValid(PostVisit(store, bodies[0], now, newId).1, bodies[1..], now, newId);
    }
  }

  /** The table after a run of create requests. */
  function PostAll(store: seq<Visit>, bodies: seq<VisitInput>, now: int, newId: string): seq<Visit>
    decreases |bodies|
  {
    if bodies == [] then store
    else PostAll(PostVisit(store, bodies[0], now, newId).1, bodies[1..], now, newId)
  }

  // ---------------------------------------------------------------------
  // GET /api/visits

  function DateKey(v: Visit): real
  {
    v.visitDate as real
  }

  /** GET /api/visits: every visit, ordered by visit date, newest first. */
  function ListVisits(store: seq<Visit>): (r: seq<Visit>)
    ensures multiset(r) == multiset(store)
    ensures forall i, j :: 0 <= i < j < |r| ==> r[i].visitDate >= r[j].visitDate
    ensures r != [] ==> forall v :: v in store ==> r[0].visitDate >= v.visitDate
  {
    var r := SortByDesc(store, DateKey);
    assert forall i, j :: 0 <= i < j < |r| ==> DateKey(r[i]) >= DateKey(r[j]);
    forall v | v in store
      ensures r[0].visitDate >= v.visitDate
    {
      assert v in multiset(r);
      var k :| 0 <= k < |r| && r[k] == v;
      assert k == 0 || DateKey(r[0]) >= DateKey(r[k]);
    }
    r
  }
}
