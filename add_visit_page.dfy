/** The add-visit form: picking a café (by search suggestions, by the
    `?cafe=` query parameter or by creating a new one), filling in the
    visit, and submitting it. Each piece of component state is a field of
    AddVisitForm and each handler a method; the fetches go to the models of
    the two create endpoints. */
module AddVisitPage {
  import opened Records
  import opened Text
  import opened Rounding
  import CafesRoute
  import VisitsRoute

  /** The people the visitor drop-down offers. */
  const Visitors: seq<string> := ["Eleanor", "Hannah", "Anna"]

  /** At most this many suggestions are shown. */
  const MaxSuggestions: nat := 10

  /** The suggestions effect: a blank term clears and hides them; otherwise
      the first ten matches are shown. */
  function Suggestions(term: string, matches: seq<Cafe>): (r: (seq<Cafe>, bool))
    ensures r.1 <==> !IsBlank(term)
    ensures !r.1 ==> r.0 == []
    ensures r.1 ==> |r.0| == (if |matches| < MaxSuggestions then |matches| else MaxSuggestions)
    ensures r.1 ==> r.0 == matches[..|r.0|]
  {
    if IsBlank(term) then ([], false)
    else if |matches| <= MaxSuggestions then (matches, true)
    else (matches[..MaxSuggestions], true)
  }

  /** Whatever the search returns, the suggestions are some of its results,
      at most ten of them. */
  lemma SuggestionsDrawnFromMatches(term: string, matches: seq<Cafe>, cafes: seq<Cafe>)
    requires forall m :: m in matches ==> m in cafes
    ensures |Suggestions(term, matches).0| <= MaxSuggestions
    ensures forall s :: s in Suggestions(term, matches).0 ==> s in cafes
  {
    var r := Suggestions(term, matches);
    forall s | s in r.0 ensures s in cafes {
      var k :| 0 <= k < |r.0| && r.0[k] == s;
      assert matches[k] == s;
    }
  }

  /** `cafes.find(c => c.name === name)`, as the position it finds. */
  function FindByName(cafes: seq<Cafe>, name: string): (r: Option<nat>)
    ensures r.Some? ==> r.value < |cafes| && cafes[r.value].name == name
    ensures r.Some? ==> forall k :: 0 <= k < r.value ==> cafes[k].name != name
    ensures r.None? ==> forall k :: 0 <= k < |cafes| ==> cafes[k].name != name
  {
    if cafes == [] then None
    else if cafes[0].name == name then Some(0)
    else
      match FindByName(cafes[1..], name)
      case None => None
      case Some(i) => Some(i + 1)
  }

  /** The fuzzy search of the suggestions effect, as a parameter: whatever
      it returns for a term is drawn from the café list it searched. */
  ghost predicate SearchWithin(search: (string, seq<Cafe>) -> seq<Cafe>)
  {
    forall term, cafes, m :: m in search(term, cafes) ==> m in cafes
  }

  /** `field || null`. */
  function OrNull(s: string): (r: Option<string>)
    ensures r.None? <==> s == ""
    ensures r.Some? ==> r.value == s
  {
    if s == "" then None else Some(s)
  }

  /** The overall rating shown while the form is filled in:
      `((vibe + food + coffee + price) / 4).toFixed(1)`. */
  function DisplayedAverage(vibe: int, food: int, coffee: int, price: int): (r: real)
    ensures IsTenth(r)
    ensures (vibe + food + coffee + price) as real / 4.0 - 0.05 <= r <= (vibe + food + coffee + price) as real / 4.0 + 0.05
  {
    RoundTenth((vibe + food + coffee + price) as real / 4.0)
  }

  /** With every rating on the 1 to 5 scale, so is the displayed average. */
  lemma DisplayedAverageInRange(vibe: int, food: int, coffee: int, price: int)
    requires InRange(vibe) && InRange(food) && InRange(coffee) && InRange(price)
    ensures 1.0 <= DisplayedAverage(vibe, food, coffee, price) <= 5.0
  {
    RoundTenthWithin((vibe + food + coffee + price) as real / 4.0, 1, 5);
  }

  /** The text fields of the form. */
  datatype TextField = ItemsBought | Recommendations | Notes

  /** The fields that describe the visit, as one value. */
  datatype Entry = Entry(
    visitor: string,
    visitDate: Option<int>,
    vibe: int,
    food: int,
    coffee: int,
    price: int,
    itemsBought: string,
    recommendations: string,
    notes: string)

  /** The fields that pick the café, as one value. */
  datatype Picker = Picker(
    cafes: seq<Cafe>,
    searchTerm: string,
    filteredCafes: seq<Cafe>,
    selectedCafe: Option<Cafe>,
    showSuggestions: bool,
    showNewCafeForm: bool,
    newCafeName: string)

  /** The request body of a submit: the selected café, the visitor, the
      date as entered (an emptied date input is None) and the ratings, with
      empty text fields sent as null. */
  function VisitRequest(cafe: Cafe, e: Entry): (r: VisitsRoute.VisitInput)
    ensures r.cafeId == cafe.id && r.visitorName == e.visitor && r.visitDate == e.visitDate
    ensures VisitsRoute.SubmittedRatings(r) == [e.vibe, e.food, e.coffee, e.price]
    ensures r.itemsBought.None? <==> e.itemsBought == ""
    ensures r.recommendations.None? <==> e.recommendations == ""
    ensures r.notes.None? <==> e.notes == ""
  {
    VisitsRoute.VisitInput(cafe.id, e.visitor, e.visitDate, e.vibe, e.food, e.coffee, e.price,
      OrNull(e.itemsBought), OrNull(e.recommendations), OrNull(e.notes))
  }

  /** The entry after a successful submit: the visitor, the ratings and
      the text fields go back to their defaults; the date is kept. */
  function ResetEntry(e: Entry): (r: Entry)
    ensures r.visitor == "" && r.visitDate == e.visitDate
    ensures r.vibe == 3 && r.food == 3 && r.coffee == 3 && r.price == 3
    ensures r.itemsBought == "" && r.recommendations == "" && r.notes == ""
  {
    Entry("", e.visitDate, 3, 3, 3, 3, "", "", "")
  }

  /** The ratings the sliders produce and the visitors the drop-down
      offers. */
  predicate EntryValid(e: Entry)
  {
    && InRange(e.vibe) && InRange(e.food) && InRange(e.coffee) && InRange(e.price)
    && (e.visitor == "" || e.visitor in Visitors)
  }

  /** Whatever the form submits passes the visit endpoint's rating check. */
  lemma FormRequestAccepted(cafe: Cafe, e: Entry, store: seq<Visit>, now: int, newId: string)
    requires EntryValid(e)
    ensures VisitsRoute.PostVisit(store, VisitRequest(cafe, e), now, newId).0.Created?
  {
  }

  class AddVisitForm {
    var cafes: seq<Cafe>
    var searchTerm: string
    var filteredCafes: seq<Cafe>
    var selectedCafe: Option<Cafe>
    var showSuggestions: bool
    var showNewCafeForm: bool
    var newCafeName: string
    /** The visitor, date, rating and text inputs. */
    var entry: Entry
    var loading: bool
    var success: bool

    function CurrentPicker(): Picker
      reads this
    {
      Picker(cafes, searchTerm, filteredCafes, selectedCafe, showSuggestions, showNewCafeForm, newCafeName)
    }

    /** Between two events: no request in flight, ratings and visitor as
        the inputs allow, and at most ten suggestions. */
    ghost predicate Valid()
      reads this
    {
      && EntryValid(entry)
      && |filteredCafes| <= MaxSuggestions
      && !loading
    }

    /** The initial state, dated `today`. */
    constructor (today: int)
      ensures Valid()
      ensures CurrentPicker() == Picker([], "", [], None, false, false, "")
      ensures entry == Entry("", Some(today), 3, 3, 3, 3, "", "", "")
      ensures !loading && !success
    {
      cafes, searchTerm, filteredCafes, selectedCafe := [], "", [], None;
      showSuggestions, showNewCafeForm, newCafeName := false, false, "";
      entry := Entry("", Some(today), 3, 3, 3, 3, "", "", "");
      loading, success := false, false;
    }

    /** `fetchCafes`: the café list arrives. */
    method Load(data: seq<Cafe>)
      requires Valid()
      modifies this
      ensures Valid()
      ensures cafes == data
      ensures CurrentPicker() == old(CurrentPicker()).(cafes := data)
      ensures entry == old(entry) && success == old(success)
    {
      cafes := data;
    }

    /** Typing in the search box. */
    method SetSearchTerm(term: string)
      requires Valid()
      modifies this
      ensures Valid()
      ensures CurrentPicker() == old(CurrentPicker()).(searchTerm := term)
      ensures entry == old(entry) && success == old(success)
    {
      searchTerm := term;
    }

    /** The suggestions effect, given what the fuzzy search over `cafes`
        returned for the current term. */
    method RefreshSuggestions(matches: seq<Cafe>)
      requires Valid()
      requires forall m :: m in matches ==> m in cafes
      modifies this
      ensures Valid()
      ensures (filteredCafes, showSuggestions) == Suggestions(searchTerm, matches)
      ensures forall s :: s in filteredCafes ==> s in cafes
      ensures CurrentPicker() == old(CurrentPicker()).(filteredCafes := filteredCafes, showSuggestions := showSuggestions)
      ensures entry == old(entry) && success == old(success)
    {
      SuggestionsDrawnFromMatches(searchTerm, matches, cafes);
      var r := Suggestions(searchTerm, matches);
      filteredCafes := r.0;
      showSuggestions := r.1;
    }

    /** Focusing the search box shows the suggestions again when there is
        a term. */
    method Focus()
      requires Valid()
      modifies this
      ensures Valid()
      ensures CurrentPicker() == old(CurrentPicker()).(showSuggestions := old(showSuggestions) || searchTerm != "")
      ensures entry == old(entry) && success == old(success)
    {
      if searchTerm != "" {
        showSuggestions := true;
      }
    }

    /** `handleSelectCafe`. */
    method SelectCafe(cafe: Cafe)
      requires Valid()
      modifies this
      ensures Valid()
      ensures selectedCafe == Some(cafe) && searchTerm == cafe.name && !showSuggestions
      ensures CurrentPicker() == old(CurrentPicker()).(selectedCafe := Some(cafe), searchTerm := cafe.name, showSuggestions := false)
      ensures entry == old(entry) && success == old(success)
    {
      selectedCafe := Some(cafe);
      searchTerm := cafe.name;
      showSuggestions := false;
    }

    /** The `?cafe=` effect: with a café list loaded, a café of exactly that
        name is selected; otherwise the name only becomes the search term. */
    method Preselect(cafeName: Option<string>)
      requires Valid()
      modifies this
      ensures Valid()
      ensures !TruthyText(cafeName) || old(cafes) == [] ==> CurrentPicker() == old(CurrentPicker())
      ensures TruthyText(cafeName) && old(cafes) != [] ==>
        match FindByName(old(cafes), cafeName.value)
        case Some(i) =>
          CurrentPicker() == old(CurrentPicker()).(selectedCafe := Some(old(cafes)[i]), searchTerm := cafeName.value)
        case None =>
          CurrentPicker() == old(CurrentPicker()).(searchTerm := cafeName.value)
      ensures entry == old(entry) && success == old(success)
    {
      if TruthyText(cafeName) && |cafes| > 0 {
        var found := FindByName(cafes, cafeName.value);
        if found.Some? {
          var cafe := cafes[found.value];
          selectedCafe := Some(cafe);
          searchTerm := cafe.name;
        } else {
          searchTerm := cafeName.value;
        }
      }
    }

    /** `handleShowNewCafeForm`: the search term becomes the new café's
        name. */
    method ShowNewCafeForm()
      requires Valid()
      modifies this
      ensures Valid()
      ensures CurrentPicker() == old(CurrentPicker()).(newCafeName := old(searchTerm), showNewCafeForm := true, showSuggestions := false)
      ensures entry == old(entry) && success == old(success)
    {
      newCafeName := searchTerm;
      showNewCafeForm := true;
      showSuggestions := false;
    }

    method SetNewCafeName(name: string)
      requires Valid()
      modifies this
      ensures Valid()
      ensures CurrentPicker() == old(CurrentPicker()).(newCafeName := name)
      ensures entry == old(entry) && success == old(success)
    {
      newCafeName := name;
    }

    /** The cancel button of the new-café form. */
    method CancelNewCafe()
      requires Valid()
      modifies this
      ensures Valid()
      ensures CurrentPicker() == old(CurrentPicker()).(showNewCafeForm := false)
      ensures entry == old(entry) && success == old(success)
    {
      showNewCafeForm := false;
    }

    /** `handleCreateNewCafe` against the café table `server`: a blank name
        does nothing; otherwise the café is created with that name, selected,
        and appended to the list. */
    method CreateNewCafe(server: seq<Cafe>, newId: string) returns (serverAfter: seq<Cafe>)
      requires Valid()
      modifies this
      ensures Valid()
      ensures IsBlank(old(newCafeName)) ==> serverAfter == server && CurrentPicker() == old(CurrentPicker())
      ensures !IsBlank(old(newCafeName)) ==>
        var response := CafesRoute.CreateCafe(server, CafesRoute.CafeInput(Some(old(newCafeName)), None, None, None, None, None), newId).0;
        && response.Created?
        && serverAfter == server + [response.value]
        && response.value.name == old(newCafeName)
        && CurrentPicker() == old(CurrentPicker()).(selectedCafe := Some(response.value),
             searchTerm := old(newCafeName), showNewCafeForm := false, cafes := old(cafes) + [response.value])
      ensures entry == old(entry) && success == old(success)
    {
      if IsBlank(newCafeName) {
        return server;
      }
      var created := CafesRoute.CreateCafe(server, CafesRoute.CafeInput(Some(newCafeName), None, None, None, None, None), newId);
      var newCafe := created.0.value;
      serverAfter := created.1;
      selectedCafe := Some(newCafe);
      searchTerm := newCafe.name;
      showNewCafeForm := false;
      cafes := cafes + [newCafe];
    }

    /** The visitor drop-down: one of the visitors, or the empty choice. */
    method SetVisitor(v: string)
      requires Valid()
      requires v == "" || v in Visitors
      modifies this
      ensures Valid()
      ensures entry == old(entry).(visitor := v)
      ensures CurrentPicker() == old(CurrentPicker()) && success == old(success)
    {
      entry := entry.(visitor := v);
    }

    /** The date input; an emptied input is None. */
    method SetVisitDate(d: Option<int>)
      requires Valid()
      modifies this
      ensures Valid()
      ensures entry == old(entry).(visitDate := d)
      ensures CurrentPicker() == old(CurrentPicker()) && success == old(success)
    {
      entry := entry.(visitDate := d);
    }

    /** A rating slider, whose range input yields 1 to 5. */
    method SetRating(d: Dimension, value: int)
      requires Valid()
      requires InRange(value)
      modifies this
      ensures Valid()
      ensures entry == match d
        case Vibe => old(entry).(vibe := value)
        case Food => old(entry).(food := value)
        case Coffee => old(entry).(coffee := value)
        case Price => old(entry).(price := value)
      ensures CurrentPicker() == old(CurrentPicker()) && success == old(success)
    {
      match d
      case Vibe => entry := entry.(vibe := value);
      case Food => entry := entry.(food := value);
      case Coffee => entry := entry.(coffee := value);
      case Price => entry := entry.(price := value);
    }

    method SetText(field: TextField, value: string)
      requires Valid()
      modifies this
      ensures Valid()
      ensures entry == match field
        case ItemsBought => old(entry).(itemsBought := value)
        case Recommendations => old(entry).(recommendations := value)
        case Notes => old(entry).(notes := value)
      ensures CurrentPicker() == old(CurrentPicker()) && success == old(success)
    {
      match field
      case ItemsBought => entry := entry.(itemsBought := value);
      case Recommendations => entry := entry.(recommendations := value);
      case Notes => entry := entry.(notes := value);
    }

    /** The live overall rating, always on the 1 to 5 scale. */
    function AverageRating(): (r: real)
      reads this
      requires Valid()
      ensures 1.0 <= r <= 5.0
      ensures r == DisplayedAverage(entry.vibe, entry.food, entry.coffee, entry.price)
    {
      DisplayedAverage(entry.vibe, entry.food, entry.coffee, entry.price)
    }

    /** Submitting the form, then `handleSubmit` against the visit table
        `store` at time `now`. The search box and the visitor drop-down are
        required fields, so the browser does not fire the submit event while
        the search box is empty; without a selected café or a visitor the
        handler itself returns. Nothing happens in those cases. Otherwise the
        request is sent; when it arrives (`delivered`) the visit endpoint
        stores it, which always succeeds for what the form sends, and the
        form is reset and shows success; when it fails in transit nothing
        else changes. */
    method Submit(store: seq<Visit>, now: int, newId: string, delivered: bool)
      returns (request: Option<VisitsRoute.VisitInput>, storeAfter: seq<Visit>)
      requires Valid()
      modifies this
      ensures Valid()
      ensures request.None? <==> old(searchTerm) == "" || old(selectedCafe).None? || old(entry.visitor) == ""
      ensures request.None? ==>
        storeAfter == store && CurrentPicker() == old(CurrentPicker())
        && entry == old(entry) && success == old(success)
      ensures request.Some? ==> request.value == VisitRequest(old(selectedCafe).value, old(entry))
      ensures request.Some? && !delivered ==>
        storeAfter == store && CurrentPicker() == old(CurrentPicker())
        && entry == old(entry) && success == old(success)
      ensures request.Some? && delivered ==>
        var response := VisitsRoute.PostVisit(store, request.value, now, newId);
        && response.0.Created?
        && storeAfter == response.1
        && success
        && entry == ResetEntry(old(entry))
        && CurrentPicker() == old(CurrentPicker()).(searchTerm := "", selectedCafe := None)
    {
      if searchTerm == "" || selectedCafe.None? || entry.visitor == "" {
        return None, store;
      }
      loading := true;
      var body := VisitRequest(selectedCafe.value, entry);
      request := Some(body);
      storeAfter := store;
      if delivered {
        FormRequestAccepted(selectedCafe.value, entry, store, now, newId);
        var response := VisitsRoute.PostVisit(store, body, now, newId);
        storeAfter := response.1;
        if response.0.Created? {
          success := true;
          searchTerm, selectedCafe := "", None;
          entry := ResetEntry(entry);
        }
      }
      loading := false;
    }

    /** The timer that hides the success banner. */
    method DismissSuccess()
      requires Valid()
      modifies this
      ensures Valid()
      ensures !success
      ensures CurrentPicker() == old(CurrentPicker()) && entry == old(entry)
    {
      success := false;
    }

    // -------------------------------------------------------------------
    // Handlers together with the effects they set off. The `?cafe=` effect
    // runs again whenever the café list changes, the suggestions effect
    // whenever the term or the café list changes, in that order.

    /** `handleSelectCafe` and then the suggestions effect: when the café's
        name differs from the term, the effect runs on the new term, so a
        café with a non-blank name opens the suggestions again. */
    method SelectCafeAndSettle(cafe: Cafe, search: (string, seq<Cafe>) -> seq<Cafe>)
      requires Valid() && SearchWithin(search)
      modifies this
      ensures Valid()
      ensures selectedCafe == Some(cafe) && searchTerm == cafe.name
      ensures cafe.name == old(searchTerm) ==> !showSuggestions && filteredCafes == old(filteredCafes)
      ensures cafe.name != old(searchTerm) ==>
        && (filteredCafes, showSuggestions) == Suggestions(cafe.name, search(cafe.name, cafes))
        && (showSuggestions <==> !IsBlank(cafe.name))
      ensures CurrentPicker() == old(CurrentPicker()).(selectedCafe := Some(cafe), searchTerm := cafe.name,
        filteredCafes := filteredCafes, showSuggestions := showSuggestions)
      ensures entry == old(entry) && success == old(success)
    {
      var before := searchTerm;
      SelectCafe(cafe);
      if cafe.name != before {
        RefreshSuggestions(search(cafe.name, cafes));
      }
    }

    /** `handleCreateNewCafe` and then its effects: the longer café list
        runs the `?cafe=` effect again, so a café named in the URL takes the
        selection back from the new café (or, when no café has that name,
        the URL name takes back the term), and the suggestions follow the
        resulting term. */
    method CreateNewCafeAndSettle(server: seq<Cafe>, newId: string, cafeName: Option<string>,
        search: (string, seq<Cafe>) -> seq<Cafe>) returns (serverAfter: seq<Cafe>)
      requires Valid() && SearchWithin(search)
      modifies this
      ensures Valid()
      ensures IsBlank(old(newCafeName)) ==> serverAfter == server && CurrentPicker() == old(CurrentPicker())
      ensures !IsBlank(old(newCafeName)) ==>
        var created := CafesRoute.CreateCafe(server, CafesRoute.CafeInput(Some(old(newCafeName)), None, None, None, None, None), newId).0.value;
        && serverAfter == server + [created]
        && cafes == old(cafes) + [created]
        && (!TruthyText(cafeName) ==> selectedCafe == Some(created) && searchTerm == old(newCafeName))
        && (TruthyText(cafeName) ==>
              && searchTerm == cafeName.value
              && match FindByName(cafes, cafeName.value)
                 case Some(i) => selectedCafe == Some(cafes[i])
                 case None => selectedCafe == Some(created))
        && (filteredCafes, showSuggestions) == Suggestions(searchTerm, search(searchTerm, cafes))
        && CurrentPicker() == old(CurrentPicker()).(cafes := cafes, searchTerm := searchTerm,
             selectedCafe := selectedCafe, filteredCafes := filteredCafes,
             showSuggestions := showSuggestions, showNewCafeForm := false)
      ensures entry == old(entry) && success == old(success)
    {
      var blank := IsBlank(newCafeName);
      serverAfter := CreateNewCafe(server, newId);
      if !blank {
        Preselect(cafeName);
        RefreshSuggestions(search(searchTerm, cafes));
      }
    }

    /** `handleSubmit` and then its effects: after a stored visit the café
        list is fetched again (`data`), which runs the `?cafe=` effect, so a
        café named in the URL is selected again and its name is the term;
        the suggestions follow the resulting term. */
    method SubmitAndSettle(store: seq<Visit>, now: int, newId: string, delivered: bool,
        data: seq<Cafe>, cafeName: Option<string>, search: (string, seq<Cafe>) -> seq<Cafe>)
      returns (request: Option<VisitsRoute.VisitInput>, storeAfter: seq<Visit>)
      requires Valid() && SearchWithin(search)
      modifies this
      ensures Valid()
      ensures request.None? <==> old(searchTerm) == "" || old(selectedCafe).None? || old(entry.visitor) == ""
      ensures request.Some? ==> request.value == VisitRequest(old(selectedCafe).value, old(entry))
      ensures request.None? || !delivered ==>
        storeAfter == store && CurrentPicker() == old(CurrentPicker())
        && entry == old(entry) && success == old(success)
      ensures request.Some? && delivered ==>
        && storeAfter == VisitsRoute.PostVisit(store, request.value, now, newId).1
        && success
        && entry == ResetEntry(old(entry))
        && cafes == data
        && (!TruthyText(cafeName) || data == [] ==> selectedCafe == None && searchTerm == "")
        && (TruthyText(cafeName) && data != [] ==>
              && searchTerm == cafeName.value
              && match FindByName(data, cafeName.value)
                 case Some(i) => selectedCafe == Some(data[i])
                 case None => selectedCafe == None)
        && (filteredCafes, showSuggestions) == Suggestions(searchTerm, search(searchTerm, data))
        && CurrentPicker() == old(CurrentPicker()).(cafes := data, searchTerm := searchTerm,
             selectedCafe := selectedCafe, filteredCafes := filteredCafes,
             showSuggestions := showSuggestions)
    {
      request, storeAfter := Submit(store, now, newId, delivered);
      if request.Some? && delivered {
        Load(data);
        Preselect(cafeName);
        RefreshSuggestions(search(searchTerm, cafes));
      }
    }
  }
}
