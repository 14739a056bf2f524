/**
 * The flight search and booking page: the city and flight choices offered,
 * the guarded search, the cart kept in session state, checkout, and this
 * page's own logout button.
 */
module SearchPage {
  import opened Wrappers
  import opened Schema
  import opened FlightRepository
  import opened BookingService
  import opened SessionState

  /** A row of the city list query. */
  datatype CityRow = CityRow(city: string)

  /** `get_cities`: the `city` field of each row in order; no rows give no cities. */
  function CityNames(rows: seq<CityRow>): (cities: seq<string>)
    ensures |cities| == |rows|
    ensures forall i :: 0 <= i < |rows| ==> cities[i] == rows[i].city
    ensures rows == [] ==> cities == []
  {
    if rows == [] then [] else [rows[0].city] + CityNames(rows[1..])
  }

  /** `sub` is `s` with some elements left out, the rest in their original order. */
  predicate IsSubsequence(sub: seq<string>, s: seq<string>)
    decreases |s|
  {
    if s == [] then sub == []
    else if sub != [] && sub[0] == s[0] then IsSubsequence(sub[1..], s[1..])
    else IsSubsequence(sub, s[1..])
  }

  /**
   * The arrival city choices: the city list without the departure city,
   * order kept; each other city keeps its multiplicity.
   */
  function ArrivalCities(cities: seq<string>, departureCity: string): (r: seq<string>)
    ensures departureCity !in r
    ensures forall c :: c in r <==> c in cities && c != departureCity
    ensures multiset(r) == multiset(cities)[departureCity := 0]
    ensures IsSubsequence(r, cities)
  {
    if cities == [] then []
    else
      var rest := ArrivalCities(cities[1..], departureCity);
      assert cities == [cities[0]] + cities[1..];
      if cities[0] == departureCity then
        rest
      else
        assert ([cities[0]] + rest)[1..] == rest;
        [cities[0]] + rest
  }

  /**
   * The page's search: identical departure and arrival airports give no
   * flights without querying; otherwise the repository search.
   */
  function GuardedSearch(view: seq<FlightDetail>, departureAirport: string, arrivalAirport: string, departureDate: nat)
    : (r: seq<FlightDetail>)
    ensures departureAirport == arrivalAirport ==> r == []
    ensures departureAirport != arrivalAirport ==> r == SearchFlights(view, departureAirport, arrivalAirport, departureDate)
  {
    if departureAirport == arrivalAirport then [] else SearchFlights(view, departureAirport, arrivalAirport, departureDate)
  }

  /** The flight ids offered for adding to the cart, in the order of the search result. */
  function FlightIds(flights: seq<FlightDetail>): (ids: seq<nat>)
    ensures |ids| == |flights|
    ensures forall i :: 0 <= i < |flights| ==> ids[i] == flights[i].flightId
  {
    if flights == [] then [] else [flights[0].flightId] + FlightIds(flights[1..])
  }

  /** Every flight id offered is that of a view row on the searched route and day, between distinct airports. */
  lemma {:induction false} OfferedFlightsMatch(
    view: seq<FlightDetail>, departureAirport: string, arrivalAirport: string, departureDate: nat, id: nat)
    requires id in FlightIds(GuardedSearch(view, departureAirport, arrivalAirport, departureDate))
    ensures departureAirport != arrivalAirport
    ensures exists f :: f in view && f.flightId == id && Matches(f, departureAirport, arrivalAirport, departureDate)
  {
    var flights := GuardedSearch(view, departureAirport, arrivalAirport, departureDate);
    var ids := FlightIds(flights);
    var i :| 0 <= i < |ids| && ids[i] == id;
    assert flights[i] in flights;
  }

  /**
   * The page module's set-up: create an empty cart when session state has
   * none. It runs when the page module is first imported, not on every rerun.
   */
  method InitCart(session: Session)
    modifies session
    ensures old(session.cart).None? ==> session.cart == Some([])
    ensures old(session.cart).Some? ==> session.cart == old(session.cart)
    ensures session.authToken == old(session.authToken) && session.user == old(session.user)
    ensures session.page == old(session.page)
  {
    if session.cart.None? {
      session.cart := Some([]);
    }
  }

  /**
   * `book_flight`: append one row to the cart; earlier rows stay as they were.
   * Without a cart entry (after session state was cleared) reading it raises
   * and nothing changes.
   */
  method BookFlight(session: Session, flightId: Option<nat>, userId: nat) returns (ok: bool)
    modifies session
    ensures ok <==> old(session.cart).Some?
    ensures ok ==> session.cart == Some(old(session.cart).value + [CartRow(flightId, userId)])
    ensures !ok ==> unchanged(session)
    ensures session.authToken == old(session.authToken) && session.user == old(session.user)
    ensures session.page == old(session.page)
  {
    if session.cart.None? {
      return false;
    }
    session.cart := Some(session.cart.value + [CartRow(flightId, userId)]);
    ok := true;
  }

  /** `clear_table_event`: a new, empty cart, whether or not there was one. */
  method ClearTableEvent(session: Session)
    modifies session
    ensures session.cart == Some([])
    ensures session.authToken == old(session.authToken) && session.user == old(session.user)
    ensures session.page == old(session.page)
  {
    session.cart := Some([]);
  }

  /**
   * Checkout found no cart entry (reading it raises), found an empty cart and
   * did nothing, or booked the first `booked` cart rows and either completed
   * or raised.
   */
  datatype CheckoutOutcome = NoCart | EmptyCart | Sold(booked: nat, complete: bool)

  /**
   * The checkout button. Without a cart entry the emptiness test raises; with
   * an empty cart nothing happens. Otherwise the whole cart goes to the
   * booking service with one booking date: every row is booked, and the cart
   * emptied, exactly when every row is insertable; otherwise the rows before
   * the first rejected one are booked, the error escapes before the cart is
   * cleared, and the cart stays.
   */
  method Checkout(session: Session, db: Database, now: nat, procStatus: string) returns (outcome: CheckoutOutcome)
    requires db.Valid()
    modifies session, db
    ensures db.Valid()
    ensures outcome == NoCart <==> old(session.cart).None?
    ensures outcome == EmptyCart <==> old(session.cart) == Some([])
    ensures !outcome.Sold? ==> unchanged(db) && unchanged(session)
    ensures outcome.Sold? ==> old(session.cart).Some? && outcome.booked <= |old(session.cart).value|
    ensures outcome.Sold? ==>
      (outcome.complete <==> forall i :: 0 <= i < |old(session.cart).value| ==>
        Insertable(old(db.flights), old(db.users), SaleRow(old(session.cart).value[i].flight, old(session.cart).value[i].user, now)))
    ensures outcome.Sold? ==> forall i :: 0 <= i < outcome.booked ==>
      Insertable(old(db.flights), old(db.users), SaleRow(old(session.cart).value[i].flight, old(session.cart).value[i].user, now))
    ensures outcome.Sold? && outcome.complete ==>
      outcome.booked == |old(session.cart).value| && session.cart == Some([])
    ensures outcome.Sold? && !outcome.complete ==>
      && outcome.booked < |old(session.cart).value|
      && !Insertable(old(db.flights), old(db.users),
           SaleRow(old(session.cart).value[outcome.booked].flight, old(session.cart).value[outcome.booked].user, now))
      && session.cart == old(session.cart)
    ensures outcome.Sold? ==> forall i :: 0 <= i < outcome.booked ==> old(session.cart).value[i].flight.Some?
    ensures outcome.Sold? ==>
      (db.bookings == old(db.bookings) +
        NewBookings(old(db.nextBookingId), ToSaleRows(old(session.cart).value, now)[..outcome.booked], procStatus))
    ensures db.flights == old(db.flights) && db.users == old(db.users)
    ensures db.payments == old(db.payments) && db.reviews == old(db.reviews)
    ensures session.authToken == old(session.authToken) && session.user == old(session.user)
    ensures session.page == old(session.page)
  {
    if session.cart.None? {
      return NoCart;
    }
    if session.cart.value == [] {
      return EmptyCart;
    }
    var inserted, ok := ProcessSale(now, session.cart.value, db, procStatus);
    if ok {
      ClearTableEvent(session);
    }
    outcome := Sold(inserted, ok);
  }

  /**
   * This page's logout button: the user becomes `None` and the page `login`;
   * the auth token and the cart stay in session state and nothing is deleted
   * from the key-value store.
   */
  method LogoutFromSearch(session: Session)
    modifies session
    ensures session.user == NoUser && session.page == Some(LoginPageName)
    ensures session.authToken == old(session.authToken) && session.cart == old(session.cart)
  {
    session.user := NoUser;
    session.page := Some(LoginPageName);
  }
}
