/**
 * The flight and booking ledger: flight-id allocation, booking creation one
 * row at a time, confirmation, payment insertion, and the three read-only
 * queries (flight search, a user's bookings, an airline's reviews). No
 * operation here touches a flight's seat count.
 */
module FlightRepository {
  import opened Wrappers
  import opened Schema

  // ---------------------------------------------------------------------
  // Flight-id allocation: the largest id in use (0 for an empty table) plus one.

  /** `COALESCE(MAX(flight_id), 0)` over the Flights table. */
  method MaxFlightId(db: Database) returns (m: nat)
    ensures forall id :: id in db.flights ==> id <= m
    ensures m in db.flights || (db.flights == map[] && m == 0)
  {
    m := 0;
    var rest := db.flights.Keys;
    while rest != {}
      invariant rest <= db.flights.Keys
      invariant forall id :: id in db.flights && id !in rest ==> id <= m
      invariant m in db.flights || (m == 0 && rest == db.flights.Keys)
      decreases rest
    {
      var id :| id in rest;
      if id >= m {
        m := id;
      }
      rest := rest - {id};
    }
  }

  /**
   * Insert a flight under the id max+1. The new id is above every existing id,
   * so it is fresh; no existing flight changes.
   */
  method AddFlight(
    db: Database, airlineId: nat, departureAirportId: nat, arrivalAirportId: nat,
    departureTime: nat, arrivalTime: nat, numberSeats: int, price: int)
    returns (flightId: nat)
    requires db.Valid()
    modifies db
    ensures db.Valid()
    ensures flightId >= 1 && flightId !in old(db.flights)
    ensures forall id :: id in old(db.flights) ==> id < flightId
    ensures flightId - 1 in old(db.flights) || (old(db.flights) == map[] && flightId == 1)
    ensures db.flights == old(db.flights)[flightId :=
      Flight(airlineId, departureAirportId, arrivalAirportId, departureTime, arrivalTime, numberSeats, price)]
    ensures db.users == old(db.users) && db.bookings == old(db.bookings)
    ensures db.payments == old(db.payments) && db.reviews == old(db.reviews)
    ensures db.nextUserId == old(db.nextUserId) && db.nextBookingId == old(db.nextBookingId)
    ensures db.nextPaymentId == old(db.nextPaymentId)
  {
    var maxId := MaxFlightId(db);
    flightId := maxId + 1;
    db.flights := db.flights[flightId :=
      Flight(airlineId, departureAirportId, arrivalAirportId, departureTime, arrivalTime, numberSeats, price)];
  }

  // ---------------------------------------------------------------------
  // Booking creation.

  /** A row of the frame handed to `add_booking`. An unselected flight is `None`. */
  datatype SaleRow = SaleRow(flightId: Option<nat>, userId: nat, bookingTime: nat)

  /** The stored procedure accepts a row when the flight and the user it names exist. */
  predicate Insertable(flights: map<nat, Flight>, users: map<nat, User>, row: SaleRow) {
    row.flightId.Some? && row.flightId.value in flights && row.userId in users
  }

  /** Bookings created for `rows` in order, under consecutive ids from `start`. */
  function NewBookings(start: nat, rows: seq<SaleRow>, status: string): (r: map<nat, Booking>)
    requires forall i :: 0 <= i < |rows| ==> rows[i].flightId.Some?
    ensures forall id :: id in r <==> start <= id < start + |rows|
  {
    if rows == [] then map[]
    else
      var last := rows[|rows| - 1];
      NewBookings(start, rows[..|rows| - 1], status)[start + |rows| - 1 :=
        Booking(last.flightId.value, last.userId, last.bookingTime, status)]
  }

  /** Row i becomes the booking with id start + i, with the row's flight, user and time. */
  lemma {:induction false} NewBookingsAt(start: nat, rows: seq<SaleRow>, status: string, i: nat)
    requires forall j :: 0 <= j < |rows| ==> rows[j].flightId.Some?
    requires i < |rows|
    ensures start + i in NewBookings(start, rows, status)
    ensures NewBookings(start, rows, status)[start + i] ==
      Booking(rows[i].flightId.value, rows[i].userId, rows[i].bookingTime, status)
  {
    if i < |rows| - 1 {
      NewBookingsAt(start, rows[..|rows| - 1], status, i);
    }
  }

  /** One booking per row: the number of bookings created is the number of rows. */
  lemma {:induction false} NewBookingsCount(start: nat, rows: seq<SaleRow>, status: string)
    requires forall i :: 0 <= i < |rows| ==> rows[i].flightId.Some?
    ensures |NewBookings(start, rows, status)| == |rows|
  {
    if rows != [] {
      NewBookingsCount(start, rows[..|rows| - 1], status);
    }
  }

  /** Booking the first k+1 rows is booking the first k and then row k under the next id. */
  lemma BookingStep(
    bookings0: map<nat, Booking>, start: nat, rows: seq<SaleRow>, k: nat, status: string,
    before: map<nat, Booking>, after: map<nat, Booking>)
    requires k < |rows|
    requires forall i :: 0 <= i <= k ==> rows[i].flightId.Some?
    requires start + k !in bookings0
    requires before == bookings0 + NewBookings(start, rows[..k], status)
    requires after == before[start + k := Booking(rows[k].flightId.value, rows[k].userId, rows[k].bookingTime, status)]
    ensures after == bookings0 + NewBookings(start, rows[..k + 1], status)
  {
    assert rows[..k + 1][..k] == rows[..k];
  }

  /** Bookings under fresh ids add their count to the table's size. */
  lemma DisjointUnionSize(a: map<nat, Booking>, b: map<nat, Booking>)
    requires a.Keys !! b.Keys
    ensures |a + b| == |a| + |b|
  {
    assert (a + b).Keys == a.Keys + b.Keys;
  }

  /**
   * One call of the booking procedure: insert a booking with `status` under the
   * next serial id. A missing flight or user raises, and nothing is inserted.
   */
  method InsertBooking(db: Database, row: SaleRow, status: string) returns (ok: bool)
    requires db.Valid()
    modifies db
    ensures db.Valid()
    ensures ok <==> Insertable(old(db.flights), old(db.users), row)
    ensures ok ==> old(db.nextBookingId) !in old(db.bookings)
    ensures ok ==> db.bookings == old(db.bookings)[old(db.nextBookingId) :=
      Booking(row.flightId.value, row.userId, row.bookingTime, status)]
    ensures ok ==> db.nextBookingId == old(db.nextBookingId) + 1
    ensures !ok ==> unchanged(db)
    ensures db.users == old(db.users) && db.flights == old(db.flights)
    ensures db.payments == old(db.payments) && db.reviews == old(db.reviews)
    ensures db.nextUserId == old(db.nextUserId) && db.nextPaymentId == old(db.nextPaymentId)
  {
    if !Insertable(db.flights, db.users, row) {
      return false;
    }
    var id := db.nextBookingId;
    db.bookings := db.bookings[id := Booking(row.flightId.value, row.userId, row.bookingTime, status)];
    db.nextBookingId := id + 1;
    ok := true;
  }

  /** `create_booking`: one booking in the pending state. */
  method CreateBooking(db: Database, flightId: nat, userId: nat, bookingDate: nat) returns (ok: bool)
    requires db.Valid()
    modifies db
    ensures db.Valid()
    ensures ok <==> flightId in old(db.flights) && userId in old(db.users)
    ensures ok ==> db.bookings == old(db.bookings)[old(db.nextBookingId) :=
      Booking(flightId, userId, bookingDate, Pending)]
    ensures ok ==> old(db.nextBookingId) !in old(db.bookings)
    ensures !ok ==> unchanged(db)
    ensures db.users == old(db.users) && db.flights == old(db.flights)
    ensures db.payments == old(db.payments) && db.reviews == old(db.reviews)
  {
    ok := InsertBooking(db, SaleRow(Some(flightId), userId, bookingDate), Pending);
  }

  /**
   * `add_booking`: one procedure call per row, in row order. The
   * three-argument procedure chooses the initial status itself (`procStatus`).
   * A row the procedure rejects raises, which ends the loop; the rows inserted
   * before it stay.
   */
  method AddBooking(db: Database, rows: seq<SaleRow>, procStatus: string) returns (inserted: nat, ok: bool)
    requires db.Valid()
    modifies db
    ensures db.Valid()
    ensures inserted <= |rows|
    ensures ok <==> forall i :: 0 <= i < |rows| ==> Insertable(old(db.flights), old(db.users), rows[i])
    ensures ok ==> inserted == |rows|
    ensures !ok ==> inserted < |rows| && !Insertable(old(db.flights), old(db.users), rows[inserted])
    ensures forall i :: 0 <= i < inserted ==> Insertable(old(db.flights), old(db.users), rows[i])
    ensures forall id :: id in old(db.bookings) ==> id < old(db.nextBookingId)
    ensures db.nextBookingId == old(db.nextBookingId) + inserted
    ensures db.bookings == old(db.bookings) + NewBookings(old(db.nextBookingId), rows[..inserted], procStatus)
    ensures db.users == old(db.users) && db.flights == old(db.flights)
    ensures db.payments == old(db.payments) && db.reviews == old(db.reviews)
    ensures db.nextUserId == old(db.nextUserId) && db.nextPaymentId == old(db.nextPaymentId)
  {
    ghost var start := db.nextBookingId;
    ghost var bookings0 := db.bookings;
    ghost var flights0, users0 := db.flights, db.users;
    assert forall id :: id in bookings0 ==> id < start;
    assert rows[..0] == [] && bookings0 + map[] == bookings0;
    inserted := 0;
    while inserted < |rows|
      invariant inserted <= |rows|
      invariant db.Valid()
      invariant forall i :: 0 <= i < inserted ==> Insertable(flights0, users0, rows[i])
      invariant db.nextBookingId == start + inserted
      invariant db.bookings == bookings0 + NewBookings(start, rows[..inserted], procStatus)
      invariant forall id :: id in bookings0 ==> id < start
      invariant db.users == users0 && db.flights == flights0
      invariant db.payments == old(db.payments) && db.reviews == old(db.reviews)
      invariant db.nextUserId == old(db.nextUserId) && db.nextPaymentId == old(db.nextPaymentId)
    {
      ghost var before := db.bookings;
      var rowOk := InsertBooking(db, rows[inserted], procStatus);
      if !rowOk {
        break;
      }
      BookingStep(bookings0, start, rows, inserted, procStatus, before, db.bookings);
      inserted := inserted + 1;
    }
    ok := inserted == |rows|;
  }

  // ---------------------------------------------------------------------
  // Confirmation and payment.

  /**
   * Set the booking's status to confirmed. Success means one row matched, so
   * any existing booking succeeds, already confirmed or not; an absent id fails.
   */
  method ConfirmBooking(db: Database, bookingId: nat) returns (ok: bool)
    requires db.Valid()
    modifies db
    ensures db.Valid()
    ensures ok <==> bookingId in old(db.bookings)
    ensures ok ==> db.bookings == old(db.bookings)[bookingId := old(db.bookings)[bookingId].(status := Confirmed)]
    ensures !ok ==> unchanged(db)
    ensures db.users == old(db.users) && db.flights == old(db.flights)
    ensures db.payments == old(db.payments) && db.reviews == old(db.reviews)
    ensures db.nextBookingId == old(db.nextBookingId) && db.nextPaymentId == old(db.nextPaymentId)
  {
    if bookingId !in db.bookings {
      return false;
    }
    db.bookings := db.bookings[bookingId := db.bookings[bookingId].(status := Confirmed)];
    ok := true;
  }

  /**
   * Insert one payment row. A booking id with no booking violates the foreign
   * key: false, and the table is unchanged.
   */
  method AddPayment(db: Database, bookingId: nat, amount: int, paymentDate: nat, paymentMethod: string)
    returns (ok: bool)
    requires db.Valid()
    modifies db
    ensures db.Valid()
    ensures ok <==> bookingId in old(db.bookings)
    ensures ok ==> old(db.nextPaymentId) !in old(db.payments)
    ensures ok ==> db.payments == old(db.payments)[old(db.nextPaymentId) :=
      Payment(bookingId, amount, paymentDate, paymentMethod)]
    ensures !ok ==> unchanged(db)
    ensures db.users == old(db.users) && db.flights == old(db.flights)
    ensures db.bookings == old(db.bookings) && db.reviews == old(db.reviews)
    ensures db.nextUserId == old(db.nextUserId) && db.nextBookingId == old(db.nextBookingId)
  {
    if bookingId !in db.bookings {
      return false;
    }
    var id := db.nextPaymentId;
    db.payments := db.payments[id := Payment(bookingId, amount, paymentDate, paymentMethod)];
    db.nextPaymentId := id + 1;
    ok := true;
  }

  // ---------------------------------------------------------------------
  // Flight search over the flight_details view.

  /** A row of the flight_details view: a flight joined with its airline and airport names. */
  datatype FlightDetail = FlightDetail(
    flightId: nat,
    airlineName: string,
    departureAirportName: string,
    arrivalAirportName: string,
    departureTime: nat,
    arrivalTime: nat,
    price: int,
    numberSeats: int)

  const SecondsPerDay: nat := 86400

  /** `DATE(t)`: the day number of a time in seconds. */
  function Day(t: nat): nat {
    t / SecondsPerDay
  }

  predicate Matches(f: FlightDetail, departureAirport: string, arrivalAirport: string, departureDate: nat) {
    && f.departureAirportName == departureAirport
    && f.arrivalAirportName == arrivalAirport
    && Day(f.departureTime) == departureDate
  }

  /** The rows satisfying the WHERE clause, each as often as it occurs in the view. */
  function Where(view: seq<FlightDetail>, departureAirport: string, arrivalAirport: string, departureDate: nat)
    : (r: seq<FlightDetail>)
    ensures forall f ::
      multiset(r)[f] == (if Matches(f, departureAirport, arrivalAirport, departureDate) then multiset(view)[f] else 0)
  {
    if view == [] then []
    else
      var rest := Where(view[1..], departureAirport, arrivalAirport, departureDate);
      assert view == [view[0]] + view[1..];
      if Matches(view[0], departureAirport, arrivalAirport, departureDate) then [view[0]] + rest else rest
  }

  predicate SortedByDeparture(s: seq<FlightDetail>) {
    forall i, j :: 0 <= i < j < |s| ==> s[i].departureTime <= s[j].departureTime
  }

  function InsertByDeparture(f: FlightDetail, s: seq<FlightDetail>): (r: seq<FlightDetail>)
    requires SortedByDeparture(s)
    ensures SortedByDeparture(r)
    ensures multiset(r) == multiset(s) + multiset{f}
  {
    if s == [] || f.departureTime <= s[0].departureTime then [f] + s
    else
      assert s == [s[0]] + s[1..];
      var rest := InsertByDeparture(f, s[1..]);
      InsertedBounded(s[0].departureTime, f, s[1..], rest);
      [s[0]] + rest
  }

  /** Every element of the insertion result is `f` or an element of `s`, so a lower bound of both bounds it. */
  lemma InsertedBounded(lo: nat, f: FlightDetail, s: seq<FlightDetail>, r: seq<FlightDetail>)
    requires multiset(r) == multiset(s) + multiset{f}
    requires lo <= f.departureTime
    requires forall i :: 0 <= i < |s| ==> lo <= s[i].departureTime
    ensures forall i :: 0 <= i < |r| ==> lo <= r[i].departureTime
  {
    forall i | 0 <= i < |r| ensures lo <= r[i].departureTime {
      assert r[i] in multiset(r);
      if r[i] != f {
        assert r[i] in multiset(s);
      }
    }
  }

  function SortByDeparture(s: seq<FlightDetail>): (r: seq<FlightDetail>)
    ensures SortedByDeparture(r)
    ensures multiset(r) == multiset(s)
  {
    if s == [] then []
    else
      assert s == [s[0]] + s[1..];
      InsertByDeparture(s[0], SortByDeparture(s[1..]))
  }

  /**
   * `search_flights`: the view rows with the given departure and arrival
   * airport names and departure day, in ascending departure time. Rows with
   * equal departure times may come in any order, as with ORDER BY.
   */
  function SearchFlights(view: seq<FlightDetail>, departureAirport: string, arrivalAirport: string, departureDate: nat)
    : (r: seq<FlightDetail>)
    ensures SortedByDeparture(r)
    ensures forall f :: f in r ==> f in view && Matches(f, departureAirport, arrivalAirport, departureDate)
    ensures forall f :: f in view && Matches(f, departureAirport, arrivalAirport, departureDate) ==> f in r
    ensures forall f ::
      multiset(r)[f] == (if Matches(f, departureAirport, arrivalAirport, departureDate) then multiset(view)[f] else 0)
  {
    var r := SortByDeparture(Where(view, departureAirport, arrivalAirport, departureDate));
    assert forall f :: f in r <==> multiset(r)[f] > 0;
    assert forall f :: f in view <==> multiset(view)[f] > 0;
    r
  }

  // ---------------------------------------------------------------------
  // A user's bookings.

  /** A row of `get_user_bookings`; the airline and airport names of the join are not modelled. */
  datatype UserBooking = UserBooking(
    bookingId: nat, flightId: nat, departureTime: nat, arrivalTime: nat, price: int, status: string)

  /**
   * `get_user_bookings`: one row per booking of the user, joined with its
   * flight. The query has no ORDER BY, so the result is a set.
   */
  function GetUserBookings(bookings: map<nat, Booking>, flights: map<nat, Flight>, userId: nat)
    : (r: set<UserBooking>)
    ensures forall row :: row in r ==>
      && row.bookingId in bookings
      && bookings[row.bookingId].userId == userId
      && bookings[row.bookingId].flightId == row.flightId
      && bookings[row.bookingId].status == row.status
      && row.flightId in flights
      && row.departureTime == flights[row.flightId].departureTime
      && row.arrivalTime == flights[row.flightId].arrivalTime
      && row.price == flights[row.flightId].price
    ensures forall b :: b in bookings && bookings[b].userId == userId && bookings[b].flightId in flights ==>
      BookingRowOf(bookings, flights, b) in r
  {
    set b | b in bookings && bookings[b].userId == userId && bookings[b].flightId in flights ::
      BookingRowOf(bookings, flights, b)
  }

  /** The joined row of one booking. */
  function BookingRowOf(bookings: map<nat, Booking>, flights: map<nat, Flight>, b: nat): UserBooking
    requires b in bookings && bookings[b].flightId in flights
  {
    var f := flights[bookings[b].flightId];
    UserBooking(b, bookings[b].flightId, f.departureTime, f.arrivalTime, f.price, bookings[b].status)
  }

  // ---------------------------------------------------------------------
  // An airline's reviews, newest id first.

  /** A row of `get_reviews`: rating, comment and the author's username. */
  datatype ReviewRow = ReviewRow(rating: int, comment: string, username: string)

  predicate StrictlyDescending(ids: seq<nat>) {
    forall i, j :: 0 <= i < j < |ids| ==> ids[i] > ids[j]
  }

  lemma {:induction false} MaxExists(s: set<nat>)
    requires s != {}
    ensures exists m :: m in s && forall k :: k in s ==> k <= m
  {
    var x :| x in s;
    if s != {x} {
      MaxExists(s - {x});
      var m :| m in s - {x} && forall k :: k in s - {x} ==> k <= m;
      var top := if x > m then x else m;
      forall k | k in s ensures k <= top {
        if k != x {
          assert k in s - {x};
        }
      }
    }
  }

  /** The keys of a set, largest first. */
  function Descending(s: set<nat>): (r: seq<nat>)
    ensures StrictlyDescending(r)
    ensures forall k :: k in r <==> k in s
    decreases |s|
  {
    if s == {} then []
    else
      MaxExists(s);
      var m :| m in s && forall k :: k in s ==> k <= m;
      [m] + Descending(s - {m})
  }

  predicate ReviewMatches(reviews: map<nat, Review>, users: map<nat, User>, airlineId: nat, id: nat) {
    id in reviews && reviews[id].airlineId == airlineId && reviews[id].userId in users
  }

  lemma BelowHead(ids: seq<nat>, rest: seq<nat>)
    requires ids != [] && StrictlyDescending(ids) && StrictlyDescending(rest)
    requires forall k :: k in rest ==> k in ids[1..]
    ensures StrictlyDescending([ids[0]] + rest)
  {
    forall k | k in rest ensures k < ids[0] {
      var j :| 0 <= j < |ids[1..]| && ids[1..][j] == k;
      assert ids[j + 1] == k;
    }
    var r := [ids[0]] + rest;
    forall i, j | 0 <= i < j < |r| ensures r[i] > r[j] {
      if i > 0 {
        assert r[i] == rest[i - 1] && r[j] == rest[j - 1];
      } else {
        assert r[j] in rest;
      }
    }
  }

  /** The ids among `ids` of this airline's reviews whose author exists, in the same order. */
  function KeepMatching(ids: seq<nat>, reviews: map<nat, Review>, users: map<nat, User>, airlineId: nat)
    : (r: seq<nat>)
    requires StrictlyDescending(ids)
    ensures StrictlyDescending(r)
    ensures forall k :: k in r <==> k in ids && ReviewMatches(reviews, users, airlineId, k)
  {
    if ids == [] then []
    else
      var rest := KeepMatching(ids[1..], reviews, users, airlineId);
      if ReviewMatches(reviews, users, airlineId, ids[0]) then
        BelowHead(ids, rest);
        [ids[0]] + rest
      else rest
  }

  /**
   * The review ids `get_reviews` lists for an airline: exactly the reviews of
   * that airline whose author is a user, in descending review id.
   */
  function ReviewIds(reviews: map<nat, Review>, users: map<nat, User>, airlineId: nat): (ids: seq<nat>)
    ensures StrictlyDescending(ids)
    ensures forall k :: k in ids <==> ReviewMatches(reviews, users, airlineId, k)
  {
    KeepMatching(Descending(reviews.Keys), reviews, users, airlineId)
  }

  /** `get_reviews`: the rows of `ReviewIds`, in that order. */
  function GetReviews(reviews: map<nat, Review>, users: map<nat, User>, airlineId: nat): (r: seq<ReviewRow>)
    ensures |r| == |ReviewIds(reviews, users, airlineId)|
    ensures forall i :: 0 <= i < |r| ==>
      var id := ReviewIds(reviews, users, airlineId)[i];
      r[i] == ReviewRow(reviews[id].rating, reviews[id].comment, users[reviews[id].userId].username)
  {
    var ids := ReviewIds(reviews, users, airlineId);
    seq(|ids|, i requires 0 <= i < |ids| =>
      ReviewRow(reviews[ids[i]].rating, reviews[ids[i]].comment, users[reviews[ids[i]].userId].username))
  }
}
