/**
 * The relational tables the repositories read and write, as maps keyed by
 * primary key, with the constraints the operations rely on: unique logins and
 * usernames, and foreign keys from bookings to flights and users, from
 * payments to bookings and from reviews to users. Serial keys are drawn from
 * counters that only ever grow.
 */
module Schema {

  /** Booking status written at creation by the four-argument procedure call. */
  const Pending: string := "ожидает подтверждения"

  /** Booking status written by confirmation. */
  const Confirmed: string := "Подтверждено"

  const AdminRole: string := "admin"
  const DefaultRole: string := "user"

  datatype User = User(username: string, login: string, passwordHash: string, role: string)

  datatype Flight = Flight(
    airlineId: nat,
    departureAirportId: nat,
    arrivalAirportId: nat,
    departureTime: nat,
    arrivalTime: nat,
    numberSeats: int,
    price: int)

  datatype Booking = Booking(flightId: nat, userId: nat, bookingTime: nat, status: string)

  datatype Payment = Payment(bookingId: nat, amount: int, paymentDate: nat, paymentMethod: string)

  datatype Review = Review(userId: nat, airlineId: nat, rating: int, comment: string)

  predicate UniqueLogins(users: map<nat, User>) {
    forall a, b {:trigger users[a].login, users[b].login} :: a in users && b in users && users[a].login == users[b].login ==> a == b
  }

  predicate UniqueUsernames(users: map<nat, User>) {
    forall a, b {:trigger users[a].username, users[b].username} :: a in users && b in users && users[a].username == users[b].username ==> a == b
  }

  /** Every foreign key points at an existing row. */
  predicate ReferencesIntact(
    users: map<nat, User>, flights: map<nat, Flight>, bookings: map<nat, Booking>,
    payments: map<nat, Payment>, reviews: map<nat, Review>)
  {
    && (forall b :: b in bookings ==> bookings[b].userId in users && bookings[b].flightId in flights)
    && (forall p :: p in payments ==> payments[p].bookingId in bookings)
    && (forall r :: r in reviews ==> reviews[r].userId in users)
  }

  class Database {
    var users: map<nat, User>
    var flights: map<nat, Flight>
    var bookings: map<nat, Booking>
    var payments: map<nat, Payment>
    var reviews: map<nat, Review>

    /** Next values of the serial keys of Users, Bookings and Payments. */
    var nextUserId: nat
    var nextBookingId: nat
    var nextPaymentId: nat

    ghost predicate Valid()
      reads this
    {
      && UniqueLogins(users)
      && UniqueUsernames(users)
      && ReferencesIntact(users, flights, bookings, payments, reviews)
      && (forall u :: u in users ==> u < nextUserId)
      && (forall b :: b in bookings ==> b < nextBookingId)
      && (forall p :: p in payments ==> p < nextPaymentId)
    }

    constructor ()
      ensures Valid()
      ensures users == map[] && flights == map[] && bookings == map[]
      ensures payments == map[] && reviews == map[]
    {
      users, flights, bookings, payments, reviews := map[], map[], map[], map[], map[];
      nextUserId, nextBookingId, nextPaymentId := 1, 1, 1;
    }
  }
}
