/**
 * The user-table operations: authentication, registration, deletion with its
 * cascade, the three single-field updates and review deletion. Each checks
 * its conditions and then updates rows; a failed check returns false and
 * leaves every table as it was.
 */
module UserRepository {
  import opened Wrappers
  import opened Schema

  /** A row of Users as `SELECT *` returns it. */
  datatype UserRow = UserRow(userId: nat, user: User)

  predicate LoginTaken(users: map<nat, User>, login: string) {
    exists id :: id in users && users[id].login == login
  }

  predicate UsernameTaken(users: map<nat, User>, username: string) {
    exists id :: id in users && users[id].username == username
  }

  /** Some row other than `userId` already has this login. */
  predicate LoginUsedByOther(users: map<nat, User>, userId: nat, login: string) {
    exists id :: id in users && id != userId && users[id].login == login
  }

  /** Some row other than `userId` already has this username. */
  predicate UsernameUsedByOther(users: map<nat, User>, userId: nat, username: string) {
    exists id :: id in users && id != userId && users[id].username == username
  }

  /**
   * Look the user up by login and check the password against the stored hash
   * with `checkpw` (the password-hashing library, a parameter here). The row
   * comes back only when both succeed.
   */
  method AuthenticateUser(db: Database, login: string, password: string, checkpw: (string, string) -> bool)
    returns (r: Option<UserRow>)
    requires db.Valid()
    ensures r.Some? ==>
      && r.value.userId in db.users
      && db.users[r.value.userId] == r.value.user
      && r.value.user.login == login
      && checkpw(password, r.value.user.passwordHash)
    ensures r.None? <==>
      forall id :: id in db.users && db.users[id].login == login ==> !checkpw(password, db.users[id].passwordHash)
  {
    if id :| id in db.users && db.users[id].login == login {
      if checkpw(password, db.users[id].passwordHash) {
        return Some(UserRow(id, db.users[id]));
      }
    }
    return None;
  }

  /**
   * Insert a user with an already hashed password. A login or username that is
   * already taken violates a uniqueness constraint: false, nothing inserted.
   */
  method RegisterUser(db: Database, name: string, login: string, passwordHash: string, role: string := DefaultRole)
    returns (ok: bool)
    requires db.Valid()
    modifies db
    ensures db.Valid()
    ensures ok <==> !LoginTaken(old(db.users), login) && !UsernameTaken(old(db.users), name)
    ensures ok ==> old(db.nextUserId) !in old(db.users)
    ensures ok ==> db.users == old(db.users)[old(db.nextUserId) := User(name, login, passwordHash, role)]
    ensures !ok ==> db.users == old(db.users)
    ensures db.flights == old(db.flights) && db.bookings == old(db.bookings)
    ensures db.payments == old(db.payments) && db.reviews == old(db.reviews)
    ensures db.nextBookingId == old(db.nextBookingId) && db.nextPaymentId == old(db.nextPaymentId)
  {
    if LoginTaken(db.users, login) || UsernameTaken(db.users, name) {
      return false;
    }
    var id := db.nextUserId;
    db.users := db.users[id := User(name, login, passwordHash, role)];
    db.nextUserId := id + 1;
    ok := true;
  }

  /** Payments left after deleting those whose booking belongs to `userId`. */
  function PaymentsKept(payments: map<nat, Payment>, bookings: map<nat, Booking>, userId: nat): (r: map<nat, Payment>)
    ensures forall p :: p in r <==>
      p in payments && !(payments[p].bookingId in bookings && bookings[payments[p].bookingId].userId == userId)
    ensures forall p :: p in r ==> r[p] == payments[p]
  {
    map p | p in payments && !(payments[p].bookingId in bookings && bookings[payments[p].bookingId].userId == userId)
      :: payments[p]
  }

  /** Bookings left after deleting those of `userId`. */
  function BookingsKept(bookings: map<nat, Booking>, userId: nat): (r: map<nat, Booking>)
    ensures forall b :: b in r <==> b in bookings && bookings[b].userId != userId
    ensures forall b :: b in r ==> r[b] == bookings[b]
  {
    map b | b in bookings && bookings[b].userId != userId :: bookings[b]
  }

  /** Reviews left after deleting those of `userId`. */
  function ReviewsKept(reviews: map<nat, Review>, userId: nat): (r: map<nat, Review>)
    ensures forall v :: v in r <==> v in reviews && reviews[v].userId != userId
    ensures forall v :: v in r ==> r[v] == reviews[v]
  {
    map v | v in reviews && reviews[v].userId != userId :: reviews[v]
  }

  /**
   * Delete a user. An absent user or an administrator is refused. Otherwise
   * four deletions run in the order the foreign keys demand: the payments of
   * the user's bookings, the bookings, the reviews, the user row.
   */
  method DeleteUser(db: Database, userId: nat) returns (ok: bool)
    requires db.Valid()
    modifies db
    ensures db.Valid()
    ensures ok <==> userId in old(db.users) && old(db.users)[userId].role != AdminRole
    ensures !ok ==> unchanged(db)
    ensures ok ==> db.payments == PaymentsKept(old(db.payments), old(db.bookings), userId)
    ensures ok ==> db.bookings == BookingsKept(old(db.bookings), userId)
    ensures ok ==> db.reviews == ReviewsKept(old(db.reviews), userId)
    ensures ok ==> db.users == old(db.users) - {userId}
    ensures db.flights == old(db.flights)
    ensures db.nextUserId == old(db.nextUserId) && db.nextBookingId == old(db.nextBookingId)
    ensures db.nextPaymentId == old(db.nextPaymentId)
  {
    if userId !in db.users {
      return false;
    }
    if db.users[userId].role == AdminRole {
      return false;
    }
    db.payments := PaymentsKept(db.payments, db.bookings, userId);
    db.bookings := BookingsKept(db.bookings, userId);
    db.reviews := ReviewsKept(db.reviews, userId);
    db.users := db.users - {userId};
    ok := true;
  }

  /** Set the role of an existing user; false for an absent one. Any role text is accepted. */
  method ChangeUserRole(db: Database, userId: nat, newRole: string) returns (ok: bool)
    requires db.Valid()
    modifies db
    ensures db.Valid()
    ensures ok <==> userId in old(db.users)
    ensures ok ==> db.users == old(db.users)[userId := old(db.users)[userId].(role := newRole)]
    ensures !ok ==> unchanged(db)
    ensures db.flights == old(db.flights) && db.bookings == old(db.bookings)
    ensures db.payments == old(db.payments) && db.reviews == old(db.reviews)
    ensures db.nextUserId == old(db.nextUserId)
  {
    if userId !in db.users {
      return false;
    }
    db.users := db.users[userId := db.users[userId].(role := newRole)];
    ok := true;
  }

  /**
   * Set the username of an existing user. Another row with the same username
   * violates the uniqueness constraint: false, nothing changes. Setting a
   * user's own current username succeeds.
   */
  method ChangeUserUsername(db: Database, userId: nat, newUsername: string) returns (ok: bool)
    requires db.Valid()
    modifies db
    ensures db.Valid()
    ensures ok <==> userId in old(db.users) && !UsernameUsedByOther(old(db.users), userId, newUsername)
    ensures ok ==> db.users == old(db.users)[userId := old(db.users)[userId].(username := newUsername)]
    ensures !ok ==> unchanged(db)
    ensures db.flights == old(db.flights) && db.bookings == old(db.bookings)
    ensures db.payments == old(db.payments) && db.reviews == old(db.reviews)
    ensures db.nextUserId == old(db.nextUserId)
  {
    if userId !in db.users {
      return false;
    }
    if UsernameUsedByOther(db.users, userId, newUsername) {
      return false;
    }
    db.users := db.users[userId := db.users[userId].(username := newUsername)];
    ok := true;
  }

  /** Set the login of an existing user, under the same rules as the username. */
  method ChangeUserLogin(db: Database, userId: nat, newLogin: string) returns (ok: bool)
    requires db.Valid()
    modifies db
    ensures db.Valid()
    ensures ok <==> userId in old(db.users) && !LoginUsedByOther(old(db.users), userId, newLogin)
    ensures ok ==> db.users == old(db.users)[userId := old(db.users)[userId].(login := newLogin)]
    ensures !ok ==> unchanged(db)
    ensures db.flights == old(db.flights) && db.bookings == old(db.bookings)
    ensures db.payments == old(db.payments) && db.reviews == old(db.reviews)
    ensures db.nextUserId == old(db.nextUserId)
  {
    if userId !in db.users {
      return false;
    }
    if LoginUsedByOther(db.users, userId, newLogin) {
      return false;
    }
    db.users := db.users[userId := db.users[userId].(login := newLogin)];
    ok := true;
  }

  /** Delete one review by id; false when there is none. */
  method DeleteReview(db: Database, reviewId: nat) returns (ok: bool)
    requires db.Valid()
    modifies db
    ensures db.Valid()
    ensures ok <==> reviewId in old(db.reviews)
    ensures db.reviews == old(db.reviews) - {reviewId}
    ensures db.users == old(db.users) && db.flights == old(db.flights)
    ensures db.bookings == old(db.bookings) && db.payments == old(db.payments)
    ensures db.nextUserId == old(db.nextUserId) && db.nextBookingId == old(db.nextBookingId)
    ensures db.nextPaymentId == old(db.nextPaymentId)
  {
    if reviewId !in db.reviews {
      return false;
    }
    db.reviews := db.reviews - {reviewId};
    ok := true;
  }
}
