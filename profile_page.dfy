/**
 * The profile page: confirming a booking and paying for it, the guards on the
 * confirm button and on the username and login forms, and the page's logout
 * button, which removes the session from the key-value store.
 */
module ProfilePage {
  import opened Wrappers
  import opened Schema
  import opened KeyValue
  import opened Settings
  import opened UserRepository
  import opened FlightRepository
  import opened SessionState

  /** The payment method recorded for every payment made from this page. */
  const CardPayment: string := "Кредитная карта"

  /**
   * `confirm_booking`: confirm the booking, and only when that succeeded
   * record one card payment of the booking's price dated `now`. The result is
   * the confirmation's, whatever became of the payment.
   */
  method ConfirmAndPay(db: Database, bookingId: nat, bookingPrice: int, now: nat) returns (success: bool)
    requires db.Valid()
    modifies db
    ensures db.Valid()
    ensures success <==> bookingId in old(db.bookings)
    ensures !success ==> unchanged(db)
    ensures success ==> db.bookings == old(db.bookings)[bookingId := old(db.bookings)[bookingId].(status := Confirmed)]
    ensures success ==> old(db.nextPaymentId) !in old(db.payments)
    ensures success ==> db.payments == old(db.payments)[old(db.nextPaymentId) := Payment(bookingId, bookingPrice, now, CardPayment)]
    ensures db.users == old(db.users) && db.flights == old(db.flights) && db.reviews == old(db.reviews)
  {
    success := ConfirmBooking(db, bookingId);
    if success {
      var paid := AddPayment(db, bookingId, bookingPrice, now, CardPayment);
    }
  }

  /** The confirm button is shown only for a booking that is not confirmed yet. */
  predicate ConfirmOffered(status: string): (offered: bool)
    ensures status == Pending ==> offered
    ensures status == Confirmed ==> !offered
  {
    status != Confirmed
  }

  /**
   * One row of "my bookings" with its confirm button pressed: a confirmed row
   * has no button, so nothing happens (`None`); otherwise the confirmation and
   * payment run with the row's price. A row confirmed here is not offered
   * again.
   */
  method PressConfirm(db: Database, row: UserBooking, now: nat) returns (outcome: Option<bool>)
    requires db.Valid()
    modifies db
    ensures db.Valid()
    ensures outcome.None? <==> !ConfirmOffered(row.status)
    ensures outcome.None? ==> unchanged(db)
    ensures outcome == Some(true) ==> row.bookingId in db.bookings && !ConfirmOffered(db.bookings[row.bookingId].status)
    ensures outcome == Some(true) ==> |db.payments| == |old(db.payments)| + 1
    ensures outcome == Some(true) ==>
      && row.bookingId in old(db.bookings)
      && db.bookings == old(db.bookings)[row.bookingId := old(db.bookings)[row.bookingId].(status := Confirmed)]
      && db.payments == old(db.payments)[old(db.nextPaymentId) := Payment(row.bookingId, row.price, now, CardPayment)]
    ensures db.users == old(db.users) && db.flights == old(db.flights) && db.reviews == old(db.reviews)
    ensures outcome == Some(false) ==> row.bookingId !in old(db.bookings) && unchanged(db)
  {
    if !ConfirmOffered(row.status) {
      return None;
    }
    var success := ConfirmAndPay(db, row.bookingId, row.price, now);
    outcome := Some(success);
  }

  /**
   * What a submitted profile form did: no profile row to edit, the value was
   * not changed so no update was tried, the update went through, or it was
   * refused because another user holds the value.
   */
  datatype UpdateOutcome = NoProfile | SameValue | Updated | Refused

  /** The username form: an update is tried only when the new name differs from the current one. */
  method SubmitUsername(db: Database, userId: nat, newUsername: string) returns (outcome: UpdateOutcome)
    requires db.Valid()
    modifies db
    ensures db.Valid()
    ensures outcome == NoProfile <==> userId !in old(db.users)
    ensures outcome == SameValue <==> userId in old(db.users) && newUsername == old(db.users)[userId].username
    ensures outcome == Refused <==>
      userId in old(db.users) && newUsername != old(db.users)[userId].username
      && UsernameUsedByOther(old(db.users), userId, newUsername)
    ensures outcome != Updated ==> unchanged(db)
    ensures outcome == Updated ==> db.users == old(db.users)[userId := old(db.users)[userId].(username := newUsername)]
    ensures db.flights == old(db.flights) && db.bookings == old(db.bookings)
    ensures db.payments == old(db.payments) && db.reviews == old(db.reviews)
  {
    if userId !in db.users {
      return NoProfile;
    }
    if newUsername == db.users[userId].username {
      return SameValue;
    }
    var ok := ChangeUserUsername(db, userId, newUsername);
    outcome := if ok then Updated else Refused;
  }

  /** The login form: an update is tried only when the new login differs from the current one. */
  method SubmitLogin(db: Database, userId: nat, newLogin: string) returns (outcome: UpdateOutcome)
    requires db.Valid()
    modifies db
    ensures db.Valid()
    ensures outcome == NoProfile <==> userId !in old(db.users)
    ensures outcome == SameValue <==> userId in old(db.users) && newLogin == old(db.users)[userId].login
    ensures outcome == Refused <==>
      userId in old(db.users) && newLogin != old(db.users)[userId].login
      && LoginUsedByOther(old(db.users), userId, newLogin)
    ensures outcome != Updated ==> unchanged(db)
    ensures outcome == Updated ==> db.users == old(db.users)[userId := old(db.users)[userId].(login := newLogin)]
    ensures db.flights == old(db.flights) && db.bookings == old(db.bookings)
    ensures db.payments == old(db.payments) && db.reviews == old(db.reviews)
  {
    if userId !in db.users {
      return NoProfile;
    }
    if newLogin == db.users[userId].login {
      return SameValue;
    }
    var ok := ChangeUserLogin(db, userId, newLogin);
    outcome := if ok then Updated else Refused;
  }

  /** The keys logout deletes: both session keys of a non-empty token, none otherwise. */
  function LogoutKeys(token: Option<string>): (keys: set<string>)
    ensures HasToken(token) ==> keys == {TokenKey(token.value), SessionKey(token.value)}
    ensures !HasToken(token) ==> keys == {}
  {
    if HasToken(token) then {TokenKey(token.value), SessionKey(token.value)} else {}
  }

  /** The store after logout. */
  function LogoutEntries(m: Entries, token: Option<string>): Entries {
    WithoutKeys(m, LogoutKeys(token))
  }

  /** After logout neither key of the token is visible at any time, and every other key reads as before. */
  lemma LogoutEndsSession(m: Entries, token: string, k: string, t: int)
    requires token != ""
    ensures Lookup(LogoutEntries(m, Some(token)), TokenKey(token), t).None?
    ensures Lookup(LogoutEntries(m, Some(token)), SessionKey(token), t).None?
    ensures k != TokenKey(token) && k != SessionKey(token) ==>
      Lookup(LogoutEntries(m, Some(token)), k, t) == Lookup(m, k, t)
  {
  }

  /**
   * Logging out twice with the same token leaves the store as one logout
   * does; and once session state is cleared there is no token, so a second
   * press deletes nothing.
   */
  lemma {:induction false} LogoutIdempotent(m: Entries, token: Option<string>)
    ensures LogoutEntries(LogoutEntries(m, token), token) == LogoutEntries(m, token)
    ensures LogoutEntries(LogoutEntries(m, token), None) == LogoutEntries(m, token)
  {
    DeleteIdempotent(m, LogoutKeys(token));
    assert LogoutKeys(None) == {};
    assert LogoutEntries(m, token) - {} == LogoutEntries(m, token);
  }

  /**
   * The profile page's logout button: with a token, delete its token key
   * and session hash; then clear session state, set the user to `None` and
   * the page to `login`. Clearing removes the cart entry too, so the cart
   * is absent afterwards rather than empty.
   */
  method Logout(store: Store, session: Session, now: int)
    modifies store, session
    ensures store.entries == LogoutEntries(old(store.entries), old(session.authToken))
    ensures session.authToken == None && session.user == NoUser
    ensures session.page == Some(LoginPageName) && session.cart == None
  {
    if HasToken(session.authToken) {
      var removed := store.Delete({TokenKey(session.authToken.value), SessionKey(session.authToken.value)}, now);
    }
    session.Clear();
    session.user := NoUser;
    session.page := Some(LoginPageName);
  }
}
