/**
 * The login page: authenticate, then write the token key and the session
 * hash to the key-value store and record the token and the user in session
 * state.
 */
module LoginPage {
  import opened Wrappers
  import opened Decimal
  import opened Schema
  import opened KeyValue
  import opened Settings
  import opened UserRepository
  import opened SessionState

  /** A timestamp as stored in the session hash: the clock reading in decimal. */
  function IsoStamp(now: nat): (s: string)
    ensures ParseNat(s) == Some(now)
  {
    ParseFormatted(now);
    NatToString(now)
  }

  /** The session hash written at login. */
  function SessionFields(row: UserRow, now: nat): (f: map<string, string>)
    ensures f.Keys == {"user_id", "role", "login", "created_at", "last_activity"}
    ensures ParseNat(f["user_id"]) == Some(row.userId)
    ensures f["role"] == row.user.role && f["login"] == row.user.login
    ensures f["created_at"] == f["last_activity"] == IsoStamp(now)
  {
    ParseFormatted(row.userId);
    map["user_id" := NatToString(row.userId), "role" := row.user.role, "login" := row.user.login,
        "created_at" := IsoStamp(now), "last_activity" := IsoStamp(now)]
  }

  /**
   * The store after a successful login: SETEX of the token key, then HSET of
   * the session hash, then EXPIRE on it. A session key holding text makes the
   * HSET raise, so the store keeps only the token key write.
   */
  function LoginEntries(m: Entries, token: string, row: UserRow, now: nat): (m': Entries)
    ensures GetOf(m', TokenKey(token), now) == Found(NatToString(row.userId))
    ensures HSetRejects(m, SessionKey(token), now) ==>
      Lookup(m', SessionKey(token), now) == Lookup(m, SessionKey(token), now)
    ensures forall k, t :: k != TokenKey(token) && k != SessionKey(token) ==> Lookup(m', k, t) == Lookup(m, k, t)
  {
    TokenAndSessionKeysDiffer(token, token);
    var m1 := WithSetEx(m, TokenKey(token), NatToString(row.userId), TokenTtl, now);
    if HSetRejects(m1, SessionKey(token), now) then m1
    else WithExpire(WithHSet(m1, SessionKey(token), SessionFields(row, now), now), SessionKey(token), SessionTtl, now)
  }

  /**
   * After login the token key holds the user id until `now + TokenTtl` and the
   * session hash holds the login fields, merged over any live hash already
   * there, until `now + SessionTtl`; no other key changes.
   */
  lemma {:induction false} LoginWrites(m: Entries, token: string, row: UserRow, now: nat, k: string, t: int)
    requires !HSetRejects(m, SessionKey(token), now)
    ensures Lookup(LoginEntries(m, token, row, now), TokenKey(token), t)
      == if t < now + TokenTtl then Some(Text(NatToString(row.userId))) else None
    ensures Lookup(LoginEntries(m, token, row, now), SessionKey(token), t)
      == if t < now + SessionTtl then Some(Hash(CurrentFields(m, SessionKey(token), now) + SessionFields(row, now))) else None
    ensures k != TokenKey(token) && k != SessionKey(token) ==>
      Lookup(LoginEntries(m, token, row, now), k, t) == Lookup(m, k, t)
  {
    var tk, sk := TokenKey(token), SessionKey(token);
    TokenAndSessionKeysDiffer(token, token);
    var m1 := WithSetEx(m, tk, NatToString(row.userId), TokenTtl, now);
    assert Lookup(m1, sk, now) == Lookup(m, sk, now);
    assert CurrentFields(m1, sk, now) == CurrentFields(m, sk, now);
    assert !HSetRejects(m1, sk, now);
    var m2 := WithHSet(m1, sk, SessionFields(row, now), now);
    assert Lookup(m2, sk, now).Some?;
  }

  /** With a fresh token (no live session hash under it), the session hash holds exactly the login fields. */
  lemma FreshLoginSession(m: Entries, token: string, row: UserRow, now: nat, t: int)
    requires Lookup(m, SessionKey(token), now).None?
    requires t < now + SessionTtl
    ensures Lookup(LoginEntries(m, token, row, now), SessionKey(token), t) == Some(Hash(SessionFields(row, now)))
  {
    LoginWrites(m, token, row, now, SessionKey(token), t);
    assert map[] + SessionFields(row, now) == SessionFields(row, now);
  }

  /** What pressing the login button did. */
  datatype LoginOutcome = Rejected | LoggedIn(row: UserRow) | StoreFailed(row: UserRow)

  /**
   * The login button: authenticate with `checkpw`; on failure nothing is
   * written anywhere. On success the store gets the login writes, and session
   * state gets the token and the user's id, role and username; the page and
   * cart entries stay as they were.
   */
  method PressLogin(db: Database, store: Store, session: Session, login: string, password: string,
                    checkpw: (string, string) -> bool, token: string, now: nat)
    returns (outcome: LoginOutcome)
    requires db.Valid()
    modifies store, session
    ensures outcome.Rejected? <==>
      forall id :: id in db.users && db.users[id].login == login ==> !checkpw(password, db.users[id].passwordHash)
    ensures outcome.Rejected? ==> unchanged(store) && unchanged(session)
    ensures !outcome.Rejected? ==>
      && outcome.row.userId in db.users
      && db.users[outcome.row.userId] == outcome.row.user
      && outcome.row.user.login == login
      && checkpw(password, outcome.row.user.passwordHash)
    ensures !outcome.Rejected? ==> store.entries == LoginEntries(old(store.entries), token, outcome.row, now)
    ensures outcome.StoreFailed? <==> !outcome.Rejected? && HSetRejects(old(store.entries), SessionKey(token), now)
    ensures outcome.StoreFailed? ==> unchanged(session)
    ensures outcome.LoggedIn? ==>
      && session.authToken == Some(token)
      && session.user == SignedIn(UserView(outcome.row.userId, Some(outcome.row.user.role), outcome.row.user.username))
      && session.page == old(session.page) && session.cart == old(session.cart)
  {
    var user := AuthenticateUser(db, login, password, checkpw);
    if user.None? {
      return Rejected;
    }
    var row := user.value;
    ghost var m := store.entries;
    store.SetEx(TokenKey(token), TokenTtl, NatToString(row.userId), now);
    TokenAndSessionKeysDiffer(token, token);
    assert Lookup(store.entries, SessionKey(token), now) == Lookup(m, SessionKey(token), now);
    var ok := store.HSet(SessionKey(token), SessionFields(row, now), now);
    if !ok {
      return StoreFailed(row);
    }
    var timeoutSet := store.Expire(SessionKey(token), SessionTtl, now);
    session.authToken := Some(token);
    session.user := SignedIn(UserView(row.userId, Some(row.user.role), row.user.username));
    outcome := LoggedIn(row);
  }

  /** The register button: switch to the registration page. */
  method PressRegister(session: Session)
    modifies session
    ensures session.page == Some(RegisterPageName)
    ensures session.authToken == old(session.authToken) && session.user == old(session.user)
    ensures session.cart == old(session.cart)
  {
    session.page := Some(RegisterPageName);
  }
}
