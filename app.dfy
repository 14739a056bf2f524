/**
 * The application entry point: per-request validation of the auth token
 * against the key-value store, the sliding refresh of both keys, the reload
 * of the user record from the session hash, and routing by role.
 */
module App {
  import opened Wrappers
  import opened Decimal
  import opened Schema
  import opened KeyValue
  import opened Settings
  import opened UserRepository
  import opened SessionState
  import opened LoginPage

  /** The token key holds a non-empty user id: the request is signed in. */
  predicate TokenAlive(m: Entries, token: string, now: int): (alive: bool)
    ensures alive <==> exists id :: id != "" && Lookup(m, TokenKey(token), now) == Some(Text(id))
  {
    var r := GetOf(m, TokenKey(token), now);
    r.Found? && r.text != ""
  }

  /**
   * The token key is absent, expired or empty: the session has ended. A live
   * token key is either alive, gone, or a hash the GET refuses.
   */
  predicate TokenGone(m: Entries, token: string, now: int): (gone: bool)
    ensures gone <==> Lookup(m, TokenKey(token), now) in {None, Some(Text(""))}
    ensures gone <==> !TokenAlive(m, token, now) && !GetOf(m, TokenKey(token), now).WrongType?
  {
    var r := GetOf(m, TokenKey(token), now);
    r.Nil? || (r.Found? && r.text == "")
  }

  /** The field map the request writes into the session hash. */
  function ActivityField(now: nat): map<string, string> {
    map["last_activity" := IsoStamp(now)]
  }

  /**
   * The store after a request with a live token: HSET of `last_activity`,
   * then EXPIRE of the session hash, then EXPIRE of the token key.
   */
  function RefreshEntries(m: Entries, token: string, now: nat): (m': Entries)
    ensures forall k, t :: k != TokenKey(token) && k != SessionKey(token) ==> Lookup(m', k, t) == Lookup(m, k, t)
    ensures HSetRejects(m, SessionKey(token), now) ==>
      Lookup(m', SessionKey(token), now) == Lookup(m, SessionKey(token), now)
  {
    TokenAndSessionKeysDiffer(token, token);
    var m1 := WithHSet(m, SessionKey(token), ActivityField(now), now);
    var m2 := WithExpire(m1, SessionKey(token), SessionTtl, now);
    WithExpire(m2, TokenKey(token), TokenTtl, now)
  }

  /**
   * The user record rebuilt from the session hash: the id parsed from
   * `user_id`, the role from `role` and the name from `login`, the fields the
   * login page writes. A missing field or an id that does not parse fails.
   */
  function ReloadUser(fields: map<string, string>): (r: Option<UserView>)
    ensures r.Some? <==> "user_id" in fields && "role" in fields && "login" in fields && ParseNat(fields["user_id"]).Some?
    ensures r.Some? ==>
      r.value == UserView(ParseNat(fields["user_id"]).value, Some(fields["role"]), fields["login"])
  {
    if "user_id" in fields && "role" in fields && "login" in fields then
      match ParseNat(fields["user_id"])
      case Some(id) => Some(UserView(id, Some(fields["role"]), fields["login"]))
      case None => None
    else None
  }

  /** A key of the dictionary the store client returns: text, or raw bytes. */
  datatype ReplyKey = StrKey(s: string) | BytesKey(b: string)

  /** With response decoding switched on, every key the client returns is text. */
  function DecodedReply(fields: map<string, string>): (r: map<ReplyKey, string>)
    ensures forall k :: k in r ==> k.StrKey?
    ensures forall k :: k in fields <==> StrKey(k) in r
    ensures forall k :: k in fields ==> r[StrKey(k)] == fields[k]
  {
    map k | k in fields :: StrKey(k) := fields[k]
  }

  /**
   * The reload as the entry point writes it: it looks up the byte keys
   * `user_id`, `role` and `username`; any missing key raises.
   */
  function ReloadUserAsWritten(reply: map<ReplyKey, string>): (r: Option<UserView>)
    ensures r.Some? <==>
      && BytesKey("user_id") in reply && BytesKey("role") in reply && BytesKey("username") in reply
      && ParseNat(reply[BytesKey("user_id")]).Some?
    ensures r.Some? ==>
      r.value == UserView(ParseNat(reply[BytesKey("user_id")]).value, Some(reply[BytesKey("role")]), reply[BytesKey("username")])
  {
    if BytesKey("user_id") in reply && BytesKey("role") in reply && BytesKey("username") in reply then
      match ParseNat(reply[BytesKey("user_id")])
      case Some(id) => Some(UserView(id, Some(reply[BytesKey("role")]), reply[BytesKey("username")]))
      case None => None
    else None
  }

  /** The reload as written fails on every decoded reply, whatever the hash holds. */
  lemma ReloadAsWrittenAlwaysFails(fields: map<string, string>)
    ensures ReloadUserAsWritten(DecodedReply(fields)) == None
  {
    assert BytesKey("user_id") !in DecodedReply(fields);
  }

  /** Even read as text, the login hash has no `username` field for the reload to find. */
  lemma LoginHashHasNoUsername(row: UserRow, now: nat)
    ensures "username" !in SessionFields(row, now)
    ensures ReloadUser(SessionFields(row, now)) == Some(UserView(row.userId, Some(row.user.role), row.user.login))
  {
  }

  /**
   * One request that consults the store keeps the token key's value, gives it
   * `TokenTtl` more seconds, stamps `last_activity` into the session hash and
   * gives that `SessionTtl` more seconds; no other key changes.
   */
  lemma {:induction false} RefreshSlides(m: Entries, token: string, now: nat, k: string, t: int)
    requires TokenAlive(m, token, now)
    requires !HSetRejects(m, SessionKey(token), now)
    ensures Lookup(RefreshEntries(m, token, now), TokenKey(token), t)
      == if t < now + TokenTtl then Lookup(m, TokenKey(token), now) else None
    ensures GetOf(RefreshEntries(m, token, now), TokenKey(token), now) == GetOf(m, TokenKey(token), now)
    ensures Lookup(RefreshEntries(m, token, now), SessionKey(token), t)
      == if t < now + SessionTtl then Some(Hash(CurrentFields(m, SessionKey(token), now)["last_activity" := IsoStamp(now)])) else None
    ensures k != TokenKey(token) && k != SessionKey(token) ==>
      Lookup(RefreshEntries(m, token, now), k, t) == Lookup(m, k, t)
  {
    var tk, sk := TokenKey(token), SessionKey(token);
    TokenAndSessionKeysDiffer(token, token);
    var m1 := WithHSet(m, sk, ActivityField(now), now);
    assert CurrentFields(m, sk, now) + ActivityField(now) == CurrentFields(m, sk, now)["last_activity" := IsoStamp(now)];
    assert Lookup(m1, sk, now).Some?;
    var m2 := WithExpire(m1, sk, SessionTtl, now);
    assert Lookup(m2, tk, now) == Lookup(m, tk, now);
    assert Lookup(m2, tk, now).Some?;
  }

  /**
   * Validation looks only at the token key: when the session hash has expired
   * but the token has not, the request recreates the hash holding only
   * `last_activity`, and the reload from it fails.
   */
  lemma {:induction false} ExpiredHashRecreated(m: Entries, token: string, now: nat)
    requires TokenAlive(m, token, now)
    requires Lookup(m, SessionKey(token), now).None?
    ensures CurrentFields(RefreshEntries(m, token, now), SessionKey(token), now) == ActivityField(now)
    ensures ReloadUser(CurrentFields(RefreshEntries(m, token, now), SessionKey(token), now)).None?
  {
    assert !HSetRejects(m, SessionKey(token), now);
    RefreshSlides(m, token, now, SessionKey(token), now);
    assert map[]["last_activity" := IsoStamp(now)] == ActivityField(now);
  }

  /**
   * A login with a fresh token followed by a request before the session hash
   * expires: the request sees the user id written at login, the reload gives
   * back the user's id, role and login, and the token now lives `TokenTtl`
   * seconds from the request rather than from the login.
   */
  lemma {:induction false} LoginThenRequest(m: Entries, token: string, row: UserRow, now: nat, later: nat)
    requires Lookup(m, SessionKey(token), now).None?
    requires now <= later < now + SessionTtl
    ensures TokenAlive(LoginEntries(m, token, row, now), token, later)
    ensures ParseNat(GetOf(LoginEntries(m, token, row, now), TokenKey(token), later).text) == Some(row.userId)
    ensures !HSetRejects(LoginEntries(m, token, row, now), SessionKey(token), later)
    ensures ReloadUser(CurrentFields(RefreshEntries(LoginEntries(m, token, row, now), token, later), SessionKey(token), later))
      == Some(UserView(row.userId, Some(row.user.role), row.user.login))
    ensures forall t :: later <= t < later + TokenTtl ==>
      TokenAlive(RefreshEntries(LoginEntries(m, token, row, now), token, later), token, t)
  {
    var m' := LoginEntries(m, token, row, now);
    assert !HSetRejects(m, SessionKey(token), now);
    LoginWrites(m, token, row, now, TokenKey(token), later);
    FreshLoginSession(m, token, row, now, later);
    ParseFormatted(row.userId);
    var fields := SessionFields(row, now);
    assert CurrentFields(m', SessionKey(token), later) == fields;
    assert fields["last_activity" := IsoStamp(later)].Keys == fields.Keys;
    RefreshSlides(m', token, later, SessionKey(token), later);
    assert CurrentFields(RefreshEntries(m', token, later), SessionKey(token), later) == fields["last_activity" := IsoStamp(later)];
    forall t | later <= t < later + TokenTtl
      ensures TokenAlive(RefreshEntries(m', token, later), token, t)
    {
      RefreshSlides(m', token, later, TokenKey(token), t);
    }
  }

  /** How a request's validation ended. */
  datatype RequestOutcome =
    | Anonymous     // no token in session state: nothing checked
    | Expired       // the token key is gone: session state cleared
    | Refreshed     // both keys refreshed, user present or reloaded
    | StoreError    // the store answered a command with a type error
    | ReloadFailed  // refreshed, but the user record could not be rebuilt

  /**
   * Token validation at the top of each request. Without a token nothing is
   * touched. A missing or empty token key clears session state. Otherwise
   * the refresh writes go out and, if session state has no `user` entry, the
   * user is rebuilt from the session hash by the reload as written, which
   * fails on every reply: a request without a `user` entry never ends
   * `Refreshed`.
   */
  method ValidateRequest(store: Store, session: Session, now: nat) returns (outcome: RequestOutcome)
    modifies store, session
    ensures outcome == Anonymous <==> !HasToken(old(session.authToken))
    ensures outcome == Anonymous ==> unchanged(store) && unchanged(session)
    ensures outcome == Expired <==> HasToken(old(session.authToken)) && TokenGone(old(store.entries), old(session.authToken).value, now)
    ensures outcome == Expired ==>
      && unchanged(store)
      && session.authToken == None && session.user == Unset && session.page == None && session.cart == None
    ensures outcome == StoreError <==>
      && HasToken(old(session.authToken))
      && (|| GetOf(old(store.entries), TokenKey(old(session.authToken).value), now).WrongType?
          || (&& TokenAlive(old(store.entries), old(session.authToken).value, now)
              && HSetRejects(old(store.entries), SessionKey(old(session.authToken).value), now)))
    ensures outcome == StoreError ==> store.entries == old(store.entries) && unchanged(session)
    ensures outcome == Refreshed || outcome == ReloadFailed ==>
      && HasToken(old(session.authToken))
      && TokenAlive(old(store.entries), old(session.authToken).value, now)
      && store.entries == RefreshEntries(old(store.entries), old(session.authToken).value, now)
      && session.authToken == old(session.authToken)
      && session.page == old(session.page) && session.cart == old(session.cart)
    ensures outcome == ReloadFailed <==>
      && HasToken(old(session.authToken))
      && TokenAlive(old(store.entries), old(session.authToken).value, now)
      && !HSetRejects(old(store.entries), SessionKey(old(session.authToken).value), now)
      && old(session.user) == Unset
      && ReloadUserAsWritten(DecodedReply(CurrentFields(store.entries, SessionKey(old(session.authToken).value), now))).None?
    ensures outcome == ReloadFailed ==> session.user == Unset
    ensures outcome == Refreshed ==> old(session.user) != Unset && session.user == old(session.user)
  {
    if !HasToken(session.authToken) {
      return Anonymous;
    }
    var token := session.authToken.value;
    var reply := store.Get(TokenKey(token), now);
    if reply.WrongType? {
      return StoreError;
    }
    if reply.Nil? || reply.text == "" {
      session.Clear();
      return Expired;
    }
    var ok := store.HSet(SessionKey(token), ActivityField(now), now);
    if !ok {
      return StoreError;
    }
    var sessionSet := store.Expire(SessionKey(token), SessionTtl, now);
    var tokenSet := store.Expire(TokenKey(token), TokenTtl, now);
    if session.user == Unset {
      var hash := store.HGetAll(SessionKey(token), now);
      var fields := if hash.Fields? then hash.fields else map[];
      match ReloadUserAsWritten(DecodedReply(fields))
      case None =>
        return ReloadFailed;
      case Some(_) =>
        // A decoded reply has no byte keys, so the reload never gets here.
        assert false;
    }
    outcome := Refreshed;
  }

  /**
   * The reload with the field names the login page writes: read the session
   * hash and, when it rebuilds a user, record that user in session state.
   */
  method RestoreUser(store: Store, session: Session, token: string, now: nat) returns (ok: bool)
    modifies session
    ensures ok <==> ReloadUser(CurrentFields(store.entries, SessionKey(token), now)).Some?
    ensures ok ==> session.user == SignedIn(ReloadUser(CurrentFields(store.entries, SessionKey(token), now)).value)
    ensures !ok ==> session.user == old(session.user)
    ensures session.authToken == old(session.authToken) && session.page == old(session.page)
    ensures session.cart == old(session.cart)
  {
    var hash := store.HGetAll(SessionKey(token), now);
    var fields := if hash.Fields? then hash.fields else map[];
    match ReloadUser(fields)
    case None =>
      ok := false;
    case Some(view) =>
      session.user := SignedIn(view);
      ok := true;
  }

  /** Which pages a request is served. */
  datatype Screen = LoginScreen | RegisterScreen | NoScreen | AdminPages | UserPages(userId: nat)

  /** A signed-out request sees the login or registration page, or nothing for any other page name. */
  function SignedOutScreen(page: string): (s: Screen)
    ensures s == LoginScreen <==> page == LoginPageName
    ensures s == RegisterScreen <==> page == RegisterPageName
    ensures s.LoginScreen? || s.RegisterScreen? || s.NoScreen?
  {
    if page == LoginPageName then LoginScreen
    else if page == RegisterPageName then RegisterScreen
    else NoScreen
  }

  /** A signed-in user sees the admin pages exactly when the role is `admin`; a missing role counts as `user`. */
  function RoleScreen(view: UserView): (s: Screen)
    ensures s == AdminPages <==> view.role == Some(AdminRole)
    ensures s != AdminPages ==> s == UserPages(view.id)
  {
    if view.role.GetOr(DefaultRole) == AdminRole then AdminPages else UserPages(view.id)
  }

  /**
   * Routing: without a user (unset or `None`) the page name defaults to
   * `login` and only the login or registration page can be served; with a
   * user the role decides and session state is not touched.
   */
  method ServePage(session: Session) returns (screen: Screen)
    modifies session
    ensures !old(session.user).SignedIn? ==>
      && session.page == Some(old(session.page).GetOr(LoginPageName))
      && screen == SignedOutScreen(session.page.value)
      && session.authToken == old(session.authToken) && session.user == old(session.user)
      && session.cart == old(session.cart)
    ensures old(session.user).SignedIn? ==> unchanged(session) && screen == RoleScreen(old(session.user).view)
  {
    if !session.user.SignedIn? {
      if session.page.None? {
        session.page := Some(LoginPageName);
      }
      return SignedOutScreen(session.page.value);
    }
    screen := RoleScreen(session.user.view);
  }
}
