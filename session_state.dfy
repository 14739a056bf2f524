/**
 * The per-browser session state of the UI framework: the auth token, the
 * signed-in user (absent, explicitly `None`, or a user record), the current
 * page name and the booking cart.
 */
module SessionState {
  import opened Wrappers
  import opened BookingService

  /** The `user` record kept in session state: id, role (possibly missing) and display name. */
  datatype UserView = UserView(id: nat, role: Option<string>, username: string)

  /** The `user` entry: not set at all, set to `None`, or a user record. */
  datatype UserSlot = Unset | NoUser | SignedIn(view: UserView)

  const LoginPageName: string := "login"
  const RegisterPageName: string := "register"

  /** Python truthiness of `st.session_state.get("auth_token")`: present and non-empty. */
  predicate HasToken(token: Option<string>) {
    token.Some? && token.value != ""
  }

  /**
   * Session state. Each entry may be absent (`None`, or `Unset` for the user);
   * an absent cart is not an empty one: reading it raises.
   */
  class Session {
    var authToken: Option<string>
    var user: UserSlot
    var page: Option<string>
    var cart: Option<seq<CartRow>>

    /** A new browser session: no entries at all. */
    constructor ()
      ensures authToken == None && user == Unset && page == None && cart == None
    {
      authToken, user, page, cart := None, Unset, None, None;
    }

    /** `st.session_state.clear()`: every entry goes, the cart entry with them. */
    method Clear()
      modifies this
      ensures authToken == None && user == Unset && page == None && cart == None
    {
      authToken, user, page, cart := None, Unset, None, None;
    }
  }
}
