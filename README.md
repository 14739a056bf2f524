# Flight booking core, modelled in Dafny

This project models the core logic of a flight search and booking web application. The application is a Streamlit front end over a PostgreSQL database and a Redis key-value store. The logic lives in the database and key-value commands the pages issue. The model covers:

- the user table operations: registration, authentication, deletion with its cascade, profile updates and review deletion;
- the flight and booking ledger: flight-id allocation, booking creation, confirmation, payment, and the search, my-bookings and reviews queries;
- the booking service, which turns the cart into booking rows;
- the cart, checkout and logout on the search page;
- confirmation with payment, the form guards and logout on the profile page;
- the login page's writes to the key-value store and to session state;
- the entry point's per-request token validation, sliding refresh, user reload and role-based routing.

Layout, one module per source file:

| file | module | models |
|---|---|---|
| `wrappers.dfy` | `Wrappers` | `Option` |
| `decimal.dfy` | `Decimal` | `str(int)` and `int(str)` on natural numbers |
| `settings.dfy` | `Settings` | the key prefix, the two TTLs, the two key formats |
| `keyvalue.dfy` | `KeyValue` | the key-value store: text and hash values with absolute expiry, the commands used, and a `Store` class |
| `schema.dfy` | `Schema` | the table rows and the `Database` class holding the tables |
| `user_repository.dfy` | `UserRepository` | `src/repositories/user.py` |
| `flight_repository.dfy` | `FlightRepository` | `src/repositories/flights.py` |
| `booking_service.dfy` | `BookingService` | `src/services/book.py` |
| `session_state.dfy` | `SessionState` | the per-browser session state (token, user, page, cart) |
| `search_page.dfy` | `SearchPage` | `src/pages/flight_search_and_booking.py` |
| `profile_page.dfy` | `ProfilePage` | `src/pages/my_profile.py` |
| `login_page.dfy` | `LoginPage` | `src/pages/login.py` |
| `app.dfy` | `App` | `src/main.py` |

Modelling choices:

- **Tables.** Tables are maps from ids to rows. `Database.Valid()` states the schema's integrity:
  - logins are unique, and so are usernames;
  - each booking names an existing flight and user;
  - each payment names an existing booking;
  - each review names an existing user;
  - every id is below its serial counter.

  The database operations are methods over a `Database`. Each one's `ensures` gives the new contents of every table.
- **Key-value store.** The store is a map from keys to entries. An entry holds a value and an optional absolute expiry time on an integer clock. An expired entry reads as absent: the store evicts lazily, so expiry is observed only on access. Each command is a function on that map, and a `Store` method applies it.
- **Parameters.** The clock, the random token and the password check (`checkpw`) are parameters.
- **Timestamps.** The ISO timestamps stored in the session hash are the clock reading written in decimal.

Behaviour of the code that the model keeps as written:

- Confirming an already confirmed booking succeeds. The UPDATE matches one row, so `confirm_booking` returns true and a second payment is recorded. Only the profile page's button guard stops this.
- Checkout publishes no notification. `process_sale` only inserts bookings.
- No operation decrements or checks a flight's seat count.
- A request checks only the token key. An expired session hash does not end the session: the `last_activity` HSET recreates it, holding that one field.
- The session hash stores `login`, not `username`.
- `add_booking` calls a three-argument booking procedure whose body is not part of this model. The initial status of cart bookings is therefore a parameter (`procStatus`). Only `create_booking` passes the pending status explicitly.

## Model

| member | source | states |
|---|---|---|
| Decimal.NatToString | src/pages/login.py:27 | the rendering of an id is a non-empty digit string with no leading zero |
| Decimal.ParseNat | src/main.py:50 | parsing succeeds exactly on non-empty all-digit strings |
| Decimal.ParseFormatted | src/pages/login.py:27 | parsing the rendering of `n` gives back `n` (round trip) |
| Decimal.DigitsOfFormatted | src/pages/login.py:27 | the rendering of `n` is all digits with value `n` |
| Decimal.FormatInjective | src/pages/login.py:27 | two ids with the same rendering are equal |
| Settings.TokenKey | src/pages/login.py:20 | the token key is the prefix and `auth_token:` followed by the token |
| Settings.SessionKey | src/pages/login.py:33 | the session key is the prefix and `session:` followed by the token |
| Settings.TokenAndSessionKeysDiffer | src/pages/login.py:20-33 | no token key equals any session key |
| Settings.KeysInjective | src/pages/login.py:20-33 | each key format determines its token |
| KeyValue.WithSetEx | src/pages/login.py:21-25 | after SETEX the key reads the value until `now + ttl` and is absent after; other keys read as before |
| KeyValue.WithHSet | src/main.py:42 | HSET on text changes nothing; otherwise the key reads as the old live fields merged with the new ones; a live hash keeps its expiry; a new hash never expires; other keys are untouched |
| KeyValue.WithExpire | src/main.py:43-44 | a live key reads its current value until `now + ttl` and is absent after; an absent key changes nothing; other keys are untouched |
| KeyValue.WithoutKeys | src/pages/my_profile.py:118-121 | deleted keys read as absent at every time; others are unchanged |
| KeyValue.DeleteIdempotent | src/pages/my_profile.py:118-121 | deleting the same keys twice is deleting them once |
| KeyValue.GetOf | src/main.py:33 | GET is nil exactly for an absent or expired key, the text for live text, and a type error exactly for a live hash |
| KeyValue.HGetAllOf | src/main.py:48 | HGETALL is a type error exactly on live text; otherwise it gives the live fields, or none |
| KeyValue.Store.SetEx | src/pages/login.py:21-25 | the store becomes `WithSetEx` of the old store |
| KeyValue.Store.HSet | src/main.py:42 | succeeds iff the key does not hold live text; the store becomes `WithHSet` of the old store |
| KeyValue.Store.Expire | src/main.py:43-44 | reports whether the key was live; the store becomes `WithExpire` of the old store |
| KeyValue.Store.Delete | src/pages/my_profile.py:118-121 | reports how many of the keys were live; the keys are removed |
| KeyValue.Store.Get | src/main.py:33 | the reply is `GetOf` on the current store |
| KeyValue.Store.HGetAll | src/main.py:48 | the reply is `HGetAllOf` on the current store |
| UserRepository.AuthenticateUser | src/repositories/user.py:4-10 | a row comes back only when it is the stored user with that login and `checkpw` accepts the password against its hash; none comes back iff every user with that login fails the check |
| UserRepository.RegisterUser | src/repositories/user.py:12-26 | succeeds iff neither the login nor the username is taken; success adds exactly one user under a fresh id with the given role (default `user`); failure leaves every table unchanged; integrity kept |
| UserRepository.PaymentsKept | src/repositories/user.py:51-56 | the payments kept are exactly those whose booking does not belong to the user, unchanged |
| UserRepository.BookingsKept | src/repositories/user.py:58 | the bookings kept are exactly those of other users, unchanged |
| UserRepository.ReviewsKept | src/repositories/user.py:59 | the reviews kept are exactly those of other users, unchanged |
| UserRepository.DeleteUser | src/repositories/user.py:38-64 | false with nothing changed for an absent id or an admin; otherwise the user's payments, bookings, reviews and row are removed in that order, flights and other users' rows are untouched, integrity kept |
| UserRepository.ChangeUserRole | src/repositories/user.py:75-87 | false with nothing changed for an absent id; otherwise only that user's role changes |
| UserRepository.ChangeUserUsername | src/repositories/user.py:89-102 | succeeds iff the user exists and no other user has the name; only that user's username changes; failure changes nothing |
| UserRepository.ChangeUserLogin | src/repositories/user.py:104-117 | succeeds iff the user exists and no other user has the login; only that user's login changes; failure changes nothing |
| UserRepository.DeleteReview | src/repositories/user.py:119-130 | succeeds iff the review exists; exactly that review is removed and nothing else changes |
| FlightRepository.MaxFlightId | src/repositories/flights.py:111 | the result bounds every flight id and is one of them, or 0 for an empty table |
| FlightRepository.AddFlight | src/repositories/flights.py:108-123 | the new id is max+1 (1 on an empty table), above every existing id and so fresh; only that flight is added |
| FlightRepository.NewBookings | src/repositories/flights.py:48-52 | a batch of rows from id `start` occupies exactly ids `start` to `start + |rows| - 1` |
| FlightRepository.NewBookingsAt | src/repositories/flights.py:51-52 | row i becomes booking `start + i` with the row's flight, user and time |
| FlightRepository.NewBookingsCount | src/repositories/flights.py:48-52 | one booking per row |
| FlightRepository.BookingStep | src/repositories/flights.py:51-52 | booking k+1 rows is booking k rows and then row k under the next id |
| FlightRepository.InsertBooking | src/repositories/flights.py:52 | one procedure call inserts the row under the next serial id iff its flight and user exist; otherwise nothing changes |
| FlightRepository.CreateBooking | src/repositories/flights.py:54-58 | inserts one booking with status `ожидает подтверждения` iff the flight and user exist |
| FlightRepository.AddBooking | src/repositories/flights.py:48-52 | the rows are booked in order under consecutive ids; all are booked iff every row is insertable; on failure the rows before the first bad one stay booked; flights (seat counts included), users, payments and reviews are unchanged |
| FlightRepository.ConfirmBooking | src/repositories/flights.py:76-84 | succeeds iff the booking exists, whatever its status, and sets it to `Подтверждено`; nothing else changes |
| FlightRepository.AddPayment | src/repositories/flights.py:86-97 | succeeds iff the booking exists, inserting exactly one payment with the given fields; failure changes nothing |
| FlightRepository.Where | src/repositories/flights.py:36-39 | each row of the view occurs in the result as often as in the view if it matches the airports and the day, else never |
| FlightRepository.InsertByDeparture | src/repositories/flights.py:40-41 | inserting into a sorted list keeps it sorted and adds exactly that row |
| FlightRepository.SortByDeparture | src/repositories/flights.py:40-41 | the result is sorted by departure time and is a permutation of the input |
| FlightRepository.SearchFlights | src/repositories/flights.py:22-45 | the result is sorted by departure time; it holds exactly the matching view rows, each as often as in the view |
| FlightRepository.GetUserBookings | src/repositories/flights.py:60-74 | every row is a booking of that user with its status, and its flight's times and price; every booking of the user on an existing flight is listed |
| FlightRepository.Descending | src/repositories/flights.py:168 | lists exactly the ids of a set, in strictly descending order |
| FlightRepository.KeepMatching | src/repositories/flights.py:164-168 | keeps exactly the ids of this airline's reviews with an existing author, order kept |
| FlightRepository.ReviewIds | src/repositories/flights.py:162-171 | exactly the airline's reviews with an existing author, in strictly descending review id |
| FlightRepository.GetReviews | src/repositories/flights.py:162-171 | one row per review id, with the review's rating and comment and the author's username |
| BookingService.ToSaleRows | src/services/book.py:11-12 | one row per cart row, in order, with the flight and user values unchanged and the one sale date; the cart itself is a value and is not altered |
| BookingService.SaleBookingAt | src/services/book.py:11-13 | cart row i is booked under id `start + i` with its flight, its user and the sale date |
| BookingService.ProcessSale | src/services/book.py:9-13 | every cart row is booked in order at the sale date; all are booked, adding exactly one booking per row, iff every row is insertable; otherwise the insertable prefix before the first rejected row is booked; no other table changes and nothing else happens |
| SessionState.Session.Clear | src/main.py:36 | clearing removes the token, the user, the page and the cart entry: afterwards there is no cart, not an empty one |
| SearchPage.CityNames | src/pages/flight_search_and_booking.py:15-29 | the `city` field of each row in order; no rows give no cities |
| SearchPage.ArrivalCities | src/pages/flight_search_and_booking.py:103 | the cities without the departure city, order kept (a subsequence), every other city with its multiplicity |
| SearchPage.GuardedSearch | src/pages/flight_search_and_booking.py:48-63 | equal airports give no flights; otherwise the repository search |
| SearchPage.FlightIds | src/pages/flight_search_and_booking.py:139 | the flight ids of the search result, in order |
| SearchPage.OfferedFlightsMatch | src/pages/flight_search_and_booking.py:139-146 | every flight id offered for the cart belongs to a view row on the searched route and day, between distinct airports |
| SearchPage.InitCart | src/pages/flight_search_and_booking.py:12-13 | a missing cart becomes an empty one; an existing cart and the rest of session state are kept |
| SearchPage.BookFlight | src/pages/flight_search_and_booking.py:71-80 | fails, changing nothing, exactly when there is no cart; otherwise the cart gains exactly one row (flight, user) at the end, earlier rows and other state unchanged |
| SearchPage.ClearTableEvent | src/pages/flight_search_and_booking.py:65-68 | the cart is a new empty one, whether or not one existed; other state is unchanged |
| SearchPage.Checkout | src/pages/flight_search_and_booking.py:145-153 | no cart or an empty cart changes nothing; otherwise the cart's rows are booked in order at one date; the sale completes, and the cart is emptied, iff every row is insertable; otherwise the booked prefix is insertable, the next row is not, and the cart stays; only the bookings table changes |
| SearchPage.LogoutFromSearch | src/pages/flight_search_and_booking.py:158-162 | the user becomes `None` and the page `login`; the token and cart stay, and the store is not touched |
| ProfilePage.ConfirmOffered | src/pages/my_profile.py:60 | a pending booking is offered the confirm button, a confirmed one is not |
| ProfilePage.ConfirmAndPay | src/pages/my_profile.py:9-20 | the result is the confirmation's; a payment of the booking's price by card dated `now` is recorded exactly when the confirmation succeeded |
| ProfilePage.PressConfirm | src/pages/my_profile.py:60-69 | a confirmed row has no button and nothing happens; a successful press sets exactly that booking to confirmed, no longer offered, and records exactly one card payment of the row's price; users, flights and reviews never change |
| ProfilePage.SubmitUsername | src/pages/my_profile.py:88-97 | no update is tried when the name is unchanged; otherwise the repository update, refused iff another user has the name; only the users table can change |
| ProfilePage.SubmitLogin | src/pages/my_profile.py:99-108 | no update is tried when the login is unchanged; otherwise the repository update, refused iff another user has the login; only the users table can change |
| ProfilePage.LogoutKeys | src/pages/my_profile.py:114-121 | a non-empty token gives its token and session keys; no token gives none |
| ProfilePage.LogoutEndsSession | src/pages/my_profile.py:113-121 | after logout neither key of the token is visible; other keys read as before |
| ProfilePage.LogoutIdempotent | src/pages/my_profile.py:113-126 | a second logout, with the same token or with the cleared state, changes nothing |
| ProfilePage.Logout | src/pages/my_profile.py:113-126 | the token's keys are deleted when there is a token; session state is cleared, leaving no token and no cart, with user `None` and page `login` |
| LoginPage.IsoStamp | src/pages/login.py:30-31 | the stamp parses back to the clock reading |
| LoginPage.SessionFields | src/pages/login.py:26-32 | the hash has exactly `user_id` (the id in decimal), `role`, `login`, `created_at` and `last_activity`, both stamps being the login time |
| LoginPage.LoginEntries | src/pages/login.py:21-34 | after the login writes the token key reads the user id in decimal; a session key holding text is left as it was; no other key changes |
| LoginPage.LoginWrites | src/pages/login.py:17-38 | after login the token key holds the user id until `now + TokenTtl`; the session hash holds the login fields until `now + SessionTtl`; nothing else changes |
| LoginPage.FreshLoginSession | src/pages/login.py:26-38 | with a fresh token the session hash holds exactly the login fields |
| LoginPage.PressLogin | src/pages/login.py:13-51 | rejected iff no user with that login passes the password check, and then nothing is written; otherwise the store gets the login writes and session state gets the token and the user's id, role and username |
| LoginPage.PressRegister | src/pages/login.py:53-55 | the page becomes `register` |
| App.TokenAlive | src/main.py:33-35 | the token key is alive exactly when it holds non-empty text |
| App.TokenGone | src/main.py:33-35 | the token key is gone exactly when it is absent, expired or empty text; that is, when it is neither alive nor a hash |
| App.RefreshEntries | src/main.py:42-44 | the refresh touches only the token and session keys, and leaves a session key holding text as it was |
| App.ReloadUserAsWritten | src/main.py:48-53 | the reload as written succeeds iff the byte keys `user_id`, `role` and `username` are present and the id parses, giving that id, role and name |
| App.ReloadUser | src/main.py:47-53 | the corrected reload succeeds iff `user_id` parses and `role` and `login` are present, giving that id, role and login |
| App.DecodedReply | src/settings.py:25 | with decoding on, every key of a reply is text and holds the hash's value |
| App.ReloadAsWrittenAlwaysFails | src/main.py:47-53 | the reload as written fails on every decoded reply |
| App.LoginHashHasNoUsername | src/pages/login.py:26-32 | the login hash has no `username` field, and the corrected reload reads it back as the user's id, role and login |
| App.RefreshSlides | src/main.py:41-44 | a refresh keeps the token key's user id and extends it to `now + TokenTtl`; the hash gets `last_activity` and lives until `now + SessionTtl`; no other key changes |
| App.ExpiredHashRecreated | src/main.py:33-44 | with an expired hash and a live token, the refresh recreates the hash with only `last_activity`, and the reload fails |
| App.LoginThenRequest | src/main.py:27-53 | after a login, a request before the hash expires sees the user id written at login; the reload gives back the user; the token then lives `TokenTtl` from the request |
| App.ValidateRequest | src/main.py:27-53 | no token: nothing touched. A missing or empty token key: state cleared, store untouched. A type error: nothing changed. Otherwise the store is refreshed; a present user is kept, and a missing one goes through the reload as written, which fails, so such a request never ends refreshed |
| App.RestoreUser | src/main.py:47-53 | the corrected reload: session state gets the user rebuilt from the live session hash exactly when that hash holds `user_id`, `role` and `login` with a parsable id; otherwise the user entry is kept |
| App.SignedOutScreen | src/main.py:62-66 | a signed-out request is served only the login or registration page |
| App.RoleScreen | src/main.py:68-98 | admin pages exactly for role `admin`; any other or missing role gets the user pages for the user's id |
| App.ServePage | src/main.py:59-98 | without a user the page defaults to `login` and only login or registration is served; with a user the role decides and state is untouched |

## Left out

- Rendering is not modelled: forms, tables, warnings, success and error messages, `st.rerun` and the CSV export. A `st.rerun` after a state change is an early return.
- Connection pool creation and closing, and environment loading, are not modelled. The key prefix and the default TTLs are constants.
- bcrypt is a parameter `checkpw`. Registration takes the already hashed password, because `gensalt` is random. Exceptions raised by bcrypt on malformed hashes are not modelled.
- `secrets.token_hex` is a parameter `token`, and `datetime.now()` is a parameter `now`. Times are whole seconds; the date of a departure time is `t / 86400`.
- Prices and amounts are integers, not floats.
- The notification listener and its thread are not modelled: they are concurrency, and nothing publishes to their channel. Concurrent checkouts are not modelled either.
- The body of the three-argument booking procedure is not part of this model. The model assumes it inserts one row with `procStatus` under the next serial id. It also assumes the row fails exactly when the flight is unselected or missing, or the user is missing.
- FlightRepository.AddBooking: the serial counter advances only on a successful insert. A PostgreSQL sequence would also advance on a failed row.
- FlightRepository.AddFlight: the airline and airport tables are not modelled, so the foreign-key failure path of the insert (returning false) is absent.
- FlightRepository.GetUserBookings: the airline and airport names from the join are not modelled. A booking whose flight is missing is not listed, matching the inner join.
- FlightRepository.SearchFlights: the `flight_details` view is an input sequence, because its definition is not part of this model. Rows with equal departure times may come in any order.
- UserRepository.RegisterUser: "other" database errors besides uniqueness are not modelled.
- UserRepository.AuthenticateUser: an exception in the lookup is not modelled.
- Decimal.ParseNat: Python's `int()` also accepts signs, spaces and underscores. The model accepts only digit strings, which is all the application ever stores.
- The cart's initial column is spelled `пользователь` but later rows use `Пользователь`. Only the renamed `Пользователь` column reaches the booking rows, so the model keeps one user column.
- `get_user` and `get_airports` are not modelled: they are plain reads with no logic. The admin, register and airline-review pages are not modelled: they are rendering.
- SearchPage.InitCart: runs when the page module is first imported, not on every rerun; the model leaves the caller to decide when it runs.
- ProfilePage.ConfirmAndPay: a failed payment insert (an exception in the database) is not modelled beyond the booking-exists check, since the result ignores it.

## Findings

| source | as written | input that shows it | evidently intended | confidence | as-written member | corrected member |
|---|---|---|---|---|---|---|
| src/main.py:47-53 | rebuilds the user from `user_data[b'user_id']`, `[b'role']` and `[b'username']`. The client has `decode_responses=True` (src/settings.py:25), so every key is text. The login hash also has no `username` field | session state holding `auth_token` with a live token key but no `user` entry: the reload raises `KeyError` on `b'user_id'` | read the text keys the login page writes: `user_id` (parsed), `role`, and `login` as the name | high (proved about the model; not executed) | App.ReloadUserAsWritten (App.ReloadAsWrittenAlwaysFails, App.ValidateRequest) | App.ReloadUser (App.RestoreUser, App.LoginHashHasNoUsername, App.LoginThenRequest) |
