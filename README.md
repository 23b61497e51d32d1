# Hotel management backend — a Dafny model

This project models the server side of a small multi-tenant hotel
management application: a Flask backend (`app.py`) over SQLAlchemy
records (`models.py`). Each user owns a hotel, and each hotel has rooms
and reservations. Every handler that needs a hotel works on the caller's
hotel only.

The backend lets a caller:

- register an account and change its password;
- list, create, update and delete rooms, with a room number used at most
  once per hotel;
- create, update and delete reservations, refusing a stay that overlaps a
  live booking of the same room;
- check guests in and out;
- fetch the reservations that overlap a calendar month;
- read the dashboard counts.

The model is split into modules:

- `Common`: `Option`, `Outcome` (a JSON answer or an HTTP error status with
  its message), `Filter`, `IndexWhere` and `RemoveAt`.
- `Text`: Python's `str.strip`, `startswith` and `replace(old, new, 1)`.
- `Calendar`: proleptic Gregorian dates and their day ordinals (Python's
  `date.toordinal`), `date.isoformat`, `datetime.strptime(s, '%Y-%m-%d')`
  and the month bounds of the calendar endpoint.
- `Models`: the records, the column defaults and the `to_dict` serialisers.
- `Config`: the `DATABASE_URL` rewrite.
- `Auth`: the `Authorization: Bearer` header, the user lookup and the input
  checks of `register` and `change_password`.
- `Booking`: the conflict test, nights and price, and the "no double
  booking" property together with the operations that keep it.
- `Queries`: the calendar endpoint, the occupancy flag and the dashboard
  counts.
- `Tables`: the integrity the stored tables keep. Part of it is declared in
  the schema: ascending primary keys, unique usernames and emails, and the
  per-hotel room-number constraint. The rest is kept by the handlers
  themselves: every hotel's owner, every room's hotel and every
  reservation's room exist, and a reservation's room belongs to the
  reservation's own hotel. The foreign keys are declared too, but SQLite
  does not enforce them by default. The module also holds one lemma per
  kind of row change showing that change keeps that integrity.
- `Store`: the class `HotelStore`. It holds the four tables and the
  next-key counters, and has one method per handler.

Every state-changing handler is a method that:

- ensures `Valid()`;
- states its whole new state;
- leaves the store unchanged whenever it answers an error. Either the
  handler returns before `db.session.commit()`, or its commit fails and
  the session is rolled back. The commit fails for a missing room number,
  a duplicate email, and a room that reservations still point at.

Where the answer and the new record depend on many inputs, a pure function
states them (`RegistrationAnswer`, `PasswordAnswer`, `BookingAnswer`,
`UpdateAnswer`) and the method is proved equal to it.

**The calendar endpoint** (`app.py:612-641`) returns the hotel's
reservations that overlap the requested month, whatever their status.
`CalendarShowsStaysWithNightInMonth` states what that range test means: a
stay of at least one night appears in a month's answer exactly when one of
its nights falls in that month. A night belongs to the half-open stay
`[check_in, check_out)`.

**How the environment is represented:**

- The clock (`datetime.utcnow()`, `date.today()`, `datetime.now()`) is a
  parameter: `now` is an integer instant and `today` is a date.
- JWT verification is a parameter `decode`.
- Password hashing and checking are parameters `hash` and `matches`.
- The caller's hotel is a parameter `hotelId`. It is what `get_current_hotel`
  answers, and `HotelStore.CurrentHotel` models that function itself.
- Money is exact integer cents where Python uses `float` and `Numeric(10, 2)`.

## Model

| member | source | states |
|---|---|---|
| Text.Strip | app.py:171-173 | the result has no leading or trailing whitespace, is never longer than the input, and equals the input exactly when the input was already trimmed |
| Text.StripCutsOnlySpace | app.py:171-173 | the stripped text is a slice of the input, and everything cut from its two ends is whitespace; with Strip's own contract, strip removes exactly the outer whitespace |
| Text.StripIdempotent | app.py:171-173 | stripping twice gives the same as stripping once |
| Text.StripAllSpace | app.py:171-173 | a text made only of whitespace strips to '' |
| Text.ReplaceOnceAtPrefix | app.py:31-34 | `replace(pat, repl, 1)` on a text starting with `pat` replaces exactly that prefix |
| Calendar.OrdinalOrder | app.py:456-457 | for valid dates, comparing day ordinals agrees with calendar order, and equal ordinals mean equal dates |
| Calendar.OrdinalMonotone | app.py:456-457 | an earlier date has a smaller ordinal |
| Calendar.MonthBounds | app.py:624-628 | the first of the month and the first of the next month (December rolls over to January of the next year); the span is the month's length in days; a month outside 1..12, or a year outside 1..9999 including the roll-over from December 9999, fails with 500 |
| Calendar.MonthRangeIsMonth | app.py:624-634 | a date lies in the half-open range [start, end) exactly when it is in the requested year and month |
| Calendar.DayOfMonthAt | app.py:624-634 | every ordinal inside the month range is the ordinal of a day of that month |
| Calendar.Pad | models.py:173-174 | a zero-padded field of the given width, made only of digits |
| Calendar.PadThenRead | models.py:173-174 | reading a padded number back gives the number |
| Calendar.ReadThenPad | models.py:173-174 | padding the value of a digit string to its own width gives the string back |
| Calendar.ParseIsoDate | app.py:448-449 | `strptime('%Y-%m-%d')`: a date only for a text of 8 to 10 characters with a four-digit year and a '-' after it; otherwise nothing, where Python raises |
| Calendar.ParseIsoFormat | app.py:515-522 | the ISO form of any date parses back to that date, so an unsent date re-read from `isoformat()` is unchanged |
| Calendar.FormatParsedIso | app.py:515-522 | a 10-character text that parses, and whose day has no leading space, is the ISO form of its date |
| Calendar.ParseUnpadded | app.py:448-449 | `strptime` also accepts unpadded months and days and a day with a leading space ("2024-1-5", "2024-02- 9") |
| Calendar.ParseRefuses | app.py:448-449 | day 32, 29 February of a common year and year 0 are refused |
| Models.DateValue | models.py:173-174 | a date column serialises to null exactly when it is absent, else to a text that parses back to the date |
| Models.UserToDict | models.py:28-34 | exactly the keys id, username, email and created_at; the password hash is never emitted |
| Models.HotelToDict | models.py:54-62 | exactly id, name, address, phone, email and created_at; the owner id is not emitted |
| Models.RoomToDict | models.py:87-96 | exactly the seven published keys; `room_type` is published as `type`, `price_per_night` as `price`, and the hotel id is not emitted |
| Models.FullNameJoins | models.py:121 | for trimmed names, `full_name` is the two names joined by one space, or the non-empty one alone |
| Models.FirstNameOnly | models.py:121 | with an empty last name, `full_name` is the first name (the trailing space is stripped) |
| Models.LastNameOnly | models.py:121 | with an empty first name, `full_name` is the last name |
| Models.GuestToDict | models.py:116-126 | exactly the eight published keys; `full_name` is the stripped join of the two names, and is always trimmed |
| Models.ReservationToDict | models.py:163-182 | exactly the seventeen published keys; room number and room name are null exactly when the reservation has no room; both dates are texts that parse back to the stored dates |
| Config.DatabaseUri | app.py:28-36 | unset or empty gives the SQLite fallback; `postgres://` and `postgresql://` are replaced by the psycopg scheme with the rest kept; any other URL is kept as is |
| Config.SchemesDisjoint | app.py:31-34 | a `postgresql://` URL does not start with `postgres://`, so the `elif` order does not matter |
| Config.NotRewritten | app.py:31-34 | a psycopg URL and the SQLite fallback match neither rewrite |
| Config.DatabaseUriIdempotent | app.py:28-36 | configuring from an already configured URI gives it back unchanged |
| Auth.BearerToken | app.py:104-106 | a token exactly when the header starts with `Bearer `, and then the header is that prefix followed by the token |
| Auth.BearerRoundTrip | app.py:104-106 | the token of `Bearer ` + t is t |
| Auth.FindUser | app.py:109 | `User.query.get`: a stored user with that id, and nothing exactly when no user has it |
| Auth.CurrentUser | app.py:102-110 | a user exactly when the header has the Bearer form, the token decodes to a user id and that user exists; the user found has the decoded id |
| Auth.RegistrationError | app.py:175-182 | no error exactly when both inputs are non-empty, the password has at least 6 characters and the username is new; each failing check gives its own message, in the handler's order |
| Auth.PasswordChangeError | app.py:230-234 | no error exactly when both passwords are non-empty and the new one has at least 6 characters; each failure gives its message |
| Auth.BlankPasswordRefused | app.py:171-176 | a password of whitespace only is refused at registration |
| Booking.BlocksIffSharedNight | app.py:452-458 | for stays of at least one night, the SQL interval test holds exactly when the two stays share a night |
| Booking.BackToBackIsNoConflict | app.py:452-458 | a stay that starts on the day another ends (or the reverse) is not a conflict, for any stay lengths, inverted ones included |
| Booking.FinishedNeverBlocks | app.py:454-455 | completed and cancelled reservations never block a room |
| Booking.ClashSymmetric | app.py:452-458 | the clash relation between two reservations is symmetric |
| Booking.CreateKeepsNoDoubleBooking | app.py:452-485 | appending a reservation the conflict query does not flag keeps the table free of double bookings |
| Booking.RelocateKeepsNoDoubleBooking | app.py:526-547 | replacing reservation k by a record with the same id that the id-excluding conflict query does not flag keeps the table free of double bookings |
| Booking.RemoveKeepsNoDoubleBooking | app.py:565-566 | deleting a reservation keeps the table free of double bookings |
| Booking.FinishingKeepsNoDoubleBooking | app.py:601-603 | turning a reservation into one that no longer holds its room keeps the table free of double bookings |
| Booking.ReactivationCanDoubleBook | app.py:582-584 | setting a live status with no conflict check creates a double booking when the stay collides with another live booking of the room |
| Queries.CalendarData | app.py:614-641 | fails with 500 exactly when the month bounds fail; otherwise holds exactly those reservations of the table that belong to the hotel and overlap [first of month, first of next month), whatever their status |
| Queries.CalendarShowsStaysWithNightInMonth | app.py:630-634 | a stay of at least one night is in a month's answer exactly when one of its nights falls in that month |
| Queries.OccupiedFlag | app.py:319-322 | true exactly when some reservation on that room id has status `active` |
| Queries.FirstOfMonth | app.py:282 | day 1 of the same year and month, never after today |
| Queries.DashboardStats | app.py:253-288 | available rooms equal total minus occupied; check-outs today never exceed the occupied count; every count is bounded by its table |
| Queries.DashboardOfEmpty | app.py:261-288 | with no rooms and no reservations every count is zero |
| Queries.TotalRoomsCountsOwnRooms | app.py:262 | a new room adds one to `total_rooms` exactly when it belongs to the hotel |
| Queries.OccupiedCountsActiveReservations | app.py:264-269 | a new reservation adds one to `occupied_rooms` exactly when it is the hotel's and active |
| Queries.CheckinsCountArrivalsToday | app.py:273-275 | a new reservation adds one to `checkins_today` exactly when it is the hotel's and checks in today, whatever its status |
| Queries.CheckoutsCountActiveDeparturesToday | app.py:277-279 | a new reservation adds one to `checkouts_today` exactly when it is the hotel's, active, and checks out today |
| Queries.DashboardIgnoresOtherHotels | app.py:261-288 | a reservation of another hotel changes none of the caller's counts |
| Queries.DashboardIgnoresOtherRooms | app.py:262 | a room of another hotel changes none of the caller's counts |
| Queries.RevenueCountsLaterCheckIns | app.py:283-288 | every reservation of the hotel checking in on or after the first of the month adds its price to the revenue, however far ahead it lies |
| Queries.AvailableCanBeNegative | app.py:264-270 | a one-room hotel with two active reservations reports -1 available rooms |
| Tables.NumberRepeatsAcrossHotels | models.py:80-82 | the same room number in two different hotels breaks no constraint |
| Tables.ConsistentEmpty | app.py:47-48 | the empty database satisfies every table constraint |
| Tables.ConsistentAddUser | models.py:12-14 | appending a user under the next key, with a new username and a new email, keeps the tables consistent |
| Tables.ConsistentSetPassword | models.py:22-23 | replacing one user's password hash keeps the tables consistent |
| Tables.ConsistentAddHotel | models.py:41-42 | appending a hotel under the next key, owned by an existing user, keeps the tables consistent |
| Tables.ConsistentAddRoom | models.py:69-82 | appending a room under the next key, in an existing hotel and with a number unused in that hotel, keeps the tables consistent |
| Tables.ConsistentReplaceRoom | models.py:69-82 | replacing a room by one with the same id, hotel and number keeps the tables consistent |
| Tables.ConsistentRemoveRoom | models.py:133-135 | removing a room that no reservation points at keeps the tables consistent |
| Tables.ConsistentAddReservation | models.py:133-135 | appending a reservation under the next key, on a room of its own hotel, keeps the tables consistent |
| Tables.ConsistentReplaceReservation | models.py:133-135 | replacing a reservation by one with the same id, on a room of its own hotel, keeps the tables consistent |
| Tables.ConsistentRemoveReservation | models.py:133-135 | removing a reservation keeps the tables consistent |
| Tables.FilterRoomOut | app.py:401 | since keys are unique, deleting the row with room k's key removes exactly position k |
| Tables.FilterReservationOut | app.py:565 | since keys are unique, deleting the row with reservation k's key removes exactly position k |
| Store.FirstMissingField | app.py:437-440 | nothing exactly when all four required keys were sent; otherwise the first key in the handler's order that is missing, with every earlier key present |
| Store.RegistrationAnswer | app.py:168-188 | 400 with the validation message on the stripped inputs; 500 when the stripped email is already on file; success exactly when both checks pass; the account has the next key, the stripped name, the email or null for '', and the hash of the stripped password; its name and email are new |
| Store.PasswordAnswer | app.py:224-242 | 400 with the validation message on the stripped inputs; 401 when the stripped current password does not match the stored hash; success exactly when both checks pass |
| Store.BookingAnswer | app.py:443-485 | 404 when the room is not in the caller's hotel; 500 when a date does not parse; 400 when a live reservation of that room, in any hotel, overlaps; success exactly when all checks pass; the record has the next key, the parsed stay, nights, the price from the room's rate, the sent fields or their defaults, status pending and no check-in or check-out time |
| Store.CopySentFields | app.py:506-508 | the key loop copies every listed key that was sent and changes nothing else |
| Store.CopyAllKeys | app.py:506-508 | visiting the six keys in turn copies exactly the sent ones |
| Store.UpdateAnswer | app.py:504-547 | on either path the sent guest name, email, phone, notes, payment status, status and amount paid are taken and every other field except the dates, room, nights and price (the guest id included) is kept; with no new date or room nothing else changes; the record keeps its id, hotel and timestamps; unsent dates and room are kept and sent ones taken; a moved stay lies on a room of the caller's hotel, clashes with no other live reservation of that room, and is priced afresh; failures only come from a move: 500 exactly when a date does not parse, 400 only with a conflict, 404 only when the room is not the caller's |
| Store.ReviseReservation | app.py:504-547 | the handler's steps in order (the key loop, `amount_paid`, then the relocation block) give UpdateAnswer |
| Store.UpdateKeepsNoDoubleBooking | app.py:526-547 | a move the id-excluding conflict query accepts keeps a table without double bookings so, since keys are unique |
| Store.ConflictReportedBeforeRoomOwnership | app.py:526-540 | a move that clashes on a room outside the caller's hotel is answered "already booked", not "not found" |
| Store.HotelStore.constructor | app.py:47-48 | an empty, consistent database whose keys start at 1 |
| Store.HotelStore.Register | app.py:168-188 | answers RegistrationAnswer for the current table and next key; on success appends the account and advances the key, otherwise changes nothing; the tables stay consistent |
| Store.HotelStore.ChangePassword | app.py:224-244 | answers PasswordAnswer against the user's stored hash; on success replaces only that hash with the hash of the stripped new password, otherwise changes nothing |
| Store.HotelStore.CurrentHotel | app.py:113-126 | the user's first hotel in table order with nothing changed, or else a new hotel "<username>'s Hotel" under the next key, appended at once; the result is in the table and owned by the user |
| Store.HotelStore.RoomsWithStatus | app.py:307-328 | one entry per room of the hotel in table order: the room's dictionary plus `is_occupied`, which is true exactly when an active reservation names that room id |
| Store.HotelStore.CreateRoom | app.py:333-360 | 500 for a missing room number; 400 when the number is taken in this hotel; success exactly otherwise, appending the room with the sent fields or their defaults under the next key |
| Store.HotelStore.UpdateRoom | app.py:365-386 | 404 exactly when the room is not in the caller's hotel; otherwise only name, price and type change, each when sent |
| Store.HotelStore.DeleteRoom | app.py:391-407 | 404 when the room is not the caller's; 500 when a reservation still points at it; otherwise exactly that row is removed |
| Store.HotelStore.CreateReservation | app.py:428-487 | 400 naming the first missing required key; with all keys present answers BookingAnswer and on success appends the record under the next key; a table without double bookings stays so |
| Store.HotelStore.UpdateReservation | app.py:492-550 | 404 when the reservation is not the caller's; otherwise answers UpdateAnswer and on success replaces exactly that row; a move keeps a table without double bookings so |
| Store.HotelStore.DeleteReservation | app.py:555-567 | 404 exactly when the reservation is not the caller's; otherwise exactly that row is removed |
| Store.HotelStore.CheckIn | app.py:572-586 | 404 exactly when the reservation is not the caller's; otherwise status `active` and the check-in time are set, from any prior status, and nothing else changes |
| Store.HotelStore.CheckOut | app.py:591-605 | 404 exactly when the reservation is not the caller's; otherwise status `completed` and the check-out time are set and nothing else changes; a table without double bookings stays so |

## Left out

- `login_required` (app.py:129-137) and `get_current_user` inside the handlers: `ChangePassword` and `CurrentHotel` require the caller to be a stored user, and `CreateRoom` requires the caller's hotel to exist. The other handlers take the caller's hotel id with no further requirement.
- The unreachable "No hotel found" 404 of every hotel handler: `get_current_hotel` never answers no hotel for a signed-in user.
- `CurrentHotel` commits the created hotel even when the request fails later. In the model it is a separate call made before the handler.
- `login`, `logout`, `current_user`, `get_settings`, `update_settings`, `health_check`, `index` and `init_db`: they only read, or they lie outside the core that is modelled.
- `get_reservations` (app.py:410-423): its descending order by check-in date is not modelled.
- `create_jwt_token` and `verify_jwt_token`: token signing, expiry and the secret are library calls, represented by the `decode` parameter.
- `generate_password_hash` and `check_password_hash`: salted PBKDF2 is a library call, represented by the `hash` and `matches` parameters.
- `Register`: after its first commit, `register` builds a default hotel and three default rooms (app.py:190-203). The rooms take `hotel_id=hotel.id` before any flush, while the hotel has no id yet. The outcome of that second commit is not modelled, and so neither is `register`'s final answer. The model covers the validation and the first commit, which stores the account.
- `Queries.DashboardStats`: `occupancy_rate` is a float division and is left out. `monthly_revenue` is the exact integer sum rather than a `float`.
- `Models.RoomToDict` and `Models.ReservationToDict`: prices are exact cents (`Money`) rather than `float(...)`, and there is no `Numeric(10, 2)` rounding.
- `Models.UserToDict`: instants are opaque integers. `isoformat()` of a `datetime` and the null branch for a missing `created_at` are not modelled, because records always have a creation time.
- The `updated_at` column and its `onupdate` hook are not modelled.
- String column lengths such as `String(50)` are not modelled: the model's strings are unbounded.
- `Calendar.ParseIsoDate`: only ASCII digits are accepted. Python's `\d` also matches other Unicode decimal digits.
- Keys sent as JSON `null`: the model's bodies cannot carry one, and its columns cannot hold NULL. In the source:
  - `update_room` stores a null `name` or `type` as NULL and answers 200 (both columns are nullable, models.py:72-73);
  - `update_reservation` does the same for `guest_email`, `guest_phone`, `notes`, `payment_status` and `status` (app.py:506-508);
  - a reservation with a NULL status then never blocks its room, because `status != 'completed'` is unknown in SQL (app.py:454-455, 529-530);
  - on create, SQLAlchemy leaves a `None` out of the INSERT, so the column default applies, but `amount_paid: null` raises in `float(None)`;
  - `room_id: null` passes the required-key loop and answers 404, not "Missing field".
- JSON bodies that are not objects, values of the wrong JSON type, and `float()` of a non-numeric `price` or `amount_paid` are not modelled; in Python these raise and the answer is 500. Bodies are typed records, and a key that is not sent is `None`.
- `Queries.CalendarData`: the defaulting of `year` and `month` from the query string and the clock is not modelled; the function takes both as integers.
- `Store.HotelStore.DeleteRoom` and `DeleteReservation`: deleting by key is modelled as removing the row at that key's position, which `Tables.FilterRoomOut` and `Tables.FilterReservationOut` justify.
- The global "no double booking" property is not kept by every handler, so it is not part of `Valid()`. Creation, moves, deletion and check-out keep it. Check-in and plain status edits can break it (`Booking.ReactivationCanDoubleBook`).
- Key reuse: without an explicit AUTOINCREMENT, the SQLite fallback may hand the largest deleted id out again. The model's counters never reuse a key.
- `Store.HotelStore.CurrentHotel` and `Store.HotelStore.RoomsWithStatus`: `.first()` and `.all()` without ORDER BY have no guaranteed order in SQL. The model takes table (insertion) order.
- `Numeric(10, 2)` overflow of prices and payments is not modelled: the model's integers are unbounded.
- Concurrency between requests and transaction isolation are not modelled: each request runs alone against the tables.
