/** The backend's database and request handlers. `HotelStore` holds the
    four tables the handlers touch and the next primary key of each; every
    handler is a method that receives the caller's hotel id (what
    `get_current_hotel()` gives the authenticated user), checks and updates
    the tables as the Flask handler does, and answers an `Outcome`. A
    handler that fails either returns before `db.session.commit()` or its
    commit fails and the session rolls back, so the tables are left as
    they were. */
module Store {
  import opened Common
  import opened Text
  import opened Calendar
  import opened Models
  import opened Auth
  import opened Booking
  import opened Queries
  import opened Tables

  /** The JSON body of `POST /api/rooms`; `None` for a key not sent. */
  datatype RoomInput = RoomInput(
    roomNumber: Option<string>,
    name: Option<string>,
    roomType: Option<string>,
    price: Option<int>)

  /** The JSON body of `PUT /api/rooms/<id>`. */
  datatype RoomPatch = RoomPatch(
    name: Option<string>,
    price: Option<int>,
    roomType: Option<string>)

  /** The JSON body of `POST /api/reservations`. */
  datatype ReservationInput = ReservationInput(
    guestName: Option<string>,
    roomId: Option<int>,
    checkInDate: Option<string>,
    checkOutDate: Option<string>,
    guestEmail: Option<string>,
    guestPhone: Option<string>,
    amountPaid: Option<int>,
    paymentStatus: Option<string>,
    notes: Option<string>)

  /** The JSON body of `PUT /api/reservations/<id>`. */
  datatype ReservationPatch = ReservationPatch(
    guestName: Option<string>,
    guestEmail: Option<string>,
    guestPhone: Option<string>,
    notes: Option<string>,
    paymentStatus: Option<string>,
    status: Option<string>,
    amountPaid: Option<int>,
    checkInDate: Option<string>,
    checkOutDate: Option<string>,
    roomId: Option<int>)

  /** The keys `create_reservation` insists on, in the order it checks them. */
  const RequiredFields: seq<string> := ["guest_name", "room_id", "check_in_date", "check_out_date"]

  /** `field in data`. */
  predicate Present(input: ReservationInput, field: string) {
    match field
    case "guest_name" => input.guestName.Some?
    case "room_id" => input.roomId.Some?
    case "check_in_date" => input.checkInDate.Some?
    case "check_out_date" => input.checkOutDate.Some?
    case _ => false
  }

  /** All four required keys were sent. */
  predicate Complete(input: ReservationInput) {
    input.guestName.Some? && input.roomId.Some? && input.checkInDate.Some? && input.checkOutDate.Some?
  }

  /** The loop over `required_fields`: the position of the first key missing
      from the body, or `None` when all are there. */
  method FirstMissingField(input: ReservationInput) returns (missing: Option<nat>)
    ensures missing.None? <==> Complete(input)
    ensures missing.None? <==> forall k :: 0 <= k < |RequiredFields| ==> Present(input, RequiredFields[k])
    ensures missing.Some? ==> missing.value < |RequiredFields| && !Present(input, RequiredFields[missing.value])
    ensures missing.Some? ==> forall j :: 0 <= j < missing.value ==> Present(input, RequiredFields[j])
  {
    for i := 0 to |RequiredFields|
      invariant forall j :: 0 <= j < i ==> Present(input, RequiredFields[j])
    {
      if !Present(input, RequiredFields[i]) {
        return Some(i);
      }
    }
    assert Present(input, RequiredFields[0]) && Present(input, RequiredFields[1]);
    assert Present(input, RequiredFields[2]) && Present(input, RequiredFields[3]);
    return None;
  }

  /** What `register` answers, up to its first commit: the three inputs
      are stripped (an absent one reads as ''), the checks of
      RegistrationError answer 400, and an email already on file breaks its
      unique column at commit (500). Otherwise the account takes key `id`.
      `hash` stands for `generate_password_hash`. */
  function RegistrationAnswer(users: seq<User>, username: string, password: string, email: string,
                              hash: string -> string, id: int, now: int): (a: Outcome<User>)
    ensures RegistrationError(Strip(username), Strip(password), users).Some? ==>
      a == Fail(400, RegistrationError(Strip(username), Strip(password), users).value)
    ensures RegistrationError(Strip(username), Strip(password), users).None? &&
            Strip(email) != "" && EmailTaken(users, Strip(email)) ==>
      a == Fail(500, ServerError)
    ensures a.Ok? <==>
      && RegistrationError(Strip(username), Strip(password), users).None?
      && (Strip(email) == "" || !EmailTaken(users, Strip(email)))
    // The account: stripped name, an empty email stored as NULL, the hash
    // of the stripped password; its name and email are new.
    ensures a.Ok? ==>
      && a.value == User(id, Strip(username), if Strip(email) == "" then None else Some(Strip(email)),
                         hash(Strip(password)), now)
      && |Strip(password)| >= 6
      && (forall i :: 0 <= i < |users| ==> users[i].username != a.value.username)
      && (a.value.email.Some? ==> forall i :: 0 <= i < |users| ==> users[i].email != a.value.email)
  {
    var u := Strip(username);
    var p := Strip(password);
    var e := Strip(email);
    var error := RegistrationError(u, p, users);
    if error.Some? then Fail(400, error.value)
    else if e != "" && EmailTaken(users, e) then Fail(500, ServerError)
    else Ok(User(id, u, if e == "" then None else Some(e), hash(p), now))
  }

  /** What `change_password` answers for a user whose stored hash is
      `stored`: the stripped inputs are checked first (400), then the
      current password against the stored hash (401). `matches` stands for
      `check_password_hash`. */
  function PasswordAnswer(stored: string, currentPassword: string, newPassword: string,
                          matches: (string, string) -> bool): (a: Outcome<()>)
    ensures PasswordChangeError(Strip(currentPassword), Strip(newPassword)).Some? ==>
      a == Fail(400, PasswordChangeError(Strip(currentPassword), Strip(newPassword)).value)
    ensures PasswordChangeError(Strip(currentPassword), Strip(newPassword)).None? &&
            !matches(stored, Strip(currentPassword)) ==>
      a == Fail(401, "Current password is incorrect")
    ensures a.Ok? <==>
      && Strip(currentPassword) != "" && |Strip(newPassword)| >= 6
      && matches(stored, Strip(currentPassword))
  {
    var current := Strip(currentPassword);
    var replacement := Strip(newPassword);
    var error := PasswordChangeError(current, replacement);
    if error.Some? then Fail(400, error.value)
    else if !matches(stored, current) then Fail(401, "Current password is incorrect")
    else Ok(())
  }

  /** What `create_reservation` answers once every required field is
      present: the room must be one of the caller's hotel (404), both dates
      must parse (500), and no live reservation of the room, in any hotel,
      may overlap the stay (400); the new reservation then takes key `id`. */
  function BookingAnswer(rs: seq<Reservation>, rooms: seq<Room>, hotelId: int, input: ReservationInput,
                         id: int, now: int): (a: Outcome<Reservation>)
    requires Complete(input)
    ensures !HasRoom(rooms, input.roomId.value, hotelId) ==> a == Fail(404, "Room not found")
    ensures HasRoom(rooms, input.roomId.value, hotelId) &&
            StayDates(input.checkInDate.value, input.checkOutDate.value).None? ==>
      a == Fail(500, ServerError)
    ensures var stay := StayDates(input.checkInDate.value, input.checkOutDate.value);
      HasRoom(rooms, input.roomId.value, hotelId) && stay.Some? &&
      HasConflict(rs, None, input.roomId.value, stay.value.0, stay.value.1) ==>
      a == Fail(400, "Room is already booked for these dates")
    ensures a.Ok? <==>
      && HasRoom(rooms, input.roomId.value, hotelId)
      && StayDates(input.checkInDate.value, input.checkOutDate.value).Some?
      && !HasConflict(rs, None, input.roomId.value,
                      StayDates(input.checkInDate.value, input.checkOutDate.value).value.0,
                      StayDates(input.checkInDate.value, input.checkOutDate.value).value.1)
    // The new record: its key and hotel, the room asked for, the parsed
    // stay priced at the room's rate, and the column defaults.
    ensures a.Ok? ==>
      var r := a.value;
      && r.id == id && r.hotelId == hotelId && r.roomId == input.roomId.value
      && HasRoom(rooms, r.roomId, r.hotelId)
      && ParseIsoDate(input.checkInDate.value) == Some(r.checkIn)
      && ParseIsoDate(input.checkOutDate.value) == Some(r.checkOut)
      && !HasConflict(rs, None, r.roomId, r.checkIn, r.checkOut)
      && r.nights == Nights(r.checkIn, r.checkOut)
      && r.totalPrice == StayPrice(rooms[RoomIndex(rooms, r.roomId, hotelId)].pricePerNight, r.nights)
      && r.guestId == None && r.guestName == input.guestName.value
      && r.guestEmail == input.guestEmail.GetOr("") && r.guestPhone == input.guestPhone.GetOr("")
      && r.amountPaid == input.amountPaid.GetOr(0) && r.paymentStatus == input.paymentStatus.GetOr(DefaultPaymentStatus)
      && r.status == Pending && r.createdAt == now && r.checkedInAt == None && r.checkedOutAt == None
      && r.notes == input.notes.GetOr("")
  {
    var roomId := input.roomId.value;
    if !HasRoom(rooms, roomId, hotelId) then Fail(404, "Room not found")
    else
      var room := rooms[RoomIndex(rooms, roomId, hotelId)];
      var checkIn := ParseIsoDate(input.checkInDate.value);
      var checkOut := ParseIsoDate(input.checkOutDate.value);
      if checkIn.None? || checkOut.None? then Fail(500, ServerError)
      else if HasConflict(rs, None, room.id, checkIn.value, checkOut.value) then
        Fail(400, "Room is already booked for these dates")
      else
        var nights := Nights(checkIn.value, checkOut.value);
        Ok(Reservation(
          id, hotelId, room.id, None, input.guestName.value,
          input.guestEmail.GetOr(""), input.guestPhone.GetOr(""), checkIn.value, checkOut.value,
          nights, StayPrice(room.pricePerNight, nights),
          input.amountPaid.GetOr(0), input.paymentStatus.GetOr(DefaultPaymentStatus), Pending,
          now, None, None, input.notes.GetOr("")))
  }

  /** The keys the `setattr` loop of `update_reservation` copies, in order. */
  const CopiedKeys: seq<string> := ["guest_name", "guest_email", "guest_phone", "notes", "payment_status", "status"]

  /** `if key in data: setattr(reservation, key, data[key])` for the key
      `CopiedKeys[i]`. */
  function SetSent(r: Reservation, patch: ReservationPatch, i: nat): Reservation
    requires i < |CopiedKeys|
  {
    match i
    case 0 => r.(guestName := patch.guestName.GetOr(r.guestName))
    case 1 => r.(guestEmail := patch.guestEmail.GetOr(r.guestEmail))
    case 2 => r.(guestPhone := patch.guestPhone.GetOr(r.guestPhone))
    case 3 => r.(notes := patch.notes.GetOr(r.notes))
    case 4 => r.(paymentStatus := patch.paymentStatus.GetOr(r.paymentStatus))
    case 5 => r.(status := patch.status.GetOr(r.status))
  }

  /** The record after the loop has visited the first `n` keys. */
  function CopyKeys(r: Reservation, patch: ReservationPatch, n: nat): Reservation
    requires n <= |CopiedKeys|
  {
    if n == 0 then r else SetSent(CopyKeys(r, patch, n - 1), patch, n - 1)
  }

  /** The `setattr` loop: every listed key that was sent is copied, and
      nothing else changes. */
  method CopySentFields(r: Reservation, patch: ReservationPatch) returns (out: Reservation)
    ensures out == WithSimpleFields(r, patch).(amountPaid := r.amountPaid)
  {
    out := r;
    for i := 0 to |CopiedKeys|
      invariant out == CopyKeys(r, patch, i)
    {
      out := SetSent(out, patch, i);
    }
    CopyAllKeys(r, patch);
  }

  lemma CopyAllKeys(r: Reservation, patch: ReservationPatch)
    ensures CopyKeys(r, patch, |CopiedKeys|) == WithSimpleFields(r, patch).(amountPaid := r.amountPaid)
  {
    assert |CopiedKeys| == 6;
    assert CopyKeys(r, patch, 1) == SetSent(r, patch, 0);
    assert CopyKeys(r, patch, 2) == SetSent(CopyKeys(r, patch, 1), patch, 1);
    assert CopyKeys(r, patch, 3) == SetSent(CopyKeys(r, patch, 2), patch, 2);
    assert CopyKeys(r, patch, 4) == SetSent(CopyKeys(r, patch, 3), patch, 3);
    assert CopyKeys(r, patch, 5) == SetSent(CopyKeys(r, patch, 4), patch, 4);
    assert CopyKeys(r, patch, 6) == SetSent(CopyKeys(r, patch, 5), patch, 5);
  }

  /** The fields the key loop and the `amount_paid` branch of
      `update_reservation` copy from the body. */
  function WithSimpleFields(r: Reservation, patch: ReservationPatch): Reservation {
    r.(guestName := patch.guestName.GetOr(r.guestName),
       guestEmail := patch.guestEmail.GetOr(r.guestEmail),
       guestPhone := patch.guestPhone.GetOr(r.guestPhone),
       notes := patch.notes.GetOr(r.notes),
       paymentStatus := patch.paymentStatus.GetOr(r.paymentStatus),
       status := patch.status.GetOr(r.status),
       amountPaid := patch.amountPaid.GetOr(r.amountPaid))
  }

  /** Both dates of a stay, when both texts parse. */
  function StayDates(checkInText: string, checkOutText: string): (stay: Option<(CivilDate, CivilDate)>)
    ensures stay.Some? <==> ParseIsoDate(checkInText).Some? && ParseIsoDate(checkOutText).Some?
    ensures stay.Some? ==> stay.value == (ParseIsoDate(checkInText).value, ParseIsoDate(checkOutText).value)
  {
    match (ParseIsoDate(checkInText), ParseIsoDate(checkOutText))
    case (Some(checkIn), Some(checkOut)) => Some((checkIn, checkOut))
    case _ => None
  }

  /** The body names a new check-in date, check-out date or room. */
  predicate Relocates(patch: ReservationPatch) {
    patch.checkInDate.Some? || patch.checkOutDate.Some? || patch.roomId.Some?
  }

  /** What `update_reservation` answers for reservation `r`, found in the
      caller's hotel `hotelId`, given the reservation and room tables. */
  function UpdateAnswer(rs: seq<Reservation>, rooms: seq<Room>, hotelId: int, r: Reservation, patch: ReservationPatch)
    : (a: Outcome<Reservation>)
    // Without a new date or room only the copied fields change.
    ensures !Relocates(patch) ==> a == Ok(WithSimpleFields(r, patch))
    // On either path the copied fields are taken from the body and every
    // field other than the stay's dates, room, nights and price (the
    // guest's id included) is the one `r` had.
    ensures a.Ok? ==>
      a.value == WithSimpleFields(r, patch).(checkIn := a.value.checkIn, checkOut := a.value.checkOut,
                                             roomId := a.value.roomId, nights := a.value.nights,
                                             totalPrice := a.value.totalPrice)
    // The record keeps its identity and its timestamps.
    ensures a.Ok? ==> && a.value.id == r.id && a.value.hotelId == r.hotelId && a.value.createdAt == r.createdAt
                      && a.value.checkedInAt == r.checkedInAt && a.value.checkedOutAt == r.checkedOutAt
    // What is not sent keeps its value (the ISO form of a date reads back
    // as that date); what is sent is taken.
    ensures a.Ok? ==> && (patch.checkInDate.None? ==> a.value.checkIn == r.checkIn)
                      && (patch.checkOutDate.None? ==> a.value.checkOut == r.checkOut)
                      && (patch.roomId.None? ==> a.value.roomId == r.roomId)
    ensures a.Ok? ==> && (patch.checkInDate.Some? ==> ParseIsoDate(patch.checkInDate.value) == Some(a.value.checkIn))
                      && (patch.checkOutDate.Some? ==> ParseIsoDate(patch.checkOutDate.value) == Some(a.value.checkOut))
                      && (patch.roomId.Some? ==> a.value.roomId == patch.roomId.value)
    // A moved stay is on a room of the caller's hotel, clashes with no
    // other reservation of that room, and is priced afresh.
    ensures a.Ok? && Relocates(patch) ==>
      && HasRoom(rooms, a.value.roomId, hotelId)
      && !HasConflict(rs, Some(r.id), a.value.roomId, a.value.checkIn, a.value.checkOut)
      && a.value.nights == Nights(a.value.checkIn, a.value.checkOut)
      && a.value.totalPrice == StayPrice(rooms[RoomIndex(rooms, a.value.roomId, hotelId)].pricePerNight, a.value.nights)
    // Failures only come from a new stay, with these answers.
    ensures a.Fail? ==>
      && Relocates(patch)
      && (|| a == Fail(500, ServerError)
          || a == Fail(400, "Room already booked for these dates")
          || a == Fail(404, "Room not found"))
    ensures a == Fail(500, ServerError) <==>
      Relocates(patch) &&
      (|| ParseIsoDate(patch.checkInDate.GetOr(IsoFormat(r.checkIn))).None?
       || ParseIsoDate(patch.checkOutDate.GetOr(IsoFormat(r.checkOut))).None?)
    ensures a == Fail(400, "Room already booked for these dates") ==>
      HasConflict(rs, Some(r.id), patch.roomId.GetOr(r.roomId),
                  ParseIsoDate(patch.checkInDate.GetOr(IsoFormat(r.checkIn))).value,
                  ParseIsoDate(patch.checkOutDate.GetOr(IsoFormat(r.checkOut))).value)
    ensures a == Fail(404, "Room not found") ==> !HasRoom(rooms, patch.roomId.GetOr(r.roomId), hotelId)
  {
    var cur := WithSimpleFields(r, patch);
    if !Relocates(patch) then Ok(cur)
    else
      ParseIsoFormat(cur.checkIn);
      ParseIsoFormat(cur.checkOut);
      Restay(rs, rooms, hotelId, cur, patch)
  }

  /** The two paths of UpdateAnswer: the simple fields are copied first,
      and the relocation block runs on the copied record. */
  lemma UpdateAnswerPaths(rs: seq<Reservation>, rooms: seq<Room>, hotelId: int, r: Reservation, patch: ReservationPatch)
    ensures UpdateAnswer(rs, rooms, hotelId, r, patch) ==
      if Relocates(patch) then Restay(rs, rooms, hotelId, WithSimpleFields(r, patch), patch)
      else Ok(WithSimpleFields(r, patch))
  {
  }

  /** The block of `update_reservation` run when a date or the room is sent:
      re-read both dates (an unsent one from the ISO form of the current
      date), take the room, check for conflicts, look the room up in the
      caller's hotel, and recompute nights and price. */
  function Restay(rs: seq<Reservation>, rooms: seq<Room>, hotelId: int, cur: Reservation, patch: ReservationPatch)
    : Outcome<Reservation>
  {
    var checkIn := ParseIsoDate(patch.checkInDate.GetOr(IsoFormat(cur.checkIn)));
    var checkOut := ParseIsoDate(patch.checkOutDate.GetOr(IsoFormat(cur.checkOut)));
    if checkIn.None? || checkOut.None? then Fail(500, ServerError)
    else
      var roomId := patch.roomId.GetOr(cur.roomId);
      if HasConflict(rs, Some(cur.id), roomId, checkIn.value, checkOut.value) then
        Fail(400, "Room already booked for these dates")
      else if !HasRoom(rooms, roomId, hotelId) then Fail(404, "Room not found")
      else
        var nights := Nights(checkIn.value, checkOut.value);
        Ok(cur.(checkIn := checkIn.value, checkOut := checkOut.value, roomId := roomId, nights := nights,
                totalPrice := StayPrice(rooms[RoomIndex(rooms, roomId, hotelId)].pricePerNight, nights)))
  }

  /** The steps of `update_reservation` on reservation `r` once it is
      found: the key loop, `amount_paid`, then the relocation block. */
  method ReviseReservation(rs: seq<Reservation>, rooms: seq<Room>, hotelId: int, r: Reservation,
                           patch: ReservationPatch) returns (a: Outcome<Reservation>)
    ensures a == UpdateAnswer(rs, rooms, hotelId, r, patch)
  {
    var cur := CopySentFields(r, patch);
    if patch.amountPaid.Some? {
      cur := cur.(amountPaid := patch.amountPaid.value);
    }
    assert cur == WithSimpleFields(r, patch);
    UpdateAnswerPaths(rs, rooms, hotelId, r, patch);
    if Relocates(patch) {
      a := Restay(rs, rooms, hotelId, cur, patch);
    } else {
      a := Ok(cur);
    }
  }

  /** A relocation the conflict query accepts keeps a table without double
      bookings so: keys are unique, so the query skipped only the row
      itself. */
  lemma UpdateKeepsNoDoubleBooking(rs: seq<Reservation>, next: int, k: nat, r: Reservation)
    requires IdsAscending(rs, ReservationId, next) && k < |rs| && r.id == rs[k].id
    requires !HasConflict(rs, Some(r.id), r.roomId, r.checkIn, r.checkOut)
    ensures NoDoubleBooking(rs) ==> NoDoubleBooking(rs[k := r])
  {
    ReservationIdsDistinct(rs, next, k);
    if NoDoubleBooking(rs) {
      RelocateKeepsNoDoubleBooking(rs, k, r);
    }
  }

  /** The conflict check comes first: a stay that clashes on a room of
      another hotel is answered "already booked", not "not found". */
  lemma ConflictReportedBeforeRoomOwnership(rs: seq<Reservation>, rooms: seq<Room>, hotelId: int, r: Reservation,
                                            patch: ReservationPatch, checkIn: CivilDate, checkOut: CivilDate)
    requires patch.roomId.Some? && !HasRoom(rooms, patch.roomId.value, hotelId)
    requires ParseIsoDate(patch.checkInDate.GetOr(IsoFormat(r.checkIn))) == Some(checkIn)
    requires ParseIsoDate(patch.checkOutDate.GetOr(IsoFormat(r.checkOut))) == Some(checkOut)
    requires HasConflict(rs, Some(r.id), patch.roomId.value, checkIn, checkOut)
    ensures UpdateAnswer(rs, rooms, hotelId, r, patch) == Fail(400, "Room already booked for these dates")
  {
  }

  class HotelStore {
    var users: seq<User>
    var hotels: seq<Hotel>
    var rooms: seq<Room>
    var reservations: seq<Reservation>
    var nextUserId: int
    var nextHotelId: int
    var nextRoomId: int
    var nextReservationId: int

    ghost predicate Valid()
      reads this
    {
      Consistent(users, hotels, rooms, reservations, nextUserId, nextHotelId, nextRoomId, nextReservationId)
    }

    /** A fresh database: empty tables, keys starting at 1. */
    constructor ()
      ensures Valid()
      ensures users == [] && hotels == [] && rooms == [] && reservations == []
      ensures nextUserId == 1 && nextHotelId == 1 && nextRoomId == 1 && nextReservationId == 1
    {
      users, hotels, rooms, reservations := [], [], [], [];
      nextUserId, nextHotelId, nextRoomId, nextReservationId := 1, 1, 1, 1;
      ConsistentEmpty();
    }

    // -------------------------------------------------------------------
    // Accounts

    /** `register`, up to the first commit: RegistrationAnswer decides, and
        an accepted account is appended under the next key. */
    method Register(username: string, password: string, email: string, hash: string -> string, now: int)
      returns (result: Outcome<User>)
      requires Valid()
      modifies this
      ensures Valid()
      ensures result == RegistrationAnswer(old(users), username, password, email, hash, old(nextUserId), now)
      ensures result.Fail? ==> unchanged(this)
      ensures result.Ok? ==>
        && users == old(users) + [result.value]
        && nextUserId == old(nextUserId) + 1
        && hotels == old(hotels) && rooms == old(rooms) && reservations == old(reservations)
        && nextHotelId == old(nextHotelId) && nextRoomId == old(nextRoomId)
        && nextReservationId == old(nextReservationId)
    {
      result := RegistrationAnswer(users, username, password, email, hash, nextUserId, now);
      if result.Fail? {
        return;
      }
      ConsistentAddUser(users, hotels, rooms, reservations,
                        nextUserId, nextHotelId, nextRoomId, nextReservationId, result.value);
      users := users + [result.value];
      nextUserId := nextUserId + 1;
    }

    /** `change_password` for the signed-in user `userId`: PasswordAnswer
        decides against the stored hash, and only an accepted change
        replaces it. */
    method ChangePassword(userId: int, currentPassword: string, newPassword: string,
                          matches: (string, string) -> bool, hash: string -> string)
      returns (result: Outcome<()>)
      requires Valid() && HasUser(users, userId)
      modifies this
      ensures Valid()
      ensures result == PasswordAnswer(old(users)[UserIndex(old(users), userId)].passwordHash,
                                       currentPassword, newPassword, matches)
      ensures result.Fail? ==> unchanged(this)
      ensures result.Ok? ==>
        var k := UserIndex(old(users), userId);
        && users == old(users)[k := old(users)[k].(passwordHash := hash(Strip(newPassword)))]
        && hotels == old(hotels) && rooms == old(rooms) && reservations == old(reservations)
        && nextUserId == old(nextUserId) && nextHotelId == old(nextHotelId)
        && nextRoomId == old(nextRoomId) && nextReservationId == old(nextReservationId)
    {
      var k := UserIndex(users, userId);
      result := PasswordAnswer(users[k].passwordHash, currentPassword, newPassword, matches);
      if result.Fail? {
        return;
      }
      var digest := hash(Strip(newPassword));
      ConsistentSetPassword(users, hotels, rooms, reservations,
                            nextUserId, nextHotelId, nextRoomId, nextReservationId, k, digest);
      users := users[k := users[k].(passwordHash := digest)];
    }

    /** `get_current_hotel` for the signed-in user `userId`: the user's first
        hotel, or else a new one named after the user, committed at once. */
    method CurrentHotel(userId: int, now: int) returns (hotel: Hotel)
      requires Valid() && HasUser(users, userId)
      modifies this
      ensures Valid()
      ensures hotel in hotels && hotel.userId == userId
      ensures IndexWhere(old(hotels), OwnedBy(userId)).Some? ==>
        && hotel == old(hotels)[IndexWhere(old(hotels), OwnedBy(userId)).value]
        && unchanged(this)
      ensures IndexWhere(old(hotels), OwnedBy(userId)).None? ==>
        && hotel == Hotel(old(nextHotelId), userId, old(users)[UserIndex(old(users), userId)].username + "'s Hotel",
                          "", "", "", now)
        && hotels == old(hotels) + [hotel]
        && nextHotelId == old(nextHotelId) + 1
        && users == old(users) && rooms == old(rooms) && reservations == old(reservations)
        && nextUserId == old(nextUserId) && nextRoomId == old(nextRoomId)
        && nextReservationId == old(nextReservationId)
    {
      match IndexWhere(hotels, OwnedBy(userId))
      case Some(k) =>
        hotel := hotels[k];
      case None =>
        var owner := users[UserIndex(users, userId)];
        hotel := Hotel(nextHotelId, userId, owner.username + "'s Hotel", "", "", "", now);
        ConsistentAddHotel(users, hotels, rooms, reservations,
                           nextUserId, nextHotelId, nextRoomId, nextReservationId, hotel);
        hotels := hotels + [hotel];
        nextHotelId := nextHotelId + 1;
    }

    // -------------------------------------------------------------------
    // Rooms

    /** `get_rooms`: the hotel's rooms in table order, each serialised with
        the `is_occupied` flag of its room id. */
    method RoomsWithStatus(hotelId: int) returns (out: seq<Dict>)
      ensures |out| == |Filter(rooms, InHotel(hotelId))|
      ensures forall i :: 0 <= i < |out| ==>
        var room := Filter(rooms, InHotel(hotelId))[i];
        out[i] == RoomToDict(room)["is_occupied" := Bool(IsOccupied(reservations, room.id))]
    {
      var own := Filter(rooms, InHotel(hotelId));
      out := [];
      for i := 0 to |own|
        invariant |out| == i
        invariant forall j :: 0 <= j < i ==>
          out[j] == RoomToDict(own[j])["is_occupied" := Bool(IsOccupied(reservations, own[j].id))]
      {
        var occupied := OccupiedFlag(reservations, own[i].id);
        out := out + [RoomToDict(own[i])["is_occupied" := Bool(occupied)]];
      }
    }

    /** `create_room`. A missing `room_number` finds no duplicate and then
        violates the column's NOT NULL at commit: 500. */
    method CreateRoom(hotelId: int, input: RoomInput, now: int) returns (result: Outcome<Room>)
      requires Valid() && HasHotel(hotels, hotelId)
      modifies this
      ensures Valid()
      ensures result.Fail? ==> unchanged(this)
      ensures input.roomNumber.None? ==> result == Fail(500, ServerError)
      ensures input.roomNumber.Some? && NumberTaken(old(rooms), hotelId, input.roomNumber.value) ==>
        result == Fail(400, "Room number already exists")
      ensures result.Ok? <==> input.roomNumber.Some? && !NumberTaken(old(rooms), hotelId, input.roomNumber.value)
      ensures result.Ok? ==>
        && result.value == Room(old(nextRoomId), hotelId, input.roomNumber.value, input.name.GetOr(""),
                                input.roomType.GetOr(DefaultRoomType), input.price.GetOr(0),
                                DefaultRoomStatus, "", now)
        && rooms == old(rooms) + [result.value]
        && nextRoomId == old(nextRoomId) + 1
        && users == old(users) && hotels == old(hotels) && reservations == old(reservations)
        && nextUserId == old(nextUserId) && nextHotelId == old(nextHotelId)
        && nextReservationId == old(nextReservationId)
    {
      if input.roomNumber.None? {
        return Fail(500, ServerError);
      }
      var number := input.roomNumber.value;
      if NumberTaken(rooms, hotelId, number) {
        return Fail(400, "Room number already exists");
      }
      var room := Room(nextRoomId, hotelId, number, input.name.GetOr(""), input.roomType.GetOr(DefaultRoomType),
                       input.price.GetOr(0), DefaultRoomStatus, "", now);
      ConsistentAddRoom(users, hotels, rooms, reservations,
                        nextUserId, nextHotelId, nextRoomId, nextReservationId, room);
      rooms := rooms + [room];
      nextRoomId := nextRoomId + 1;
      result := Ok(room);
    }

    /** `update_room`: only name, price and type change, each when sent. A
        room of another hotel is not found. */
    method UpdateRoom(hotelId: int, roomId: int, patch: RoomPatch) returns (result: Outcome<Room>)
      requires Valid()
      modifies this
      ensures Valid()
      ensures result.Fail? ==> unchanged(this)
      ensures result.Fail? <==> !HasRoom(old(rooms), roomId, hotelId)
      ensures result.Fail? ==> result == Fail(404, "Room not found")
      ensures result.Ok? ==>
        var k := RoomIndex(old(rooms), roomId, hotelId);
        var room := old(rooms)[k];
        && result.value == room.(name := patch.name.GetOr(room.name),
                                 pricePerNight := patch.price.GetOr(room.pricePerNight),
                                 roomType := patch.roomType.GetOr(room.roomType))
        && rooms == old(rooms)[k := result.value]
        && users == old(users) && hotels == old(hotels) && reservations == old(reservations)
        && nextUserId == old(nextUserId) && nextHotelId == old(nextHotelId)
        && nextRoomId == old(nextRoomId) && nextReservationId == old(nextReservationId)
    {
      if !HasRoom(rooms, roomId, hotelId) {
        return Fail(404, "Room not found");
      }
      var k := RoomIndex(rooms, roomId, hotelId);
      var room := rooms[k];
      if patch.name.Some? {
        room := room.(name := patch.name.value);
      }
      if patch.price.Some? {
        room := room.(pricePerNight := patch.price.value);
      }
      if patch.roomType.Some? {
        room := room.(roomType := patch.roomType.value);
      }
      ConsistentReplaceRoom(users, hotels, rooms, reservations,
                            nextUserId, nextHotelId, nextRoomId, nextReservationId, k, room);
      rooms := rooms[k := room];
      result := Ok(room);
    }

    /** `delete_room`. Deleting a room that reservations still point at
        makes SQLAlchemy set their NOT NULL `room_id` to NULL, which fails
        at commit: 500 and nothing deleted. */
    method DeleteRoom(hotelId: int, roomId: int) returns (result: Outcome<()>)
      requires Valid()
      modifies this
      ensures Valid()
      ensures result.Fail? ==> unchanged(this)
      ensures !HasRoom(old(rooms), roomId, hotelId) ==> result == Fail(404, "Room not found")
      ensures HasRoom(old(rooms), roomId, hotelId) && Referenced(old(reservations), roomId) ==>
        result == Fail(500, ServerError)
      ensures result.Ok? <==> HasRoom(old(rooms), roomId, hotelId) && !Referenced(old(reservations), roomId)
      ensures result.Ok? ==>
        && rooms == RemoveAt(old(rooms), RoomIndex(old(rooms), roomId, hotelId))
        && users == old(users) && hotels == old(hotels) && reservations == old(reservations)
        && nextUserId == old(nextUserId) && nextHotelId == old(nextHotelId)
        && nextRoomId == old(nextRoomId) && nextReservationId == old(nextReservationId)
    {
      if !HasRoom(rooms, roomId, hotelId) {
        return Fail(404, "Room not found");
      }
      if Referenced(reservations, roomId) {
        return Fail(500, ServerError);
      }
      var k := RoomIndex(rooms, roomId, hotelId);
      ConsistentRemoveRoom(users, hotels, rooms, reservations,
                           nextUserId, nextHotelId, nextRoomId, nextReservationId, k);
      rooms := RemoveAt(rooms, k);
      result := Ok(());
    }

    // -------------------------------------------------------------------
    // Reservations

    /** `create_reservation`, checking in the handler's order: required
        keys, the room (in the caller's hotel), the two dates (`strptime`
        raising gives 500), then booking conflicts on that room in any
        hotel. */
    method CreateReservation(hotelId: int, input: ReservationInput, now: int) returns (result: Outcome<Reservation>)
      requires Valid()
      modifies this
      ensures Valid()
      ensures result.Fail? ==> unchanged(this)
      ensures forall k ::
        (0 <= k < |RequiredFields| && !Present(input, RequiredFields[k])
         && (forall j :: 0 <= j < k ==> Present(input, RequiredFields[j]))) ==>
        result == Fail(400, "Missing field: " + RequiredFields[k])
      ensures Complete(input) ==>
        result == BookingAnswer(old(reservations), old(rooms), hotelId, input, old(nextReservationId), now)
      ensures result.Ok? ==>
        && Complete(input)
        && reservations == old(reservations) + [result.value]
        && nextReservationId == old(nextReservationId) + 1
        && users == old(users) && hotels == old(hotels) && rooms == old(rooms)
        && nextUserId == old(nextUserId) && nextHotelId == old(nextHotelId) && nextRoomId == old(nextRoomId)
      ensures result.Ok? && NoDoubleBooking(old(reservations)) ==> NoDoubleBooking(reservations)
    {
      var missing := FirstMissingField(input);
      if missing.Some? {
        return Fail(400, "Missing field: " + RequiredFields[missing.value]);
      }
      result := BookingAnswer(reservations, rooms, hotelId, input, nextReservationId, now);
      if result.Fail? {
        return;
      }
      var r := result.value;
      ConsistentAddReservation(users, hotels, rooms, reservations,
                               nextUserId, nextHotelId, nextRoomId, nextReservationId, r);
      if NoDoubleBooking(reservations) {
        CreateKeepsNoDoubleBooking(reservations, r);
      }
      reservations := reservations + [r];
      nextReservationId := nextReservationId + 1;
    }

    /** `update_reservation`. The sent text fields and `amount_paid` are
        copied; when a date or the room is sent, the stay is re-read (an
        unsent date from its ISO form), checked for conflicts with the other
        reservations of the target room, and only then is the room looked up
        in the caller's hotel, before nights and price are recomputed. */
    method UpdateReservation(hotelId: int, reservationId: int, patch: ReservationPatch)
      returns (result: Outcome<Reservation>)
      requires Valid()
      modifies this
      ensures Valid()
      ensures result.Fail? ==> unchanged(this)
      ensures !HasReservation(old(reservations), reservationId, hotelId) ==>
        result == Fail(404, "Reservation not found")
      ensures HasReservation(old(reservations), reservationId, hotelId) ==>
        result == UpdateAnswer(old(reservations), old(rooms), hotelId,
                               old(reservations)[ReservationIndex(old(reservations), reservationId, hotelId)], patch)
      ensures result.Ok? ==>
        && reservations == old(reservations)[ReservationIndex(old(reservations), reservationId, hotelId) := result.value]
        && users == old(users) && hotels == old(hotels) && rooms == old(rooms)
        && nextUserId == old(nextUserId) && nextHotelId == old(nextHotelId)
        && nextRoomId == old(nextRoomId) && nextReservationId == old(nextReservationId)
      ensures result.Ok? && Relocates(patch) && NoDoubleBooking(old(reservations)) ==> NoDoubleBooking(reservations)
    {
      if !HasReservation(reservations, reservationId, hotelId) {
        return Fail(404, "Reservation not found");
      }
      var k := ReservationIndex(reservations, reservationId, hotelId);
      result := ReviseReservation(reservations, rooms, hotelId, reservations[k], patch);
      if result.Fail? {
        return;
      }
      var r := result.value;
      if Relocates(patch) {
        UpdateKeepsNoDoubleBooking(reservations, nextReservationId, k, r);
      }
      ConsistentReplaceReservation(users, hotels, rooms, reservations,
                                   nextUserId, nextHotelId, nextRoomId, nextReservationId, k, r);
      reservations := reservations[k := r];
    }

    /** `delete_reservation`. */
    method DeleteReservation(hotelId: int, reservationId: int) returns (result: Outcome<()>)
      requires Valid()
      modifies this
      ensures Valid()
      ensures result.Fail? ==> unchanged(this)
      ensures result.Fail? <==> !HasReservation(old(reservations), reservationId, hotelId)
      ensures result.Fail? ==> result == Fail(404, "Reservation not found")
      ensures result.Ok? ==>
        && reservations == RemoveAt(old(reservations), ReservationIndex(old(reservations), reservationId, hotelId))
        && users == old(users) && hotels == old(hotels) && rooms == old(rooms)
        && nextUserId == old(nextUserId) && nextHotelId == old(nextHotelId)
        && nextRoomId == old(nextRoomId) && nextReservationId == old(nextReservationId)
      ensures result.Ok? && NoDoubleBooking(old(reservations)) ==> NoDoubleBooking(reservations)
    {
      if !HasReservation(reservations, reservationId, hotelId) {
        return Fail(404, "Reservation not found");
      }
      var k := ReservationIndex(reservations, reservationId, hotelId);
      ConsistentRemoveReservation(users, hotels, rooms, reservations,
                                  nextUserId, nextHotelId, nextRoomId, nextReservationId, k);
      if NoDoubleBooking(reservations) {
        RemoveKeepsNoDoubleBooking(reservations, k);
      }
      reservations := RemoveAt(reservations, k);
      result := Ok(());
    }

    /** `checkin_guest`: status `active` and the check-in time, from any
        prior status; nothing else changes. */
    method CheckIn(hotelId: int, reservationId: int, now: int) returns (result: Outcome<Reservation>)
      requires Valid()
      modifies this
      ensures Valid()
      ensures result.Fail? ==> unchanged(this)
      ensures result.Fail? <==> !HasReservation(old(reservations), reservationId, hotelId)
      ensures result.Fail? ==> result == Fail(404, "Reservation not found")
      ensures result.Ok? ==>
        var k := ReservationIndex(old(reservations), reservationId, hotelId);
        && result.value == old(reservations)[k].(status := Active, checkedInAt := Some(now))
        && reservations == old(reservations)[k := result.value]
        && users == old(users) && hotels == old(hotels) && rooms == old(rooms)
        && nextUserId == old(nextUserId) && nextHotelId == old(nextHotelId)
        && nextRoomId == old(nextRoomId) && nextReservationId == old(nextReservationId)
    {
      if !HasReservation(reservations, reservationId, hotelId) {
        return Fail(404, "Reservation not found");
      }
      var k := ReservationIndex(reservations, reservationId, hotelId);
      var r := reservations[k];
      r := r.(status := Active);
      r := r.(checkedInAt := Some(now));
      ConsistentReplaceReservation(users, hotels, rooms, reservations,
                                   nextUserId, nextHotelId, nextRoomId, nextReservationId, k, r);
      result := Ok(r);
      reservations := reservations[k := r];
    }

    /** `checkout_guest`: status `completed` and the check-out time, from
        any prior status; nothing else changes. */
    method CheckOut(hotelId: int, reservationId: int, now: int) returns (result: Outcome<Reservation>)
      requires Valid()
      modifies this
      ensures Valid()
      ensures result.Fail? ==> unchanged(this)
      ensures result.Fail? <==> !HasReservation(old(reservations), reservationId, hotelId)
      ensures result.Fail? ==> result == Fail(404, "Reservation not found")
      ensures result.Ok? ==>
        var k := ReservationIndex(old(reservations), reservationId, hotelId);
        && result.value == old(reservations)[k].(status := Completed, checkedOutAt := Some(now))
        && reservations == old(reservations)[k := result.value]
        && users == old(users) && hotels == old(hotels) && rooms == old(rooms)
        && nextUserId == old(nextUserId) && nextHotelId == old(nextHotelId)
        && nextRoomId == old(nextRoomId) && nextReservationId == old(nextReservationId)
      ensures result.Ok? && NoDoubleBooking(old(reservations)) ==> NoDoubleBooking(reservations)
    {
      if !HasReservation(reservations, reservationId, hotelId) {
        return Fail(404, "Reservation not found");
      }
      var k := ReservationIndex(reservations, reservationId, hotelId);
      var r := reservations[k];
      r := r.(status := Completed);
      r := r.(checkedOutAt := Some(now));
      ConsistentReplaceReservation(users, hotels, rooms, reservations,
                                   nextUserId, nextHotelId, nextRoomId, nextReservationId, k, r);
      if NoDoubleBooking(reservations) {
        FinishingKeepsNoDoubleBooking(reservations, k, r);
      }
      result := Ok(r);
      reservations := reservations[k := r];
    }
  }
}
