/** The stored records (users, hotels, rooms, guests, reservations), the
    column defaults a new record takes, and the `to_dict` serialisers that
    shape every JSON answer. Prices are exact integers (cents) rather than
    Python floats; instants (`created_at`, `checked_in_at`, ...) are opaque
    integers supplied by the caller. */
module Models {
  import opened Common
  import opened Text
  import opened Calendar

  datatype User = User(
    id: int,
    username: string,
    email: Option<string>,
    passwordHash: string,
    createdAt: int)

  datatype Hotel = Hotel(
    id: int,
    userId: int,
    name: string,
    address: string,
    phone: string,
    email: string,
    createdAt: int)

  datatype Room = Room(
    id: int,
    hotelId: int,
    roomNumber: string,
    name: string,
    roomType: string,
    pricePerNight: int,
    status: string,
    amenities: string,
    createdAt: int)

  datatype Guest = Guest(
    id: int,
    hotelId: int,
    firstName: string,
    lastName: string,
    email: string,
    phone: string,
    idNumber: string,
    notes: string,
    createdAt: int)

  datatype Reservation = Reservation(
    id: int,
    hotelId: int,
    roomId: int,
    guestId: Option<int>,
    guestName: string,
    guestEmail: string,
    guestPhone: string,
    checkIn: CivilDate,
    checkOut: CivilDate,
    nights: int,
    totalPrice: int,
    amountPaid: int,
    paymentStatus: string,
    status: string,
    createdAt: int,
    checkedInAt: Option<int>,
    checkedOutAt: Option<int>,
    notes: string)

  // Column defaults.
  const DefaultRoomType := "Standard"
  const DefaultRoomStatus := "available"
  const DefaultPaymentStatus := "pending"

  // Reservation statuses the handlers assign.
  const Pending := "pending"
  const Active := "active"
  const Completed := "completed"
  const Cancelled := "cancelled"

  /** A JSON value produced by a serialiser. `Money` carries exact cents where
      Python emits `float(...)`; `Time` carries an instant where Python emits
      its `isoformat()`. */
  datatype Value =
    | Null
    | Bool(b: bool)
    | Int(i: int)
    | Str(s: string)
    | Money(cents: int)
    | Time(instant: int)

  type Dict = map<string, Value>

  function OptStr(s: Option<string>): Value {
    if s.Some? then Str(s.value) else Null
  }

  function OptInt(n: Option<int>): Value {
    if n.Some? then Int(n.value) else Null
  }

  /** A date column: `None` when absent, else its ISO form. */
  function DateValue(d: Option<CivilDate>): (v: Value)
    ensures v == Null <==> d.None?
    ensures d.Some? ==> v.Str? && ParseIsoDate(v.s) == Some(d.value)
  {
    if d.None? then Null
    else
      ParseIsoFormat(d.value);
      Str(IsoFormat(d.value))
  }

  /** `User.to_dict`: the password hash is never part of it. */
  function UserToDict(u: User): (d: Dict)
    ensures d.Keys == {"id", "username", "email", "created_at"}
    ensures "password_hash" !in d
    ensures d["id"] == Int(u.id) && d["username"] == Str(u.username)
  {
    map["id" := Int(u.id),
        "username" := Str(u.username),
        "email" := OptStr(u.email),
        "created_at" := Time(u.createdAt)]
  }

  /** `Hotel.to_dict`. */
  function HotelToDict(h: Hotel): (d: Dict)
    ensures d.Keys == {"id", "name", "address", "phone", "email", "created_at"}
    ensures "user_id" !in d
  {
    map["id" := Int(h.id),
        "name" := Str(h.name),
        "address" := Str(h.address),
        "phone" := Str(h.phone),
        "email" := Str(h.email),
        "created_at" := Time(h.createdAt)]
  }

  /** `Room.to_dict`: `room_type` is published as `type` and
      `price_per_night` as `price`; the owning hotel is not published. */
  function RoomToDict(r: Room): (d: Dict)
    ensures d.Keys == {"id", "room_number", "name", "type", "price", "status", "amenities"}
    ensures "hotel_id" !in d && "room_type" !in d && "price_per_night" !in d
    ensures d["type"] == Str(r.roomType) && d["price"] == Money(r.pricePerNight)
  {
    map["id" := Int(r.id),
        "room_number" := Str(r.roomNumber),
        "name" := Str(r.name),
        "type" := Str(r.roomType),
        "price" := Money(r.pricePerNight),
        "status" := Str(r.status),
        "amenities" := Str(r.amenities)]
  }

  /** `f"{first_name} {last_name}".strip()`. */
  function FullName(firstName: string, lastName: string): string {
    Strip(firstName + " " + lastName)
  }

  /** For names without outer whitespace the full name joins them with one
      space, and an empty part contributes nothing (no stray space). */
  lemma FullNameJoins(firstName: string, lastName: string)
    requires Trimmed(firstName) && Trimmed(lastName)
    ensures FullName(firstName, lastName) ==
      if lastName == "" then firstName
      else if firstName == "" then lastName
      else firstName + " " + lastName
  {
    var s := firstName + " " + lastName;
    if lastName == "" {
      FirstNameOnly(firstName);
    } else if firstName == "" {
      LastNameOnly(lastName);
    } else {
      assert s[0] == firstName[0] && s[|s| - 1] == lastName[|lastName| - 1];
      assert Trimmed(s);
    }
  }

  lemma FirstNameOnly(firstName: string)
    requires Trimmed(firstName)
    ensures Strip(firstName + " " + "") == firstName
  {
    var s := firstName + " " + "";
    if firstName == "" {
      StripAllSpace(s);
    } else {
      assert s[0] == firstName[0];
      assert LStrip(s) == s;
      assert s[..|s| - 1] == firstName;
      assert RStrip(s) == RStrip(firstName) == firstName;
    }
  }

  lemma LastNameOnly(lastName: string)
    requires Trimmed(lastName) && lastName != ""
    ensures Strip("" + " " + lastName) == lastName
  {
    var s := "" + " " + lastName;
    assert s[1..] == lastName;
    assert LStrip(s) == LStrip(lastName) == lastName;
    assert RStrip(lastName) == lastName;
  }

  /** `Guest.to_dict`. */
  function GuestToDict(g: Guest): (d: Dict)
    ensures d.Keys == {"id", "first_name", "last_name", "full_name", "email", "phone", "id_number", "notes"}
    ensures d["full_name"] == Str(FullName(g.firstName, g.lastName)) && Trimmed(d["full_name"].s)
  {
    map["id" := Int(g.id),
        "first_name" := Str(g.firstName),
        "last_name" := Str(g.lastName),
        "full_name" := Str(FullName(g.firstName, g.lastName)),
        "email" := Str(g.email),
        "phone" := Str(g.phone),
        "id_number" := Str(g.idNumber),
        "notes" := Str(g.notes)]
  }

  const ReservationKeys: set<string> := {
    "id", "room_id", "room_number", "room_name", "guest_id", "guest_name",
    "guest_email", "guest_phone", "check_in_date", "check_out_date", "nights",
    "total_price", "amount_paid", "payment_status", "status", "created_at", "notes"}

  /** `Reservation.to_dict`, given the room the reservation's `room`
      relationship loads (`None` when there is none). The money fields are
      `0` when falsy, which for exact cents is the value itself. */
  function ReservationToDict(r: Reservation, room: Option<Room>): (d: Dict)
    ensures d.Keys == ReservationKeys
    ensures d["room_number"] == Null <==> room.None?
    ensures d["room_name"] == Null <==> room.None?
    ensures room.Some? ==> d["room_number"] == Str(room.value.roomNumber)
    ensures d["check_in_date"].Str? && ParseIsoDate(d["check_in_date"].s) == Some(r.checkIn)
    ensures d["check_out_date"].Str? && ParseIsoDate(d["check_out_date"].s) == Some(r.checkOut)
  {
    var d := map k | k in ReservationKeys :: ReservationField(r, room, k);
    assert "room_number" in ReservationKeys && "room_name" in ReservationKeys;
    assert "check_in_date" in ReservationKeys && "check_out_date" in ReservationKeys;
    d
  }

  /** The value `Reservation.to_dict` puts under `key`. */
  function ReservationField(r: Reservation, room: Option<Room>, key: string): Value {
    match key
    case "id" => Int(r.id)
    case "room_id" => Int(r.roomId)
    case "room_number" => if room.Some? then Str(room.value.roomNumber) else Null
    case "room_name" => if room.Some? then Str(room.value.name) else Null
    case "guest_id" => OptInt(r.guestId)
    case "guest_name" => Str(r.guestName)
    case "guest_email" => Str(r.guestEmail)
    case "guest_phone" => Str(r.guestPhone)
    case "check_in_date" => DateValue(Some(r.checkIn))
    case "check_out_date" => DateValue(Some(r.checkOut))
    case "nights" => Int(r.nights)
    case "total_price" => Money(r.totalPrice)
    case "amount_paid" => Money(r.amountPaid)
    case "payment_status" => Str(r.paymentStatus)
    case "status" => Str(r.status)
    case "created_at" => Time(r.createdAt)
    case "notes" => Str(r.notes)
    case _ => Null
  }
}
