/** The integrity of the stored tables. The schema's constraints, which
    the database enforces: primary keys handed out in increasing order,
    the unique columns and the per-hotel room-number constraint. The
    reference invariants, which the handlers keep themselves (the foreign
    keys are declared but SQLite does not enforce them by default): every
    hotel's owner, every room's hotel and every reservation's room exist,
    and a reservation's room is in its own hotel. Each property is stated
    on sequences, with the small facts the handlers need to keep it when
    they append, replace or remove one row. */
module Tables {
  import opened Common
  import opened Models

  /** Primary keys: positive, strictly increasing in table order, and below
      the next key the sequence will hand out. */
  predicate IdsAscending<T>(s: seq<T>, id: T -> int, next: int) {
    && 1 <= next
    && (forall i, j :: 0 <= i < j < |s| ==> id(s[i]) < id(s[j]))
    && (forall i :: 0 <= i < |s| ==> 1 <= id(s[i]) < next)
  }

  lemma IdsAscendingAppend<T>(s: seq<T>, id: T -> int, next: int, x: T)
    requires IdsAscending(s, id, next) && id(x) == next
    ensures IdsAscending(s + [x], id, next + 1)
  {
    var t := s + [x];
    forall i | 0 <= i < |t| ensures 1 <= id(t[i]) < next + 1 {
      if i < |s| { assert t[i] == s[i]; } else { assert t[i] == x; }
    }
    forall i, j | 0 <= i < j < |t| ensures id(t[i]) < id(t[j]) {
      assert t[i] == s[i];
      if j < |s| { assert t[j] == s[j]; } else { assert t[j] == x; }
    }
  }

  lemma IdsAscendingReplace<T>(s: seq<T>, id: T -> int, next: int, k: nat, x: T)
    requires IdsAscending(s, id, next) && k < |s| && id(x) == id(s[k])
    ensures IdsAscending(s[k := x], id, next)
  {
    var t := s[k := x];
    forall i | 0 <= i < |t| ensures 1 <= id(t[i]) < next {
      if i != k { assert t[i] == s[i]; }
    }
    forall i, j | 0 <= i < j < |t| ensures id(t[i]) < id(t[j]) {
      if i != k { assert t[i] == s[i]; }
      if j != k { assert t[j] == s[j]; }
    }
  }

  lemma IdsAscendingRemove<T>(s: seq<T>, id: T -> int, next: int, k: nat)
    requires IdsAscending(s, id, next) && k < |s|
    ensures IdsAscending(RemoveAt(s, k), id, next)
  {
    var t := RemoveAt(s, k);
    forall i | 0 <= i < |t| ensures 1 <= id(t[i]) < next {
      assert t[i] == s[if i < k then i else i + 1];
    }
    forall i, j | 0 <= i < j < |t| ensures id(t[i]) < id(t[j]) {
      assert t[i] == s[if i < k then i else i + 1];
      assert t[j] == s[if j < k then j else j + 1];
    }
  }

  function UserId(u: User): int { u.id }
  function HotelId(h: Hotel): int { h.id }
  function RoomId(r: Room): int { r.id }
  function ReservationId(r: Reservation): int { r.id }

  predicate HasUser(users: seq<User>, id: int) {
    exists i :: 0 <= i < |users| && users[i].id == id
  }

  predicate HasHotel(hotels: seq<Hotel>, id: int) {
    exists i :: 0 <= i < |hotels| && hotels[i].id == id
  }

  /** The room `id` exists and belongs to hotel `h`:
      `Room.query.filter_by(id=id, hotel_id=h).first()` finds it. */
  predicate HasRoom(rooms: seq<Room>, id: int, h: int) {
    exists i :: 0 <= i < |rooms| && rooms[i].id == id && rooms[i].hotelId == h
  }

  /** The reservation `id` exists and belongs to hotel `h`. */
  predicate HasReservation(rs: seq<Reservation>, id: int, h: int) {
    exists i :: 0 <= i < |rs| && rs[i].id == id && rs[i].hotelId == h
  }

  function RoomAt(id: int, h: int): Room -> bool {
    (r: Room) => r.id == id && r.hotelId == h
  }

  function ReservationAt(id: int, h: int): Reservation -> bool {
    (r: Reservation) => r.id == id && r.hotelId == h
  }

  /** The position of room `id` of hotel `h`. */
  function RoomIndex(rooms: seq<Room>, id: int, h: int): (k: nat)
    requires HasRoom(rooms, id, h)
    ensures k < |rooms| && rooms[k].id == id && rooms[k].hotelId == h
  {
    IndexWhere(rooms, RoomAt(id, h)).value
  }

  /** The position of reservation `id` of hotel `h`. */
  function ReservationIndex(rs: seq<Reservation>, id: int, h: int): (k: nat)
    requires HasReservation(rs, id, h)
    ensures k < |rs| && rs[k].id == id && rs[k].hotelId == h
  {
    IndexWhere(rs, ReservationAt(id, h)).value
  }

  /** `unique=True` on `username`, and on `email` where it is set. */
  predicate AccountsUnique(users: seq<User>) {
    && (forall i, j :: 0 <= i < |users| && 0 <= j < |users| && i != j ==> users[i].username != users[j].username)
    && (forall i, j :: 0 <= i < |users| && 0 <= j < |users| && i != j && users[i].email.Some? ==>
          users[i].email != users[j].email)
  }

  /** `UniqueConstraint('hotel_id', 'room_number')`: a number is used once per
      hotel, and may repeat in another hotel. */
  predicate NumbersUnique(rooms: seq<Room>) {
    forall i, j :: 0 <= i < |rooms| && 0 <= j < |rooms| && i != j && rooms[i].hotelId == rooms[j].hotelId ==>
      rooms[i].roomNumber != rooms[j].roomNumber
  }

  /** The same number in two hotels breaks nothing. */
  lemma NumberRepeatsAcrossHotels(a: Room, b: Room)
    requires a.hotelId != b.hotelId && a.roomNumber == b.roomNumber
    ensures NumbersUnique([a, b])
  {
  }

  /** Some room of hotel `h` already has number `n`. */
  predicate NumberTaken(rooms: seq<Room>, h: int, n: string) {
    exists i :: 0 <= i < |rooms| && rooms[i].hotelId == h && rooms[i].roomNumber == n
  }

  /** Some reservation points at room `id`. */
  predicate Referenced(rs: seq<Reservation>, id: int) {
    exists k :: 0 <= k < |rs| && rs[k].roomId == id
  }

  predicate UserTable(users: seq<User>, next: int) {
    IdsAscending(users, UserId, next) && AccountsUnique(users)
  }

  predicate HotelTable(hotels: seq<Hotel>, users: seq<User>, next: int) {
    && IdsAscending(hotels, HotelId, next)
    && forall i :: 0 <= i < |hotels| ==> HasUser(users, hotels[i].userId)
  }

  predicate RoomTable(rooms: seq<Room>, hotels: seq<Hotel>, next: int) {
    && IdsAscending(rooms, RoomId, next)
    && NumbersUnique(rooms)
    && forall i :: 0 <= i < |rooms| ==> HasHotel(hotels, rooms[i].hotelId)
  }

  /** Every reservation's room exists and belongs to the reservation's own
      hotel. */
  predicate ReservationTable(rs: seq<Reservation>, rooms: seq<Room>, next: int) {
    && IdsAscending(rs, ReservationId, next)
    && forall k :: 0 <= k < |rs| ==> HasRoom(rooms, rs[k].roomId, rs[k].hotelId)
  }

  lemma HasUserAppend(users: seq<User>, u: User, id: int)
    requires HasUser(users, id)
    ensures HasUser(users + [u], id)
  {
    var i :| 0 <= i < |users| && users[i].id == id;
    assert (users + [u])[i] == users[i];
  }

  lemma HasUserReplace(users: seq<User>, k: nat, u: User, id: int)
    requires HasUser(users, id) && k < |users| && u.id == users[k].id
    ensures HasUser(users[k := u], id)
  {
    var i :| 0 <= i < |users| && users[i].id == id;
    assert users[k := u][i].id == id;
  }

  lemma HasHotelAppend(hotels: seq<Hotel>, h: Hotel, id: int)
    requires HasHotel(hotels, id)
    ensures HasHotel(hotels + [h], id)
  {
    var i :| 0 <= i < |hotels| && hotels[i].id == id;
    assert (hotels + [h])[i] == hotels[i];
  }

  lemma HasRoomAppend(rooms: seq<Room>, r: Room, id: int, h: int)
    requires HasRoom(rooms, id, h)
    ensures HasRoom(rooms + [r], id, h)
  {
    var i :| 0 <= i < |rooms| && rooms[i].id == id && rooms[i].hotelId == h;
    assert (rooms + [r])[i] == rooms[i];
  }

  lemma HasRoomReplace(rooms: seq<Room>, k: nat, r: Room, id: int, h: int)
    requires HasRoom(rooms, id, h) && k < |rooms| && r.id == rooms[k].id && r.hotelId == rooms[k].hotelId
    ensures HasRoom(rooms[k := r], id, h)
  {
    var i :| 0 <= i < |rooms| && rooms[i].id == id && rooms[i].hotelId == h;
    assert rooms[k := r][i].id == id && rooms[k := r][i].hotelId == h;
  }

  lemma HasRoomRemove(rooms: seq<Room>, k: nat, id: int, h: int)
    requires HasRoom(rooms, id, h) && k < |rooms| && rooms[k].id != id
    ensures HasRoom(RemoveAt(rooms, k), id, h)
  {
    var i :| 0 <= i < |rooms| && rooms[i].id == id && rooms[i].hotelId == h;
    var t := RemoveAt(rooms, k);
    var j := if i < k then i else i - 1;
    assert t[j] == rooms[i];
  }

  /** Appending a room whose number is free in its hotel keeps numbers
      unique. */
  lemma NumbersUniqueAppend(rooms: seq<Room>, r: Room)
    requires NumbersUnique(rooms) && !NumberTaken(rooms, r.hotelId, r.roomNumber)
    ensures NumbersUnique(rooms + [r])
  {
    var t := rooms + [r];
    forall i, j | 0 <= i < |t| && 0 <= j < |t| && i != j && t[i].hotelId == t[j].hotelId
      ensures t[i].roomNumber != t[j].roomNumber
    {
      if i < |rooms| { assert t[i] == rooms[i]; }
      if j < |rooms| { assert t[j] == rooms[j]; }
    }
  }

  lemma NumbersUniqueReplace(rooms: seq<Room>, k: nat, r: Room)
    requires NumbersUnique(rooms) && k < |rooms|
    requires r.hotelId == rooms[k].hotelId && r.roomNumber == rooms[k].roomNumber
    ensures NumbersUnique(rooms[k := r])
  {
    var t := rooms[k := r];
    forall i, j | 0 <= i < |t| && 0 <= j < |t| && i != j && t[i].hotelId == t[j].hotelId
      ensures t[i].roomNumber != t[j].roomNumber
    {
      assert t[i].hotelId == rooms[i].hotelId && t[i].roomNumber == rooms[i].roomNumber;
      assert t[j].hotelId == rooms[j].hotelId && t[j].roomNumber == rooms[j].roomNumber;
    }
  }

  lemma NumbersUniqueRemove(rooms: seq<Room>, k: nat)
    requires NumbersUnique(rooms) && k < |rooms|
    ensures NumbersUnique(RemoveAt(rooms, k))
  {
    var t := RemoveAt(rooms, k);
    forall i, j | 0 <= i < |t| && 0 <= j < |t| && i != j && t[i].hotelId == t[j].hotelId
      ensures t[i].roomNumber != t[j].roomNumber
    {
      assert t[i] == rooms[if i < k then i else i + 1];
      assert t[j] == rooms[if j < k then j else j + 1];
    }
  }

  /** `Room.id != id`. */
  function RoomIdNot(id: int): Room -> bool {
    (r: Room) => r.id != id
  }

  /** `Reservation.id != id`. */
  function ReservationIdNot(id: int): Reservation -> bool {
    (r: Reservation) => r.id != id
  }

  /** Deleting by key removes exactly the row at the key's position. */
  lemma FilterRoomOut(rooms: seq<Room>, next: int, k: nat)
    requires IdsAscending(rooms, RoomId, next) && k < |rooms|
    ensures Filter(rooms, RoomIdNot(rooms[k].id)) == RemoveAt(rooms, k)
  {
    OnlyOneWithId(rooms, RoomId, next, k);
    forall j | 0 <= j < |rooms| && j != k ensures RoomIdNot(rooms[k].id)(rooms[j]) {
      assert RoomId(rooms[j]) != RoomId(rooms[k]);
    }
    FilterDropsOne(rooms, RoomIdNot(rooms[k].id), k);
  }

  lemma FilterReservationOut(rs: seq<Reservation>, next: int, k: nat)
    requires IdsAscending(rs, ReservationId, next) && k < |rs|
    ensures Filter(rs, ReservationIdNot(rs[k].id)) == RemoveAt(rs, k)
  {
    OnlyOneWithId(rs, ReservationId, next, k);
    forall j | 0 <= j < |rs| && j != k ensures ReservationIdNot(rs[k].id)(rs[j]) {
      assert ReservationId(rs[j]) != ReservationId(rs[k]);
    }
    FilterDropsOne(rs, ReservationIdNot(rs[k].id), k);
  }

  lemma RoomTableRemove(rooms: seq<Room>, hotels: seq<Hotel>, next: int, k: nat)
    requires RoomTable(rooms, hotels, next) && k < |rooms|
    ensures RoomTable(RemoveAt(rooms, k), hotels, next)
  {
    IdsAscendingRemove(rooms, RoomId, next, k);
    NumbersUniqueRemove(rooms, k);
    var kept := RemoveAt(rooms, k);
    forall i | 0 <= i < |kept| ensures HasHotel(hotels, kept[i].hotelId) {
      assert kept[i] == rooms[if i < k then i else i + 1];
    }
  }

  /** Removing a room no reservation points at keeps every reservation
      placed. */
  lemma ReservationTableRoomRemoved(rs: seq<Reservation>, rooms: seq<Room>, next: int, k: nat)
    requires ReservationTable(rs, rooms, next) && k < |rooms| && !Referenced(rs, rooms[k].id)
    ensures ReservationTable(rs, RemoveAt(rooms, k), next)
  {
    forall j | 0 <= j < |rs| ensures HasRoom(RemoveAt(rooms, k), rs[j].roomId, rs[j].hotelId) {
      HasRoomRemove(rooms, k, rs[j].roomId, rs[j].hotelId);
    }
  }

  lemma ReservationTableAppend(rs: seq<Reservation>, rooms: seq<Room>, next: int, r: Reservation)
    requires ReservationTable(rs, rooms, next) && r.id == next && HasRoom(rooms, r.roomId, r.hotelId)
    ensures ReservationTable(rs + [r], rooms, next + 1)
  {
    IdsAscendingAppend(rs, ReservationId, next, r);
    var t := rs + [r];
    forall j | 0 <= j < |t| ensures HasRoom(rooms, t[j].roomId, t[j].hotelId) {
      if j < |rs| { assert t[j] == rs[j]; }
    }
  }

  lemma ReservationTableReplace(rs: seq<Reservation>, rooms: seq<Room>, next: int, k: nat, r: Reservation)
    requires ReservationTable(rs, rooms, next) && k < |rs| && r.id == rs[k].id
    requires HasRoom(rooms, r.roomId, r.hotelId)
    ensures ReservationTable(rs[k := r], rooms, next)
  {
    IdsAscendingReplace(rs, ReservationId, next, k, r);
    var t := rs[k := r];
    forall j | 0 <= j < |t| ensures HasRoom(rooms, t[j].roomId, t[j].hotelId) {
      if j != k { assert t[j] == rs[j]; }
    }
  }

  lemma ReservationTableRemove(rs: seq<Reservation>, rooms: seq<Room>, next: int, k: nat)
    requires ReservationTable(rs, rooms, next) && k < |rs|
    ensures ReservationTable(RemoveAt(rs, k), rooms, next)
  {
    IdsAscendingRemove(rs, ReservationId, next, k);
    var t := RemoveAt(rs, k);
    forall j | 0 <= j < |t| ensures HasRoom(rooms, t[j].roomId, t[j].hotelId) {
      assert t[j] == rs[if j < k then j else j + 1];
    }
  }

  /** No other reservation shares the key of the one at position `k`. */
  lemma ReservationIdsDistinct(rs: seq<Reservation>, next: int, k: nat)
    requires IdsAscending(rs, ReservationId, next) && k < |rs|
    ensures forall i :: 0 <= i < |rs| && i != k ==> rs[i].id != rs[k].id
  {
    OnlyOneWithId(rs, ReservationId, next, k);
    forall i | 0 <= i < |rs| && i != k ensures rs[i].id != rs[k].id {
      assert ReservationId(rs[i]) != ReservationId(rs[k]);
    }
  }

  /** With ascending keys, the row with a given key is the only one. */
  lemma OnlyOneWithId<T>(s: seq<T>, id: T -> int, next: int, k: nat)
    requires IdsAscending(s, id, next) && k < |s|
    ensures forall j :: 0 <= j < |s| && j != k ==> id(s[j]) != id(s[k])
  {
    forall j | 0 <= j < |s| && j != k ensures id(s[j]) != id(s[k]) {
      if j < k { assert id(s[j]) < id(s[k]); } else { assert id(s[k]) < id(s[j]); }
    }
  }

  /** A new account whose username and email (when it has one) are not yet
      on file keeps the unique columns unique. */
  lemma AccountsUniqueAppend(users: seq<User>, u: User)
    requires AccountsUnique(users)
    requires forall i :: 0 <= i < |users| ==> users[i].username != u.username
    requires u.email.Some? ==> forall i :: 0 <= i < |users| ==> users[i].email != u.email
    ensures AccountsUnique(users + [u])
  {
    var t := users + [u];
    forall i, j | 0 <= i < |t| && 0 <= j < |t| && i != j
      ensures t[i].username != t[j].username
      ensures t[i].email.Some? ==> t[i].email != t[j].email
    {
      if i < |users| && j < |users| {
        assert t[i] == users[i] && t[j] == users[j];
      } else if i < |users| {
        assert t[i] == users[i] && t[j] == u;
      } else {
        assert t[i] == u && t[j] == users[j];
      }
    }
  }

  /** Registering user `u` under the next key keeps the user table, and the
      hotels keep their owners. */
  lemma UserTableAppend(users: seq<User>, hotels: seq<Hotel>, next: int, nextHotel: int, u: User)
    requires UserTable(users, next) && HotelTable(hotels, users, nextHotel) && u.id == next
    requires forall i :: 0 <= i < |users| ==> users[i].username != u.username
    requires u.email.Some? ==> forall i :: 0 <= i < |users| ==> users[i].email != u.email
    ensures UserTable(users + [u], next + 1) && HotelTable(hotels, users + [u], nextHotel)
  {
    IdsAscendingAppend(users, UserId, next, u);
    AccountsUniqueAppend(users, u);
    forall i | 0 <= i < |hotels| ensures HasUser(users + [u], hotels[i].userId) {
      HasUserAppend(users, u, hotels[i].userId);
    }
  }

  /** A new password hash changes no key, username or email. */
  lemma UserTablePassword(users: seq<User>, hotels: seq<Hotel>, next: int, nextHotel: int, k: nat, hash: string)
    requires UserTable(users, next) && HotelTable(hotels, users, nextHotel) && k < |users|
    ensures UserTable(users[k := users[k].(passwordHash := hash)], next)
    ensures HotelTable(hotels, users[k := users[k].(passwordHash := hash)], nextHotel)
  {
    var u := users[k].(passwordHash := hash);
    var t := users[k := u];
    IdsAscendingReplace(users, UserId, next, k, u);
    forall i, j | 0 <= i < |t| && 0 <= j < |t| && i != j
      ensures t[i].username != t[j].username
      ensures t[i].email.Some? ==> t[i].email != t[j].email
    {
      assert t[i].username == users[i].username && t[i].email == users[i].email;
      assert t[j].username == users[j].username && t[j].email == users[j].email;
    }
    forall i | 0 <= i < |hotels| ensures HasUser(t, hotels[i].userId) {
      HasUserReplace(users, k, u, hotels[i].userId);
    }
  }

  /** Adding a hotel of an existing user under the next key keeps the hotel
      table, and the rooms keep their hotels. */
  lemma HotelTableAppend(hotels: seq<Hotel>, users: seq<User>, rooms: seq<Room>, next: int, nextRoom: int, h: Hotel)
    requires HotelTable(hotels, users, next) && RoomTable(rooms, hotels, nextRoom)
    requires h.id == next && HasUser(users, h.userId)
    ensures HotelTable(hotels + [h], users, next + 1) && RoomTable(rooms, hotels + [h], nextRoom)
  {
    IdsAscendingAppend(hotels, HotelId, next, h);
    var t := hotels + [h];
    forall i | 0 <= i < |t| ensures HasUser(users, t[i].userId) {
      if i < |hotels| { assert t[i] == hotels[i]; }
    }
    forall i | 0 <= i < |rooms| ensures HasHotel(t, rooms[i].hotelId) {
      HasHotelAppend(hotels, h, rooms[i].hotelId);
    }
  }

  /** The position of user `id`. */
  function UserIndex(users: seq<User>, id: int): (k: nat)
    requires HasUser(users, id)
    ensures k < |users| && users[k].id == id
  {
    match IndexWhere(users, UserAt(id))
    case Some(k) => k
  }

  function UserAt(id: int): User -> bool {
    (u: User) => u.id == id
  }

  function OwnedBy(userId: int): Hotel -> bool {
    (h: Hotel) => h.userId == userId
  }

  /** Every table constraint of the database at once. */
  predicate Consistent(users: seq<User>, hotels: seq<Hotel>, rooms: seq<Room>, rs: seq<Reservation>,
                       nextUser: int, nextHotel: int, nextRoom: int, nextReservation: int) {
    && UserTable(users, nextUser)
    && HotelTable(hotels, users, nextHotel)
    && RoomTable(rooms, hotels, nextRoom)
    && ReservationTable(rs, rooms, nextReservation)
  }

  /** The empty database. */
  lemma ConsistentEmpty()
    ensures Consistent([], [], [], [], 1, 1, 1, 1)
  {
  }

  /** A new account under the next key, with a new username and email. */
  lemma ConsistentAddUser(users: seq<User>, hotels: seq<Hotel>, rooms: seq<Room>, rs: seq<Reservation>,
      nextUser: int, nextHotel: int, nextRoom: int, nextReservation: int, u: User)
    requires Consistent(users, hotels, rooms, rs, nextUser, nextHotel, nextRoom, nextReservation)
    requires u.id == nextUser
    requires forall i :: 0 <= i < |users| ==> users[i].username != u.username
    requires u.email.Some? ==> forall i :: 0 <= i < |users| ==> users[i].email != u.email
    ensures Consistent(users + [u], hotels, rooms, rs, nextUser + 1, nextHotel, nextRoom, nextReservation)
  {
    UserTableAppend(users, hotels, nextUser, nextHotel, u);
  }

  /** A new password hash for account `k`. */
  lemma ConsistentSetPassword(users: seq<User>, hotels: seq<Hotel>, rooms: seq<Room>, rs: seq<Reservation>,
      nextUser: int, nextHotel: int, nextRoom: int, nextReservation: int, k: nat, hash: string)
    requires Consistent(users, hotels, rooms, rs, nextUser, nextHotel, nextRoom, nextReservation)
    requires k < |users|
    ensures Consistent(users[k := users[k].(passwordHash := hash)], hotels, rooms, rs,
                       nextUser, nextHotel, nextRoom, nextReservation)
  {
    UserTablePassword(users, hotels, nextUser, nextHotel, k, hash);
  }

  /** A new hotel of an existing user under the next key. */
  lemma ConsistentAddHotel(users: seq<User>, hotels: seq<Hotel>, rooms: seq<Room>, rs: seq<Reservation>,
      nextUser: int, nextHotel: int, nextRoom: int, nextReservation: int, h: Hotel)
    requires Consistent(users, hotels, rooms, rs, nextUser, nextHotel, nextRoom, nextReservation)
    requires h.id == nextHotel && HasUser(users, h.userId)
    ensures Consistent(users, hotels + [h], rooms, rs, nextUser, nextHotel + 1, nextRoom, nextReservation)
  {
    HotelTableAppend(hotels, users, rooms, nextHotel, nextRoom, h);
  }

  /** A new room of an existing hotel under the next key, with a number
      that hotel does not use yet. */
  lemma ConsistentAddRoom(users: seq<User>, hotels: seq<Hotel>, rooms: seq<Room>, rs: seq<Reservation>,
      nextUser: int, nextHotel: int, nextRoom: int, nextReservation: int, room: Room)
    requires Consistent(users, hotels, rooms, rs, nextUser, nextHotel, nextRoom, nextReservation)
    requires room.id == nextRoom && HasHotel(hotels, room.hotelId)
    requires !NumberTaken(rooms, room.hotelId, room.roomNumber)
    ensures Consistent(users, hotels, rooms + [room], rs, nextUser, nextHotel, nextRoom + 1, nextReservation)
  {
    IdsAscendingAppend(rooms, RoomId, nextRoom, room);
    NumbersUniqueAppend(rooms, room);
    var t := rooms + [room];
    forall i | 0 <= i < |t| ensures HasHotel(hotels, t[i].hotelId) {
      if i < |rooms| { assert t[i] == rooms[i]; }
    }
    forall j | 0 <= j < |rs| ensures HasRoom(t, rs[j].roomId, rs[j].hotelId) {
      HasRoomAppend(rooms, room, rs[j].roomId, rs[j].hotelId);
    }
  }

  /** Room `k` with new details but the same key, hotel and number. */
  lemma ConsistentReplaceRoom(users: seq<User>, hotels: seq<Hotel>, rooms: seq<Room>, rs: seq<Reservation>,
      nextUser: int, nextHotel: int, nextRoom: int, nextReservation: int, k: nat, room: Room)
    requires Consistent(users, hotels, rooms, rs, nextUser, nextHotel, nextRoom, nextReservation)
    requires k < |rooms| && room.id == rooms[k].id && room.hotelId == rooms[k].hotelId
    requires room.roomNumber == rooms[k].roomNumber
    ensures Consistent(users, hotels, rooms[k := room], rs, nextUser, nextHotel, nextRoom, nextReservation)
  {
    IdsAscendingReplace(rooms, RoomId, nextRoom, k, room);
    NumbersUniqueReplace(rooms, k, room);
    var t := rooms[k := room];
    forall i | 0 <= i < |t| ensures HasHotel(hotels, t[i].hotelId) {
      assert t[i].hotelId == rooms[i].hotelId;
    }
    forall j | 0 <= j < |rs| ensures HasRoom(t, rs[j].roomId, rs[j].hotelId) {
      HasRoomReplace(rooms, k, room, rs[j].roomId, rs[j].hotelId);
    }
  }

  /** Removing room `k`, which no reservation points at. */
  lemma ConsistentRemoveRoom(users: seq<User>, hotels: seq<Hotel>, rooms: seq<Room>, rs: seq<Reservation>,
      nextUser: int, nextHotel: int, nextRoom: int, nextReservation: int, k: nat)
    requires Consistent(users, hotels, rooms, rs, nextUser, nextHotel, nextRoom, nextReservation)
    requires k < |rooms| && !Referenced(rs, rooms[k].id)
    ensures Consistent(users, hotels, RemoveAt(rooms, k), rs, nextUser, nextHotel, nextRoom, nextReservation)
  {
    RoomTableRemove(rooms, hotels, nextRoom, k);
    ReservationTableRoomRemoved(rs, rooms, nextReservation, k);
  }

  /** A new reservation under the next key, on a room of its own hotel. */
  lemma ConsistentAddReservation(users: seq<User>, hotels: seq<Hotel>, rooms: seq<Room>, rs: seq<Reservation>,
      nextUser: int, nextHotel: int, nextRoom: int, nextReservation: int, r: Reservation)
    requires Consistent(users, hotels, rooms, rs, nextUser, nextHotel, nextRoom, nextReservation)
    requires r.id == nextReservation && HasRoom(rooms, r.roomId, r.hotelId)
    ensures Consistent(users, hotels, rooms, rs + [r], nextUser, nextHotel, nextRoom, nextReservation + 1)
  {
    ReservationTableAppend(rs, rooms, nextReservation, r);
  }

  /** Reservation `k` with new details but the same key, on a room of its
      own hotel. */
  lemma ConsistentReplaceReservation(users: seq<User>, hotels: seq<Hotel>, rooms: seq<Room>, rs: seq<Reservation>,
      nextUser: int, nextHotel: int, nextRoom: int, nextReservation: int, k: nat, r: Reservation)
    requires Consistent(users, hotels, rooms, rs, nextUser, nextHotel, nextRoom, nextReservation)
    requires k < |rs| && r.id == rs[k].id && HasRoom(rooms, r.roomId, r.hotelId)
    ensures Consistent(users, hotels, rooms, rs[k := r], nextUser, nextHotel, nextRoom, nextReservation)
  {
    ReservationTableReplace(rs, rooms, nextReservation, k, r);
  }

  /** Removing reservation `k`. */
  lemma ConsistentRemoveReservation(users: seq<User>, hotels: seq<Hotel>, rooms: seq<Room>, rs: seq<Reservation>,
      nextUser: int, nextHotel: int, nextRoom: int, nextReservation: int, k: nat)
    requires Consistent(users, hotels, rooms, rs, nextUser, nextHotel, nextRoom, nextReservation)
    requires k < |rs|
    ensures Consistent(users, hotels, rooms, RemoveAt(rs, k), nextUser, nextHotel, nextRoom, nextReservation)
  {
    ReservationTableRemove(rs, rooms, nextReservation, k);
  }
}
