/** The read-only queries of the backend over the stored tables: the
    reservations the calendar endpoint returns for a month, whether a room
    is occupied, and the dashboard counts. Every query is scoped to the
    caller's hotel except the occupancy test, which looks up a room id. */
module Queries {
  import opened Common
  import opened Calendar
  import opened Models
  import opened Booking

  /** `Room.query.filter_by(hotel_id=h)`. */
  function InHotel(h: int): Room -> bool {
    (room: Room) => room.hotelId == h
  }

  /** The calendar filter: the hotel's reservations with
      `check_in_date < end` and `check_out_date > start`, whatever their
      status. */
  function OverlapsRange(h: int, start: CivilDate, end: CivilDate): Reservation -> bool {
    (r: Reservation) => r.hotelId == h && Ordinal(r.checkIn) < Ordinal(end) && Ordinal(r.checkOut) > Ordinal(start)
  }

  /** `get_calendar_data` for a year and month already read from the query
      string. */
  function CalendarData(rs: seq<Reservation>, h: int, year: int, month: int): (r: Outcome<seq<Reservation>>)
    ensures r.Ok? <==> MonthBounds(year, month).Ok?
    ensures r.Fail? ==> r == Fail(500, ServerError)
    ensures r.Ok? ==> forall j :: 0 <= j < |r.value| ==> r.value[j] in rs && r.value[j].hotelId == h
    ensures r.Ok? ==> forall k :: 0 <= k < |rs| ==>
      (rs[k] in r.value <==>
        && rs[k].hotelId == h
        && Ordinal(rs[k].checkIn) < Ordinal(MonthBounds(year, month).value.1)
        && Ordinal(rs[k].checkOut) > Ordinal(MonthBounds(year, month).value.0))
  {
    match MonthBounds(year, month)
    case Fail(status, message) => Fail(status, message)
    case Ok((start, end)) => Ok(Filter(rs, OverlapsRange(h, start, end)))
  }

  /** A stay of at least one night is on the calendar of a month exactly
      when one of its nights falls in that month: the range query is the
      month-grid membership test. */
  lemma CalendarShowsStaysWithNightInMonth(rs: seq<Reservation>, h: int, year: int, month: int, k: nat)
    requires MonthBounds(year, month).Ok?
    requires k < |rs| && rs[k].hotelId == h && Ordinal(rs[k].checkIn) < Ordinal(rs[k].checkOut)
    ensures rs[k] in CalendarData(rs, h, year, month).value <==>
      exists d: CivilDate :: d.year == year && d.month == month && Occupies(rs[k].checkIn, rs[k].checkOut, Ordinal(d))
  {
    var (start, end) := MonthBounds(year, month).value;
    var r := rs[k];
    if r in CalendarData(rs, h, year, month).value {
      var n := if Ordinal(r.checkIn) < Ordinal(start) then Ordinal(start) else Ordinal(r.checkIn);
      var d := DayOfMonthAt(year, month, n);
      assert Occupies(r.checkIn, r.checkOut, Ordinal(d));
    } else {
      forall d: CivilDate | d.year == year && d.month == month
        ensures !Occupies(r.checkIn, r.checkOut, Ordinal(d))
      {
        MonthRangeIsMonth(year, month, d);
      }
    }
  }

  /** `Reservation.query.filter_by(room_id=id, status='active').first() is
      not None`. */
  predicate IsOccupied(rs: seq<Reservation>, roomId: int) {
    exists k :: 0 <= k < |rs| && rs[k].roomId == roomId && rs[k].status == Active
  }

  function ActiveOnRoom(roomId: int): Reservation -> bool {
    (r: Reservation) => r.roomId == roomId && r.status == Active
  }

  /** The occupancy flag `get_rooms` adds to a room's dictionary. */
  function OccupiedFlag(rs: seq<Reservation>, roomId: int): (b: bool)
    ensures b <==> IsOccupied(rs, roomId)
  {
    match IndexWhere(rs, ActiveOnRoom(roomId))
    case None => false
    case Some(k) => true
  }

  /** The integer fields of the `dashboard_stats` answer. */
  datatype Stats = Stats(
    totalRooms: int,
    occupiedRooms: int,
    availableRooms: int,
    checkinsToday: int,
    checkoutsToday: int,
    monthlyRevenue: int)

  function ActiveIn(h: int): Reservation -> bool {
    (r: Reservation) => r.hotelId == h && r.status == Active
  }

  function ChecksInOn(h: int, today: CivilDate): Reservation -> bool {
    (r: Reservation) => r.hotelId == h && r.checkIn == today
  }

  function ActiveChecksOutOn(h: int, today: CivilDate): Reservation -> bool {
    (r: Reservation) => r.hotelId == h && r.status == Active && r.checkOut == today
  }

  /** `check_in_date >= first_of_month`: no upper bound, so later months
      count too. */
  function ChecksInFrom(h: int, first: CivilDate): Reservation -> bool {
    (r: Reservation) => r.hotelId == h && Ordinal(r.checkIn) >= Ordinal(first)
  }

  /** `coalesce(sum(total_price), 0)`. */
  function TotalPrice(rs: seq<Reservation>): int {
    if rs == [] then 0 else TotalPrice(rs[..|rs| - 1]) + rs[|rs| - 1].totalPrice
  }

  /** `today.replace(day=1)`. */
  function FirstOfMonth(today: CivilDate): (first: CivilDate)
    ensures first.year == today.year && first.month == today.month && first.day == 1
    ensures Ordinal(first) <= Ordinal(today)
  {
    Date(today.year, today.month, 1)
  }

  /** `dashboard_stats` for the caller's hotel `h` on day `today`. Occupied
      rooms are counted as active reservations, not as distinct rooms. */
  function DashboardStats(rooms: seq<Room>, rs: seq<Reservation>, h: int, today: CivilDate): (s: Stats)
    ensures s.availableRooms == s.totalRooms - s.occupiedRooms
    ensures 0 <= s.checkoutsToday <= s.occupiedRooms <= |rs|
    ensures 0 <= s.checkinsToday <= |rs| && 0 <= s.totalRooms <= |rooms|
  {
    FilterMonotone(rs, ActiveChecksOutOn(h, today), ActiveIn(h));
    var total := |Filter(rooms, InHotel(h))|;
    var occupied := |Filter(rs, ActiveIn(h))|;
    Stats(
      total,
      occupied,
      total - occupied,
      |Filter(rs, ChecksInOn(h, today))|,
      |Filter(rs, ActiveChecksOutOn(h, today))|,
      TotalPrice(Filter(rs, ChecksInFrom(h, FirstOfMonth(today)))))
  }

  /** Another hotel's reservation changes none of the caller's counts. */
  lemma DashboardIgnoresOtherHotels(rooms: seq<Room>, rs: seq<Reservation>, h: int, today: CivilDate, r: Reservation)
    requires r.hotelId != h
    ensures DashboardStats(rooms, rs + [r], h, today) == DashboardStats(rooms, rs, h, today)
  {
    var t := rs + [r];
    FilterAppend(rs, r, ActiveIn(h));
    assert Filter(t, ActiveIn(h)) == Filter(rs, ActiveIn(h));
    FilterAppend(rs, r, ChecksInOn(h, today));
    assert Filter(t, ChecksInOn(h, today)) == Filter(rs, ChecksInOn(h, today));
    FilterAppend(rs, r, ActiveChecksOutOn(h, today));
    assert Filter(t, ActiveChecksOutOn(h, today)) == Filter(rs, ActiveChecksOutOn(h, today));
    var first := FirstOfMonth(today);
    FilterAppend(rs, r, ChecksInFrom(h, first));
    assert Filter(t, ChecksInFrom(h, first)) == Filter(rs, ChecksInFrom(h, first));
  }

  /** Another hotel's room changes none of the caller's counts. */
  lemma DashboardIgnoresOtherRooms(rooms: seq<Room>, rs: seq<Reservation>, h: int, today: CivilDate, room: Room)
    requires room.hotelId != h
    ensures DashboardStats(rooms + [room], rs, h, today) == DashboardStats(rooms, rs, h, today)
  {
    FilterAppend(rooms, room, InHotel(h));
  }

  /** An empty database has every count at zero. */
  lemma DashboardOfEmpty(h: int, today: CivilDate)
    ensures DashboardStats([], [], h, today) == Stats(0, 0, 0, 0, 0, 0)
  {
  }

  /** `total_rooms` counts the hotel's rooms: a new room adds one exactly
      when it belongs to the hotel. */
  lemma TotalRoomsCountsOwnRooms(rooms: seq<Room>, rs: seq<Reservation>, h: int, today: CivilDate, room: Room)
    ensures DashboardStats(rooms + [room], rs, h, today).totalRooms ==
      DashboardStats(rooms, rs, h, today).totalRooms + (if room.hotelId == h then 1 else 0)
  {
    FilterAppend(rooms, room, InHotel(h));
  }

  /** `occupied_rooms` counts the hotel's active reservations: a new
      reservation adds one exactly when it is the hotel's and active. */
  lemma OccupiedCountsActiveReservations(rooms: seq<Room>, rs: seq<Reservation>, h: int, today: CivilDate, r: Reservation)
    ensures DashboardStats(rooms, rs + [r], h, today).occupiedRooms ==
      DashboardStats(rooms, rs, h, today).occupiedRooms + (if r.hotelId == h && r.status == Active then 1 else 0)
  {
    FilterAppend(rs, r, ActiveIn(h));
  }

  /** `checkins_today` counts the hotel's reservations arriving today,
      whatever their status. */
  lemma CheckinsCountArrivalsToday(rooms: seq<Room>, rs: seq<Reservation>, h: int, today: CivilDate, r: Reservation)
    ensures DashboardStats(rooms, rs + [r], h, today).checkinsToday ==
      DashboardStats(rooms, rs, h, today).checkinsToday + (if r.hotelId == h && r.checkIn == today then 1 else 0)
  {
    FilterAppend(rs, r, ChecksInOn(h, today));
  }

  /** `checkouts_today` counts the hotel's active reservations leaving
      today. */
  lemma CheckoutsCountActiveDeparturesToday(rooms: seq<Room>, rs: seq<Reservation>, h: int, today: CivilDate,
                                            r: Reservation)
    ensures DashboardStats(rooms, rs + [r], h, today).checkoutsToday ==
      DashboardStats(rooms, rs, h, today).checkoutsToday
      + (if r.hotelId == h && r.status == Active && r.checkOut == today then 1 else 0)
  {
    FilterAppend(rs, r, ActiveChecksOutOn(h, today));
  }

  /** Every reservation of the hotel that checks in on or after the first of
      the current month adds its price to the monthly revenue, however many
      months ahead it lies. */
  lemma RevenueCountsLaterCheckIns(rooms: seq<Room>, rs: seq<Reservation>, h: int, today: CivilDate, r: Reservation)
    requires r.hotelId == h && !Before(r.checkIn, FirstOfMonth(today))
    ensures DashboardStats(rooms, rs + [r], h, today).monthlyRevenue ==
      DashboardStats(rooms, rs, h, today).monthlyRevenue + r.totalPrice
  {
    var first := FirstOfMonth(today);
    OrdinalOrder(r.checkIn, first);
    FilterAppend(rs, r, ChecksInFrom(h, first));
    var kept := Filter(rs, ChecksInFrom(h, first));
    assert (kept + [r])[..|kept + [r]| - 1] == kept;
  }

  /** Available rooms can be negative: two active reservations of one room on
      different dates (check-in does not look at dates) in a one-room hotel. */
  lemma AvailableCanBeNegative(room: Room, a: Reservation, b: Reservation, today: CivilDate)
    requires a.hotelId == room.hotelId && b.hotelId == room.hotelId
    requires a.status == Active && b.status == Active
    ensures DashboardStats([room], [a, b], room.hotelId, today).availableRooms == -1
  {
    var h := room.hotelId;
    assert Filter([room], InHotel(h)) == [room] + Filter([room][1..], InHotel(h));
    assert [a, b][1..] == [b] && [b][1..] == [];
    assert Filter([a, b], ActiveIn(h)) == [a] + Filter([b], ActiveIn(h));
    assert Filter([b], ActiveIn(h)) == [b] + Filter([], ActiveIn(h));
  }
}
