/** The booking rules shared by `create_reservation` and
    `update_reservation`: which reservations block a room, when two stays
    collide, and what a stay costs. Stays are half-open: a guest holds the
    room from the check-in day up to, but not including, the check-out day. */
module Booking {
  import opened Common
  import opened Calendar
  import opened Models

  /** A reservation that still holds its room: every status except
      `completed` and `cancelled` (so also any status text a client wrote). */
  predicate Live(r: Reservation) {
    r.status != Completed && r.status != Cancelled
  }

  /** The SQL conflict filter for one row: same room, live, and
      `check_in < check_out' AND check_out > check_in'`. */
  predicate Blocks(r: Reservation, roomId: int, checkIn: CivilDate, checkOut: CivilDate) {
    && r.roomId == roomId
    && Live(r)
    && Ordinal(r.checkIn) < Ordinal(checkOut)
    && Ordinal(r.checkOut) > Ordinal(checkIn)
  }

  /** Whether the conflict query finds a row; `except` is the id the update
      handler leaves out (`Reservation.id != reservation_id`). The query is
      not restricted to the caller's hotel. */
  predicate HasConflict(rs: seq<Reservation>, except: Option<int>, roomId: int, checkIn: CivilDate, checkOut: CivilDate) {
    exists k :: 0 <= k < |rs| && (except.None? || rs[k].id != except.value) && Blocks(rs[k], roomId, checkIn, checkOut)
  }

  /** `(check_out - check_in).days`; zero or negative for an inverted stay,
      which the handlers do not reject. */
  function Nights(checkIn: CivilDate, checkOut: CivilDate): int {
    Ordinal(checkOut) - Ordinal(checkIn)
  }

  /** `price_per_night * nights`, in cents. */
  function StayPrice(pricePerNight: int, nights: int): int {
    pricePerNight * nights
  }

  /** The night that starts on day ordinal `n` belongs to the stay. */
  predicate Occupies(checkIn: CivilDate, checkOut: CivilDate, n: int) {
    Ordinal(checkIn) <= n < Ordinal(checkOut)
  }

  /** For stays of at least one night, the conflict test holds exactly when
      the two stays share a night: the interval test is the half-open
      overlap of [check_in, check_out). */
  lemma BlocksIffSharedNight(r: Reservation, checkIn: CivilDate, checkOut: CivilDate)
    requires Ordinal(r.checkIn) < Ordinal(r.checkOut) && Ordinal(checkIn) < Ordinal(checkOut)
    requires Live(r)
    ensures Blocks(r, r.roomId, checkIn, checkOut) <==>
      exists n :: Occupies(r.checkIn, r.checkOut, n) && Occupies(checkIn, checkOut, n)
  {
    if Blocks(r, r.roomId, checkIn, checkOut) {
      var n := if Ordinal(r.checkIn) < Ordinal(checkIn) then Ordinal(checkIn) else Ordinal(r.checkIn);
      assert Occupies(r.checkIn, r.checkOut, n) && Occupies(checkIn, checkOut, n);
    }
  }

  /** Back to back is allowed: a stay that begins on the day another ends
      does not conflict with it, in either order, whatever the lengths of
      the two stays (inverted ones included). */
  lemma BackToBackIsNoConflict(r: Reservation, checkIn: CivilDate, checkOut: CivilDate)
    requires r.checkOut == checkIn || r.checkIn == checkOut
    ensures !Blocks(r, r.roomId, checkIn, checkOut)
  {
  }

  /** Only live reservations block a room. */
  lemma FinishedNeverBlocks(r: Reservation, roomId: int, checkIn: CivilDate, checkOut: CivilDate)
    requires r.status == Completed || r.status == Cancelled
    ensures !Blocks(r, roomId, checkIn, checkOut)
  {
  }

  /** Two reservations of the same room whose stays collide while both are
      live. */
  predicate Clash(a: Reservation, b: Reservation) {
    a.roomId == b.roomId && Live(a) && Live(b)
    && Ordinal(a.checkIn) < Ordinal(b.checkOut) && Ordinal(a.checkOut) > Ordinal(b.checkIn)
  }

  /** No room is double-booked: no two live reservations on one room
      overlap. The handlers do not keep this for the whole table (see
      ReactivationCanDoubleBook); create and relocation preserve it. */
  predicate NoDoubleBooking(rs: seq<Reservation>) {
    forall i, j :: 0 <= i < |rs| && 0 <= j < |rs| && i != j ==> !Clash(rs[i], rs[j])
  }

  lemma ClashSymmetric(a: Reservation, b: Reservation)
    ensures Clash(a, b) <==> Clash(b, a)
  {
  }

  /** Adding a live reservation that the conflict query does not flag keeps
      the table free of double bookings. */
  lemma {:induction false} CreateKeepsNoDoubleBooking(rs: seq<Reservation>, r: Reservation)
    requires NoDoubleBooking(rs)
    requires !HasConflict(rs, None, r.roomId, r.checkIn, r.checkOut)
    ensures NoDoubleBooking(rs + [r])
  {
    var t := rs + [r];
    forall i, j | 0 <= i < |t| && 0 <= j < |t| && i != j
      ensures !Clash(t[i], t[j])
    {
      if j == |rs| {
        assert !Blocks(rs[i], r.roomId, r.checkIn, r.checkOut);
      } else if i == |rs| {
        assert !Blocks(rs[j], r.roomId, r.checkIn, r.checkOut);
      } else {
        assert t[i] == rs[i] && t[j] == rs[j];
      }
    }
  }

  /** Replacing reservation `k` by `r` (same id, new room or dates) keeps
      the table free of double bookings when the conflict query, which
      skips that id, flags nothing. */
  lemma {:induction false} RelocateKeepsNoDoubleBooking(rs: seq<Reservation>, k: nat, r: Reservation)
    requires NoDoubleBooking(rs)
    requires k < |rs| && r.id == rs[k].id
    requires forall i :: 0 <= i < |rs| && i != k ==> rs[i].id != rs[k].id
    requires !HasConflict(rs, Some(r.id), r.roomId, r.checkIn, r.checkOut)
    ensures NoDoubleBooking(rs[k := r])
  {
    var t := rs[k := r];
    forall i, j | 0 <= i < |t| && 0 <= j < |t| && i != j
      ensures !Clash(t[i], t[j])
    {
      if j == k {
        assert rs[i].id != r.id;
        assert !Blocks(rs[i], r.roomId, r.checkIn, r.checkOut);
      } else if i == k {
        assert rs[j].id != r.id;
        assert !Blocks(rs[j], r.roomId, r.checkIn, r.checkOut);
      } else {
        assert t[i] == rs[i] && t[j] == rs[j];
      }
    }
  }

  /** Deleting a reservation keeps the table free of double bookings. */
  lemma RemoveKeepsNoDoubleBooking(rs: seq<Reservation>, k: nat)
    requires NoDoubleBooking(rs) && k < |rs|
    ensures NoDoubleBooking(RemoveAt(rs, k))
  {
    var t := RemoveAt(rs, k);
    forall i, j | 0 <= i < |t| && 0 <= j < |t| && i != j ensures !Clash(t[i], t[j]) {
      assert t[i] == rs[if i < k then i else i + 1];
      assert t[j] == rs[if j < k then j else j + 1];
    }
  }

  /** Replacing a reservation by one that no longer holds its room (checked
      out or cancelled) keeps the table free of double bookings. */
  lemma FinishingKeepsNoDoubleBooking(rs: seq<Reservation>, k: nat, r: Reservation)
    requires NoDoubleBooking(rs) && k < |rs| && !Live(r)
    ensures NoDoubleBooking(rs[k := r])
  {
    var t := rs[k := r];
    forall i, j | 0 <= i < |t| && 0 <= j < |t| && i != j ensures !Clash(t[i], t[j]) {
      if i != k && j != k {
        assert t[i] == rs[i] && t[j] == rs[j];
      }
    }
  }

  /** Setting a status without a conflict check can create a double booking:
      checking in (or setting any live status on) a cancelled reservation
      whose stay collides with a live booking of the same room. */
  lemma ReactivationCanDoubleBook(rs: seq<Reservation>, i: nat, j: nat, status: string)
    requires i < |rs| && j < |rs| && i != j
    requires status != Completed && status != Cancelled
    requires rs[i].roomId == rs[j].roomId && Live(rs[j])
    requires Ordinal(rs[i].checkIn) < Ordinal(rs[j].checkOut) && Ordinal(rs[i].checkOut) > Ordinal(rs[j].checkIn)
    ensures !NoDoubleBooking(rs[i := rs[i].(status := status)])
  {
    var t := rs[i := rs[i].(status := status)];
    assert Clash(t[i], t[j]);
  }
}
