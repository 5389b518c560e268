/** Bookings of the device, and what every run of creations and deletions keeps. */
module Bookings {
  import opened Wrappers

  /** Times are in microseconds since a midnight in UTC. */
  const SECOND := 1_000_000
  const DAY := 86_400 * SECOND

  datatype Booking = Booking(user: string, start: int, end: int)

  /** Settings: how long bookings may be, and how many a user may have in a day. */
  datatype Limits = Limits(minLength: nat, maxLength: nat, maxSlots: nat)

  datatype BookingError = StartInPast | EndBeforeStart | EndInPast | TooLong | TooShort | Conflict | MaxBookings

  function DayStart(time: int): int {
    time - time % DAY
  }

  // --- validation of a request ---

  /** A request is judged at the time it comes. */
  function Validate(limits: Limits, start: int, end: int, now: int): Option<BookingError> {
    if start < now - SECOND then Some(StartInPast)
    else if end < start then Some(EndBeforeStart)
    else if end < now - SECOND then Some(EndInPast)
    else if end - start > limits.maxLength then Some(TooLong)
    else if end - start < limits.minLength then Some(TooShort)
    else None
  }

  // --- rows ---

  predicate Overlaps(booking: Booking, start: int, end: int) {
    booking.start < end && booking.end > start
  }

  /** Which rows of a user are looked for in the day that starts then. */
  datatype Kind =
    | Overlapping    // having a part of the day
    | Starting       // starting in it, and having a part of it
    | Crossing       // starting before it, and having a part of it

  predicate Is(kind: Kind, booking: Booking, user: string, day: int) {
    booking.user == user &&
    match kind
    case Overlapping => Overlaps(booking, day, day + DAY)
    case Starting => day <= booking.start < day + DAY && booking.end > day
    case Crossing => booking.start < day < booking.end
  }

  function Count(rows: seq<Booking>, kind: Kind, user: string, day: int): nat {
    if rows == [] then 0
    else Count(rows[..|rows| - 1], kind, user, day) + if Is(kind, rows[|rows| - 1], user, day) then 1 else 0
  }

  predicate IsFree(rows: seq<Booking>, start: int, end: int) {
    forall booking :: booking in rows ==> !Overlaps(booking, start, end)
  }

  function Create(limits: Limits, rows: seq<Booking>, user: string, start: int, end: int, now: int)
    : (seq<Booking>, Option<BookingError>)
  {
    if Validate(limits, start, end, now).Some? then (rows, Validate(limits, start, end, now))
    else if !IsFree(rows, start, end) then (rows, Some(Conflict))
    else if Count(rows, Overlapping, user, DayStart(start)) >= limits.maxSlots then (rows, Some(MaxBookings))
    else (rows + [Booking(user, start, end)], None)
  }

  function Delete(rows: seq<Booking>, condition: Booking -> bool): seq<Booking> {
    if rows == [] then []
    else if condition(rows[|rows| - 1]) then Delete(rows[..|rows| - 1], condition)
    else Delete(rows[..|rows| - 1], condition) + [rows[|rows| - 1]]
  }

  /** The rows left are those at the given indices: the increasing indices of all the
      rows that do not match. */
  ghost predicate Picks(rows: seq<Booking>, condition: Booking -> bool, left: seq<Booking>, at: seq<nat>) {
    && |at| == |left|
    && (forall k, l :: 0 <= k < l < |at| ==> at[k] < at[l])
    && (forall k :: 0 <= k < |at| ==> at[k] < |rows| && left[k] == rows[at[k]])
    && (forall i :: 0 <= i < |rows| ==> (i in at <==> !condition(rows[i])))
  }

  lemma {:induction false} DeletingPicks(rows: seq<Booking>, condition: Booking -> bool) returns (at: seq<nat>)
    ensures Picks(rows, condition, Delete(rows, condition), at)
  {
    if rows == [] {
      at := [];
    } else {
      var front, last := rows[..|rows| - 1], rows[|rows| - 1];
      at := DeletingPicks(front, condition);
      PickingOneMore(front, last, condition, Delete(front, condition), at);
      assert rows == front + [last];
      if !condition(last) {
        at := at + [|front|];
      }
    }
  }

  lemma PickingOneMore(front: seq<Booking>, last: Booking, condition: Booking -> bool, left: seq<Booking>, at: seq<nat>)
    requires Picks(front, condition, left, at)
    ensures condition(last) ==> Picks(front + [last], condition, left, at)
    ensures !condition(last) ==> Picks(front + [last], condition, left + [last], at + [|front|])
  {
    var rows, at' := front + [last], at + [|front|];
    assert forall i :: i in at ==> i < |front|;
    forall i | 0 <= i < |rows|
      ensures i in at <==> i < |front| && !condition(rows[i])
      ensures i in at' <==> i == |front| || !condition(rows[i])
    {
      assert at'[|at|] == |front|;
    }
  }

  function Earliest(rows: seq<Booking>, now: int): Option<Booking> {
    if rows == [] then None
    else
      var before, last := Earliest(rows[..|rows| - 1], now), rows[|rows| - 1];
      if last.start >= now && (before.None? || last.start < before.value.start) then Some(last) else before
  }

  function FirstActive(rows: seq<Booking>, now: int): Option<Booking> {
    if rows == [] then None
    else if rows[0].start <= now <= rows[0].end then Some(rows[0])
    else FirstActive(rows[1..], now)
  }

  class BookingTable {
    var rows: seq<Booking>

    constructor ()
      ensures rows == []
    {
      rows := [];
    }

    method CreateBooking(limits: Limits, user: string, start: int, end: int, now: int)
      returns (booking: Result<Booking, BookingError>)
      modifies this
      ensures var (rows', error) := Create(limits, old(rows), user, start, end, now);
              rows == rows' && booking == match error case None => Ok(Booking(user, start, end)) case Some(e) => Err(e)
    {
      var invalid := Validate(limits, start, end, now);
      if invalid.Some? {
        return Err(invalid.value);
      }
      if exists booking :: booking in rows && Overlaps(booking, start, end) {
        return Err(Conflict);
      }
      var dayStart := DayStart(start);
      var slots := Count(rows, Overlapping, user, dayStart);
      if slots >= limits.maxSlots {
        return Err(MaxBookings);
      }
      rows := rows + [Booking(user, start, end)];
      booking := Ok(Booking(user, start, end));
    }

    /** Exactly the rows that match go; the others keep their order. */
    method DeleteBookings(condition: Booking -> bool)
      modifies this
      ensures rows == Delete(old(rows), condition)
      ensures exists at :: Picks(old(rows), condition, rows, at)
    {
      ghost var at := DeletingPicks(rows, condition);
      rows := Delete(rows, condition);
    }

    method GetNextBooking(now: int) returns (booking: Option<Booking>)
      ensures booking.None? <==> forall row :: row in rows ==> row.start < now
      ensures booking.Some? ==> booking.value in rows && booking.value.start >= now &&
                                forall row :: row in rows && row.start >= now ==> booking.value.start <= row.start
    {
      EarliestIsNext(rows, now);
      booking := Earliest(rows, now);
    }

    /** Both ends of a booking count. */
    method GetActiveBooking(now: int) returns (booking: Option<Booking>)
      ensures booking.None? <==> forall row :: row in rows ==> !(row.start <= now <= row.end)
      ensures booking.Some? ==> booking.value in rows && booking.value.start <= now <= booking.value.end
    {
      FirstIsActive(rows, now);
      booking := FirstActive(rows, now);
    }
  }

  lemma {:induction false} EarliestIsNext(rows: seq<Booking>, now: int)
    ensures Earliest(rows, now).None? <==> forall row :: row in rows ==> row.start < now
    ensures Earliest(rows, now).Some? ==>
              var next := Earliest(rows, now).value;
              next in rows && next.start >= now &&
              forall row :: row in rows && row.start >= now ==> next.start <= row.start
  {
    if rows != [] {
      EarliestIsNext(rows[..|rows| - 1], now);
      assert rows == rows[..|rows| - 1] + [rows[|rows| - 1]];
    }
  }

  lemma {:induction false} FirstIsActive(rows: seq<Booking>, now: int)
    ensures FirstActive(rows, now).None? <==> forall row :: row in rows ==> !(row.start <= now <= row.end)
    ensures FirstActive(rows, now).Some? ==>
              var active := FirstActive(rows, now).value; active in rows && active.start <= now <= active.end
  {
    if rows != [] {
      FirstIsActive(rows[1..], now);
      assert rows == [rows[0]] + rows[1..];
    }
  }
}
