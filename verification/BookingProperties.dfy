/** What every run of creations and deletions of bookings keeps. */
module BookingProperties {
  import opened Wrappers
  import opened Bookings

  datatype Step =
    | Created(user: string, start: int, end: int, now: int)
    | Deleted(condition: Booking -> bool)

  function After(limits: Limits, rows: seq<Booking>, step: Step): seq<Booking> {
    match step
    case Created(user, start, end, now) => Create(limits, rows, user, start, end, now).0
    case Deleted(condition) => Delete(rows, condition)
  }

  function Reach(limits: Limits, steps: seq<Step>): seq<Booking> {
    if steps == [] then [] else After(limits, Reach(limits, steps[..|steps| - 1]), steps[|steps| - 1])
  }

  ghost predicate Disjoint(rows: seq<Booking>) {
    forall i, j :: 0 <= i < j < |rows| ==> !Overlaps(rows[i], rows[j].start, rows[j].end)
  }

  ghost predicate IsDay(day: int) {
    day % 86_400_000_000 == 0
  }

  ghost predicate WithinQuota(limits: Limits, rows: seq<Booking>) {
    forall user, day :: IsDay(day) ==> Count(rows, Starting, user, day) <= limits.maxSlots
  }

  // --- counting ---

  lemma CountSnoc(rows: seq<Booking>, row: Booking, kind: Kind, user: string, day: int)
    ensures Count(rows + [row], kind, user, day) ==
            Count(rows, kind, user, day) + if Is(kind, row, user, day) then 1 else 0
  {
    assert (rows + [row])[..|rows|] == rows;
  }

  lemma {:induction false} CountSplits(rows: seq<Booking>, user: string, day: int)
    ensures Count(rows, Overlapping, user, day) == Count(rows, Starting, user, day) + Count(rows, Crossing, user, day)
  {
    if rows != [] {
      CountSplits(rows[..|rows| - 1], user, day);
    }
  }

  /** Two bookings that go over the same midnight overlap. */
  lemma {:induction false} AtMostOneCrosses(rows: seq<Booking>, user: string, day: int)
    requires Disjoint(rows)
    ensures Count(rows, Crossing, user, day) <= 1
    ensures Count(rows, Crossing, user, day) == 1 ==> exists i :: 0 <= i < |rows| && rows[i].start < day < rows[i].end
  {
    if rows != [] {
      var front, last := rows[..|rows| - 1], rows[|rows| - 1];
      AtMostOneCrosses(front, user, day);
      if Count(front, Crossing, user, day) == 1 {
        var i :| 0 <= i < |front| && front[i].start < day < front[i].end;
        assert rows[i] == front[i];
        assert !Overlaps(rows[i], last.start, last.end);
      } else if Is(Crossing, last, user, day) {
        assert rows[|rows| - 1].start < day < rows[|rows| - 1].end;
      }
    }
  }

  // --- which requests are accepted ---

  /** The bookings of the user that have a part of the day, by their places. */
  ghost function PlacesInDay(rows: seq<Booking>, user: string, day: int): set<nat> {
    set i: nat | i < |rows| && rows[i].user == user && rows[i].start < day + 86_400_000_000 && rows[i].end > day
  }

  lemma {:induction false} CountIsNumber(rows: seq<Booking>, user: string, day: int)
    ensures Count(rows, Overlapping, user, day) == |PlacesInDay(rows, user, day)|
  {
    if rows == [] {
      assert PlacesInDay(rows, user, day) == {};
    } else {
      var front, last := rows[..|rows| - 1], |rows| - 1;
      CountIsNumber(front, user, day);
      PlacesWithLast(rows, user, day);
      hide PlacesInDay;
    }
  }

  lemma PlacesWithLast(rows: seq<Booking>, user: string, day: int)
    requires rows != []
    ensures var front, last := rows[..|rows| - 1], |rows| - 1;
            && last !in PlacesInDay(front, user, day)
            && PlacesInDay(rows, user, day) ==
               PlacesInDay(front, user, day) + if Is(Overlapping, rows[last], user, day) then {last} else {}
  {
    var front, last := rows[..|rows| - 1], |rows| - 1;
    assert forall i :: 0 <= i < last ==> front[i] == rows[i];
  }

  /** A request is accepted exactly if it starts in the present, give or take a second,
      or later; does not end before it starts; lasts as long as bookings may; overlaps
      no booking; and its user has room left in the UTC day in which it starts.  Then
      it is one row more, else nothing changes and the first of these that fails is
      the error. */
  lemma AcceptedExactly(limits: Limits, rows: seq<Booking>, user: string, start: int, end: int, now: int)
    ensures var (rows', error) := Create(limits, rows, user, start, end, now);
            var conflict := exists row :: row in rows && row.start < end && row.end > start;
            var full := |PlacesInDay(rows, user, start - start % 86_400_000_000)| >= limits.maxSlots;
            && (error.None? <==>
                  && now - 1_000_000 <= start <= end && limits.minLength <= end - start <= limits.maxLength
                  && !conflict && !full)
            && rows' == (if error.None? then rows + [Booking(user, start, end)] else rows)
            && (error.Some? ==>
                  error.value ==
                  if start < now - 1_000_000 then StartInPast
                  else if end < start then EndBeforeStart
                  else if end - start > limits.maxLength then TooLong
                  else if end - start < limits.minLength then TooShort
                  else if conflict then Conflict
                  else MaxBookings)
  {
    CountIsNumber(rows, user, start - start % 86_400_000_000);
  }

  // --- deletion ---

  lemma {:induction false} DeletingCounts(rows: seq<Booking>,
                                          condition: Booking -> bool, kind: Kind, user: string, day: int)
    ensures Count(Delete(rows, condition), kind, user, day) <= Count(rows, kind, user, day)
  {
    if rows != [] {
      var front, last := rows[..|rows| - 1], rows[|rows| - 1];
      DeletingCounts(front, condition, kind, user, day);
      CountSnoc(Delete(front, condition), last, kind, user, day);
    }
  }

  lemma {:induction false} DeletingDisjoint(rows: seq<Booking>, condition: Booking -> bool)
    requires Disjoint(rows)
    ensures Disjoint(Delete(rows, condition))
    ensures forall row :: row in Delete(rows, condition) ==> row in rows && !condition(row)
  {
    if rows != [] {
      var front, last := rows[..|rows| - 1], rows[|rows| - 1];
      assert rows == front + [last];
      DeletingDisjoint(front, condition);
      var kept := Delete(front, condition);
      forall i | 0 <= i < |kept|
        ensures !Overlaps(kept[i], last.start, last.end)
      {
        assert kept[i] in front;
        var j :| 0 <= j < |front| && front[j] == kept[i];
        assert !Overlaps(rows[j], rows[|front|].start, rows[|front|].end);
      }
    }
  }

  // --- runs ---

  /** A time is in one day only. */
  lemma OneDay(time: int, day: int)
    requires IsDay(day) && day <= time < day + DAY
    ensures day == DayStart(time)
  {
    var a, b := day / DAY, time / DAY;
    assert day == a * DAY;
    assert time == b * DAY + time % DAY;
  }

  lemma CreatingKeeps(limits: Limits, rows: seq<Booking>, user: string, start: int, end: int, now: int)
    requires Disjoint(rows) && WithinQuota(limits, rows)
    ensures var rows' := Create(limits, rows, user, start, end, now).0; Disjoint(rows') && WithinQuota(limits, rows')
  {
    var (rows', error) := Create(limits, rows, user, start, end, now);
    if error.None? {
      var row := Booking(user, start, end);
      forall other, day | IsDay(day)
        ensures Count(rows', Starting, other, day) <= limits.maxSlots
      {
        CountSnoc(rows, row, Starting, other, day);
        if Is(Starting, row, other, day) {
          OneDay(start, day);
          CountSplits(rows, user, day);
        }
      }
    }
  }

  /** Over every run no two bookings overlap, and of the bookings that start in a day
      and last into it a user has no more than the quota. */
  lemma {:induction false} EveryRun(limits: Limits, steps: seq<Step>)
    ensures Disjoint(Reach(limits, steps)) && WithinQuota(limits, Reach(limits, steps))
  {
    hide Disjoint, WithinQuota;
    if steps == [] {
      NoRows(limits);
    } else {
      var rows := Reach(limits, steps[..|steps| - 1]);
      EveryRun(limits, steps[..|steps| - 1]);
      match steps[|steps| - 1]
      case Created(user, start, end, now) =>
        CreatingKeeps(limits, rows, user, start, end, now);
      case Deleted(condition) =>
        DeletingDisjoint(rows, condition);
        DeletingQuota(limits, rows, condition);
    }
  }

  lemma DeletingQuota(limits: Limits, rows: seq<Booking>, condition: Booking -> bool)
    requires WithinQuota(limits, rows)
    ensures WithinQuota(limits, Delete(rows, condition))
  {
    forall user, day | IsDay(day)
      ensures Count(Delete(rows, condition), Starting, user, day) <= limits.maxSlots
    {
      DeletingCounts(rows, condition, Starting, user, day);
    }
  }

  lemma NoRows(limits: Limits)
    ensures Disjoint([]) && WithinQuota(limits, [])
  {
  }

  /** A day may have one more booking of the user, the one that goes over the
      midnight before it. */
  lemma OneMoreThanTheQuota(limits: Limits, steps: seq<Step>, user: string, day: int)
    requires IsDay(day)
    ensures Count(Reach(limits, steps), Overlapping, user, day) <= limits.maxSlots + 1
  {
    EveryRun(limits, steps);
    CountSplits(Reach(limits, steps), user, day);
    AtMostOneCrosses(Reach(limits, steps), user, day);
  }

  ghost predicate DaysWithinQuota(limits: Limits, rows: seq<Booking>) {
    forall user, day :: IsDay(day) ==> Count(rows, Overlapping, user, day) <= limits.maxSlots
  }

  /** When a new booking keeps all days within the quota: exactly if it goes over no
      midnight into a day that is full. */
  lemma DaysKeepQuotaExactly(limits: Limits, rows: seq<Booking>, user: string, start: int, end: int, now: int)
    requires DaysWithinQuota(limits, rows) && Create(limits, rows, user, start, end, now).1.None?
    ensures DaysWithinQuota(limits, Create(limits, rows, user, start, end, now).0) <==>
            forall day :: IsDay(day) && start < day < end ==> Count(rows, Overlapping, user, day) < limits.maxSlots
  {
    hide Count;
    var row := Booking(user, start, end);
    var rows' := rows + [row];
    if DaysWithinQuota(limits, rows') {
      forall day | IsDay(day) && start < day < end
        ensures Count(rows, Overlapping, user, day) < limits.maxSlots
      {
        CountSnoc(rows, row, Overlapping, user, day);
        assert Count(rows', Overlapping, user, day) <= limits.maxSlots;
      }
    }
    if forall day :: IsDay(day) && start < day < end ==> Count(rows, Overlapping, user, day) < limits.maxSlots {
      forall other, day | IsDay(day)
        ensures Count(rows', Overlapping, other, day) <= limits.maxSlots
      {
        CountSnoc(rows, row, Overlapping, other, day);
        if Is(Overlapping, row, other, day) && day <= start {
          OneDay(start, day);
        }
      }
    }
  }

  // --- one more than the quota ---

  /** n bookings of a length, one after the other. */
  function InARow(user: string, first: int, length: nat, n: nat, now: int): seq<Step> {
    if n == 0 then []
    else InARow(user, first, length, n - 1, now) +
         [Created(user, first + length * (n - 1), first + length * n, now)]
  }

  lemma ReachOneMore(limits: Limits, steps: seq<Step>, step: Step)
    ensures Reach(limits, steps + [step]) == After(limits, Reach(limits, steps), step)
  {
    assert (steps + [step])[..|steps|] == steps;
  }

  /** Up to the quota they are all accepted, after bookings that have ended. */
  lemma {:induction false} AcceptedInARow(limits: Limits, before: seq<Step>, user: string, first: int, length: nat,
                                          n: nat, now: int, day: int)
    requires IsDay(day) && day <= first && now <= first && 0 < length && limits.minLength <= length <= limits.maxLength
    requires first + length * n <= day + DAY
    requires forall row :: row in Reach(limits, before) ==> row.end <= first
    requires Count(Reach(limits, before), Overlapping, user, day) + n <= limits.maxSlots
    ensures var rows := Reach(limits, before + InARow(user, first, length, n, now));
            && Count(rows, Overlapping, user, day) == Count(Reach(limits, before), Overlapping, user, day) + n
            && forall row :: row in rows ==>
                 row.end <= first + length * n && (row in Reach(limits, before) || first <= row.start)
  {
    hide Count, Reach;
    if n == 0 {
      assert before + InARow(user, first, length, 0, now) == before;
    } else {
      var start, end := first + length * (n - 1), first + length * n;
      assert end == start + length;
      AcceptedInARow(limits, before, user, first, length, n - 1, now, day);
      var steps := before + InARow(user, first, length, n - 1, now);
      ReachOneMore(limits, steps, Created(user, start, end, now));
      assert before + InARow(user, first, length, n, now) == steps + [Created(user, start, end, now)];
      var rows := Reach(limits, steps);
      Multiple(length, n - 1);
      OneDay(start, day);
      AcceptedAfter(limits, rows, user, start, end, now, day);
    }
  }

  lemma Multiple(length: nat, n: nat)
    ensures length * n >= 0
  {
  }

  lemma AcceptedAfter(limits: Limits, rows: seq<Booking>, user: string, start: int, end: int, now: int, day: int)
    requires day == DayStart(start) && now <= start < end && limits.minLength <= end - start <= limits.maxLength
    requires forall row :: row in rows ==> row.end <= start
    requires Count(rows, Overlapping, user, day) < limits.maxSlots
    ensures Create(limits, rows, user, start, end, now) == (rows + [Booking(user, start, end)], None)
    ensures Count(rows + [Booking(user, start, end)], Overlapping, user, day) == Count(rows, Overlapping, user, day) + 1
  {
    hide Count;
    CountSnoc(rows, Booking(user, start, end), Overlapping, user, day);
  }

  lemma {:induction false} NoneInDay(rows: seq<Booking>, user: string, day: int)
    requires forall row :: row in rows ==> !Is(Overlapping, row, user, day)
    ensures Count(rows, Overlapping, user, day) == 0
  {
    if rows != [] {
      NoneInDay(rows[..|rows| - 1], user, day);
      assert rows[|rows| - 1] in rows;
    }
  }

  /** And so it can be, whatever the quota, if so many bookings fit in a day: first
      the bookings in the day, then one that starts just before it. */
  lemma OneMoreCanBe(limits: Limits, user: string, day: int, length: nat, now: int)
    requires IsDay(day) && now < day && 1 < length && limits.minLength <= length <= limits.maxLength
    requires limits.maxSlots >= 1 && length * limits.maxSlots <= DAY
    ensures var early, late := Created(user, day - 1, day - 1 + length, now),
            InARow(user, day - 1 + length, length, limits.maxSlots, now);
            Count(Reach(limits, late + [early]), Overlapping, user, day) == limits.maxSlots + 1
  {
    hide Count, Reach, Create;
    var first, n := day - 1 + length, limits.maxSlots;
    var late := InARow(user, first, length, n, now);
    InTheDay(limits, user, day, length, n, now);
    var rows := Reach(limits, late);
    var row := Booking(user, day - 1, first);
    ReachOneMore(limits, late, Created(user, day - 1, first, now));
    JustBefore(limits, rows, user, day, first, now);
    CountSnoc(rows, row, Overlapping, user, day);
  }

  /** Before rows that start later there is room, and the day before is empty. */
  lemma JustBefore(limits: Limits, rows: seq<Booking>, user: string, day: int, end: int, now: int)
    requires IsDay(day) && now < day < end && limits.minLength <= end - (day - 1) <= limits.maxLength &&
             limits.maxSlots >= 1
    requires forall row :: row in rows ==> end <= row.start
    ensures Create(limits, rows, user, day - 1, end, now).0 == rows + [Booking(user, day - 1, end)]
  {
    hide Count;
    OneDay(day - 1, day - DAY);
    NoneInDay(rows, user, day - DAY);
  }

  /** Back-to-back bookings whose last one may end in the next day. */
  lemma InTheDay(limits: Limits, user: string, day: int, length: nat, n: nat, now: int)
    requires IsDay(day) && now < day && 1 < length && limits.minLength <= length <= limits.maxLength
    requires 1 <= n <= limits.maxSlots && length * n <= DAY
    ensures var rows := Reach(limits, InARow(user, day - 1 + length, length, n, now));
            Count(rows, Overlapping, user, day) == n && forall row :: row in rows ==> day - 1 + length <= row.start
  {
    hide Count, Reach;
    var first := day - 1 + length;
    var steps := InARow(user, first, length, n - 1, now);
    assert length * n == length * (n - 1) + length;
    NothingReached(limits, user, day);
    AcceptedInARow(limits, [], user, first, length, n - 1, now, day);
    assert [] + steps == steps;
    var start, end := first + length * (n - 1), first + length * n;
    Multiple(length, n - 1);
    OneDay(start, day);
    ReachOneMore(limits, steps, Created(user, start, end, now));
    AcceptedAfter(limits, Reach(limits, steps), user, start, end, now, day);
  }

  lemma NothingReached(limits: Limits, user: string, day: int)
    ensures Reach(limits, []) == [] && Count([], Overlapping, user, day) == 0
  {
  }

  /** A booking that starts just before the day, alone. */
  lemma EarlyAlone(limits: Limits, user: string, day: int, end: int, now: int)
    requires IsDay(day) && now < day < end && limits.minLength <= end - (day - 1) <= limits.maxLength
    requires limits.maxSlots >= 1
    ensures var early, row := Created(user, day - 1, end, now), Booking(user, day - 1, end);
            && Reach(limits, [early]) == [row]
            && Count([row], Overlapping, user, day) == 1
  {
    hide Count, Reach, Create;
    var early, row := Created(user, day - 1, end, now), Booking(user, day - 1, end);
    NothingReached(limits, user, day);
    ReachOneMore(limits, [], early);
    assert [] + [early] == [early] && [] + [row] == [row];
    JustBefore(limits, [], user, day, end, now);
    CountSnoc([], row, Overlapping, user, day);
  }

  /** In the other order the last of them is refused. */
  lemma OneMoreCannotBe(limits: Limits, user: string, day: int, length: nat, now: int)
    requires IsDay(day) && now < day && 1 < length && limits.minLength <= length <= limits.maxLength
    requires limits.maxSlots >= 1 && length * limits.maxSlots <= DAY
    ensures var early, late := Created(user, day - 1, day - 1 + length, now),
            InARow(user, day - 1 + length, length, limits.maxSlots, now);
            Count(Reach(limits, [early] + late), Overlapping, user, day) == limits.maxSlots
  {
    hide Count, Reach;
    var first, n := day - 1 + length, limits.maxSlots;
    var early, steps := Created(user, day - 1, first, now), InARow(user, first, length, n - 1, now);
    assert length * n == length * (n - 1) + length;
    EarlyAlone(limits, user, day, first, now);
    AcceptedInARow(limits, [early], user, first, length, n - 1, now, day);
    var start, end := first + length * (n - 1), first + length * n;
    Multiple(length, n - 1);
    OneDay(start, day);
    ReachOneMore(limits, [early] + steps, Created(user, start, end, now));
    assert [early] + InARow(user, first, length, n, now) == ([early] + steps) + [Created(user, start, end, now)];
  }

  // --- bookings of no length ---

  /** Starting in the day, whether or not they have a part of it. */
  function StartsIn(rows: seq<Booking>, user: string, day: int): nat {
    if rows == [] then 0
    else
      var row := rows[|rows| - 1];
      StartsIn(rows[..|rows| - 1], user, day) + if row.user == user && day <= row.start < day + DAY then 1 else 0
  }

  function AtMidnight(rows: seq<Booking>, user: string, day: int): nat {
    if rows == [] then 0
    else AtMidnight(rows[..|rows| - 1], user, day) + if rows[|rows| - 1] == Booking(user, day, day) then 1 else 0
  }

  lemma {:induction false} StartsAreCounted(rows: seq<Booking>, user: string, day: int)
    requires forall row :: row in rows ==> row.start <= row.end
    ensures StartsIn(rows, user, day) == Count(rows, Starting, user, day) + AtMidnight(rows, user, day)
  {
    if rows != [] {
      var front, last := rows[..|rows| - 1], rows[|rows| - 1];
      assert rows == front + [last];
      assert last in rows;
      StartsAreCounted(front, user, day);
    }
  }

  lemma {:induction false} NoneAtMidnight(rows: seq<Booking>, user: string, day: int)
    requires forall row :: row in rows ==> row.start < row.end
    ensures AtMidnight(rows, user, day) == 0
  {
    if rows != [] {
      assert rows[|rows| - 1] in rows;
      NoneAtMidnight(rows[..|rows| - 1], user, day);
    }
  }

  /** Over every run: of the bookings that start in a day, a user has more than the
      quota only by those of no length at its midnight; so none, if there is a least
      length. */
  lemma NoLengthIsNotCounted(limits: Limits, steps: seq<Step>, user: string, day: int)
    requires IsDay(day)
    ensures var rows := Reach(limits, steps);
            && StartsIn(rows, user, day) <= limits.maxSlots + AtMidnight(rows, user, day)
            && StartsIn(rows, user, day) - AtMidnight(rows, user, day) == Count(rows, Starting, user, day)
            && (limits.minLength > 0 ==> StartsIn(rows, user, day) <= limits.maxSlots)
  {
    hide Count, StartsIn, AtMidnight, Disjoint;
    EveryRun(limits, steps);
    EveryRowIsForward(limits, steps);
    StartsAreCounted(Reach(limits, steps), user, day);
    if limits.minLength > 0 {
      NoneAtMidnight(Reach(limits, steps), user, day);
    }
  }

  function Repeated(user: string, day: int, n: nat, now: int): seq<Step> {
    if n == 0 then [] else Repeated(user, day, n - 1, now) + [Created(user, day, day, now)]
  }

  /** Of these there can be any number. */
  lemma {:induction false} MidnightIsFree(limits: Limits, user: string, day: int, n: nat, now: int)
    requires IsDay(day) && limits.minLength == 0 && limits.maxSlots > 0 && now <= day
    ensures AllAtMidnight(Reach(limits, Repeated(user, day, n, now)), user, day, n)
  {
    hide Reach, AllAtMidnight;
    if n == 0 {
      NoneYet(limits, user, day, now);
    } else {
      var steps := Repeated(user, day, n - 1, now);
      MidnightIsFree(limits, user, day, n - 1, now);
      ReachOneMore(limits, steps, Created(user, day, day, now));
      OneMoreAtMidnight(limits, Reach(limits, steps), user, day, n - 1, now);
    }
  }

  ghost predicate AllAtMidnight(rows: seq<Booking>, user: string, day: int, n: nat) {
    && |rows| == n && AtMidnight(rows, user, day) == n
    && (forall row :: row in rows ==> row == Booking(user, day, day))
    && Count(rows, Overlapping, user, day) == 0
  }

  lemma NoneYet(limits: Limits, user: string, day: int, now: int)
    ensures AllAtMidnight(Reach(limits, Repeated(user, day, 0, now)), user, day, 0)
  {
  }

  lemma OneMoreAtMidnight(limits: Limits, rows: seq<Booking>, user: string, day: int, n: nat, now: int)
    requires IsDay(day) && limits.minLength == 0 && limits.maxSlots > 0 && now <= day
    requires AllAtMidnight(rows, user, day, n)
    ensures AllAtMidnight(Create(limits, rows, user, day, day, now).0, user, day, n + 1)
  {
    hide Count;
    var row := Booking(user, day, day);
    OneDay(day, day);
    CountSnoc(rows, row, Overlapping, user, day);
    assert (rows + [row])[..|rows|] == rows;
  }

  lemma {:induction false} NoSlotsNoRows(limits: Limits, steps: seq<Step>)
    requires limits.maxSlots == 0
    ensures Reach(limits, steps) == []
  {
    if steps != [] {
      NoSlotsNoRows(limits, steps[..|steps| - 1]);
    }
  }

  /** Over every run, of all the bookings that start in a day: there are never more
      than the quota exactly if bookings have a least length, or there are none. */
  lemma StartsKeepQuotaExactly(limits: Limits)
    ensures (forall steps, user, day :: IsDay(day) ==> StartsIn(Reach(limits, steps), user, day) <= limits.maxSlots)
            <==> limits.minLength > 0 || limits.maxSlots == 0
  {
    hide Reach, StartsIn, Count, AtMidnight;
    if limits.minLength > 0 || limits.maxSlots == 0 {
      forall steps, user, day | IsDay(day)
        ensures StartsIn(Reach(limits, steps), user, day) <= limits.maxSlots
      {
        if limits.minLength > 0 {
          NoLengthIsNotCounted(limits, steps, user, day);
        } else {
          NoSlotsNoRows(limits, steps);
          NoneStarts(user, day);
        }
      }
    } else {
      var n := limits.maxSlots + 1;
      var steps := Repeated("", 0, n, 0);
      MidnightIsFree(limits, "", 0, n, 0);
      NoLengthIsNotCounted(limits, steps, "", 0);
      assert StartsIn(Reach(limits, steps), "", 0) > limits.maxSlots;
    }
  }

  lemma NoneStarts(user: string, day: int)
    ensures StartsIn([], user, day) == 0
  {
  }

  /** Strictly within a booking there is no other: the active one is that. */
  lemma ActiveIsUnique(limits: Limits, steps: seq<Step>, row: Booking, now: int)
    requires row in Reach(limits, steps) && row.start < now < row.end
    ensures FirstActive(Reach(limits, steps), now) == Some(row)
  {
    var rows := Reach(limits, steps);
    EveryRun(limits, steps);
    EveryRowIsForward(limits, steps);
    FirstIsActive(rows, now);
    var active := FirstActive(rows, now).value;
    var i :| 0 <= i < |rows| && rows[i] == row;
    var j :| 0 <= j < |rows| && rows[j] == active;
    assert Overlaps(rows[i], rows[j].start, rows[j].end) && Overlaps(rows[j], rows[i].start, rows[i].end);
    assert i == j;
  }

  lemma {:induction false} EveryRowIsForward(limits: Limits, steps: seq<Step>)
    ensures forall row :: row in Reach(limits, steps) ==> row.end - row.start >= limits.minLength
  {
    hide Disjoint, WithinQuota, Count;
    if steps != [] {
      EveryRowIsForward(limits, steps[..|steps| - 1]);
      EveryRun(limits, steps[..|steps| - 1]);
      var step := steps[|steps| - 1];
      if step.Deleted? {
        DeletingDisjoint(Reach(limits, steps[..|steps| - 1]), step.condition);
      }
    }
  }
}
