/** The booking agent (src/agents/agent_room_booking.py): the DEI time rules,
    the conflict check, the room and interval searches, booking creation and
    emergency relocation.

    The searches are stated as functions over a `Store` value; the agent's
    methods run the source's loops over the live `Ontology` and are proved to
    return exactly what those functions describe. */
module RoomBooking {
  import opened Calendar
  import opened Sorting
  import opened DeiDepartment

  // ==== Time-slot rules (validate_time_slots) ================================

  /** The outcome of `validate_time_slots`: success, or the first rule broken. */
  datatype Verdict = Accepted | ClosedOnWeekends | OutsideOpeningHours | LunchBlock | NotHourlyBlock

  /** The message returned beside the boolean. */
  function Message(v: Verdict): (m: string)
    ensures m == "Success" <==> v == Accepted
  {
    match v
    case Accepted => "Success"
    case ClosedOnWeekends => "DEI rooms are closed on Saturdays and Sundays."
    case OutsideOpeningHours => "DEI rooms are only available from 09:00 to 20:00."
    case LunchBlock => "13:00-14:00 is reserved for Maintenance/Lunch."
    case NotHourlyBlock => "Bookings must be in exact hourly blocks."
  }

  /** The four rules, checked in order; the first one broken decides. */
  function ValidateTimeSlots(start: Instant, end: Instant): (v: Verdict)
    ensures IsWeekend(DayOf(start)) ==> v == ClosedOnWeekends
    ensures v == Accepted <==> !IsWeekend(DayOf(start)) && WithinOpeningHours(start, end)
                               && ClearOfLunchBlock(start, end) && HourAligned(start, end)
  {
    if Weekday(DayOf(start)) >= 5 then ClosedOnWeekends
    else if HourOf(start) < 9 || HourOf(end) > 20 || (HourOf(end) == 20 && MinuteOf(end) > 0) then OutsideOpeningHours
    else if HourOf(start) < 14 && HourOf(end) > 13 then LunchBlock
    else if MinuteOf(start) != 0 || MinuteOf(end) != 0 then NotHourlyBlock
    else Accepted
  }

  predicate WithinOpeningHours(start: Instant, end: Instant)
  {
    HourOf(start) >= 9 && HourOf(end) <= 20 && (HourOf(end) == 20 ==> MinuteOf(end) == 0)
  }

  predicate ClearOfLunchBlock(start: Instant, end: Instant)
  {
    !(HourOf(start) < 14 && HourOf(end) > 13)
  }

  predicate HourAligned(start: Instant, end: Instant)
  {
    MinuteOf(start) == 0 && MinuteOf(end) == 0
  }

  /** A start on Saturday or Sunday is refused for that reason, whatever else holds. */
  lemma WeekendAlwaysRejected(start: Instant, end: Instant)
    requires IsWeekend(DayOf(start))
    ensures ValidateTimeSlots(start, end) == ClosedOnWeekends
    ensures Message(ValidateTimeSlots(start, end)) == "DEI rooms are closed on Saturdays and Sundays."
  {
  }

  /** A window is accepted exactly when all four rules hold at once; a refused
      window is refused for the first rule it breaks. */
  lemma AcceptedIffAllRulesHold(start: Instant, end: Instant)
    ensures ValidateTimeSlots(start, end) == Accepted
        <==> !IsWeekend(DayOf(start)) && WithinOpeningHours(start, end)
             && ClearOfLunchBlock(start, end) && HourAligned(start, end)
    ensures ValidateTimeSlots(start, end) == OutsideOpeningHours
        <==> !IsWeekend(DayOf(start)) && !WithinOpeningHours(start, end)
    ensures ValidateTimeSlots(start, end) == LunchBlock
        <==> !IsWeekend(DayOf(start)) && WithinOpeningHours(start, end) && !ClearOfLunchBlock(start, end)
    ensures ValidateTimeSlots(start, end) == NotHourlyBlock
        <==> !IsWeekend(DayOf(start)) && WithinOpeningHours(start, end)
             && ClearOfLunchBlock(start, end) && !HourAligned(start, end)
  {
  }

  /** An accepted window that ends on the day it starts lies within
      09:00-20:00 and does not reach into 13:00-14:00. */
  lemma AcceptedSameDayWindowShape(start: Instant, end: Instant)
    requires ValidateTimeSlots(start, end) == Accepted
    requires DayOf(start) == DayOf(end)
    ensures !IsWeekend(DayOf(start))
    ensures 9 * 60 <= MinuteOfDay(start) && MinuteOfDay(end) <= 20 * 60
    ensures MinuteOfDay(end) <= 13 * 60 || 14 * 60 <= MinuteOfDay(start)
  {
    ClockParts(start);
    ClockParts(end);
  }

  /** For the hours and durations the booking menu lets through (start hour
      9..19 except 13, 1..4 hours), on a weekday, a window is accepted iff it
      ends by 13:00 or starts at 14:00 or later and ends by 20:00. */
  lemma MenuWindowAccepted(d: Day, hour: int, n: int)
    requires !IsWeekend(d)
    requires 9 <= hour <= 19 && hour != 13 && 1 <= n <= 4
    ensures ValidateTimeSlots(At(d, hour, 0), AddHours(At(d, hour, 0), n)) == Accepted
        <==> hour + n <= 13 || (14 <= hour && hour + n <= 20)
  {
    AtParts(d, hour, 0);
    AddHoursSameDay(d, hour, n);
    AtParts(d, hour + n, 0);
  }

  /** The lunch rule compares whole hours: 12:00-13:00 and 14:00-15:00 pass,
      13:00-14:00 and 12:00-14:00 do not, and 09:30-10:30 fails alignment. */
  lemma ValidationExamples(d: Day)
    requires !IsWeekend(d)
    ensures ValidateTimeSlots(At(d, 9, 0), At(d, 10, 0)) == Accepted
    ensures ValidateTimeSlots(At(d, 12, 0), At(d, 13, 0)) == Accepted
    ensures ValidateTimeSlots(At(d, 14, 0), At(d, 15, 0)) == Accepted
    ensures ValidateTimeSlots(At(d, 13, 0), At(d, 14, 0)) == LunchBlock
    ensures ValidateTimeSlots(At(d, 12, 0), At(d, 14, 0)) == LunchBlock
    ensures ValidateTimeSlots(At(d, 9, 30), At(d, 10, 30)) == NotHourlyBlock
    ensures ValidateTimeSlots(At(d, 19, 0), At(d, 20, 0)) == Accepted
    ensures ValidateTimeSlots(At(d, 19, 0), At(d, 20, 30)) == OutsideOpeningHours
  {
    AtParts(d, 9, 0); AtParts(d, 10, 0); AtParts(d, 12, 0); AtParts(d, 13, 0);
    AtParts(d, 14, 0); AtParts(d, 15, 0); AtParts(d, 9, 30); AtParts(d, 10, 30);
    AtParts(d, 19, 0); AtParts(d, 20, 0); AtParts(d, 20, 30);
  }

  /** No rule relates the end to the start: a window ending before it starts,
      or on a later day, is accepted when the clock readings pass. */
  lemma NoOrderOrDurationRule(d: Day)
    requires !IsWeekend(d)
    ensures ValidateTimeSlots(At(d, 15, 0), At(d, 10, 0)) == Accepted
    ensures ValidateTimeSlots(At(d, 9, 0), At(d + 1, 10, 0)) == Accepted
  {
    AtParts(d, 15, 0); AtParts(d, 10, 0); AtParts(d, 9, 0); AtParts(d + 1, 10, 0);
  }

  // ==== Room search (_is_room_busy, get_available_rooms) ====================

  const ProjectorName: string := "Standard Projector"

  /** `onto.search_one(has_name=name)` over the equipment: the first match. */
  function FindByName(equipment: seq<Equipment>, name: string): (r: Option<EquipmentId>)
    ensures r.Some? ==> r.value < |equipment| && equipment[r.value].name == name
    ensures r.Some? ==> forall i :: 0 <= i < r.value ==> equipment[i].name != name
    ensures r.None? ==> forall i :: 0 <= i < |equipment| ==> equipment[i].name != name
    decreases |equipment|
  {
    if equipment == [] then None
    else if equipment[0].name == name then Some(0)
    else match FindByName(equipment[1..], name)
      case None => None
      case Some(i) => Some(i + 1)
  }

  /** The single "Standard Projector" individual, if there is one. */
  function ProjectorIndividual(st: Store): (p: Option<EquipmentId>)
  {
    FindByName(st.equipment, ProjectorName)
  }

  /** `projector_obj in r.has_equipment`: membership of that one individual,
      whether or not it is broken. */
  predicate HasProjector(st: Store, r: Room)
  {
    ProjectorIndividual(st).Some? && ProjectorIndividual(st).value in r.equipment
  }

  /** The two list comprehensions: enough seats and, if asked, the projector. */
  predicate SuitableRoom(st: Store, r: Room, capacity: int, needsProjector: bool)
  {
    r.capacity >= capacity && (needsProjector ==> HasProjector(st, r))
  }

  function Suitable(st: Store, rooms: seq<Room>, capacity: int, needsProjector: bool): (r: seq<Room>)
    ensures forall x {:trigger x in r} :: x in r <==> x in rooms && SuitableRoom(st, x, capacity, needsProjector)
    decreases |rooms|
  {
    if rooms == [] then []
    else
      var init, last := rooms[..|rooms| - 1], rooms[|rooms| - 1];
      assert rooms == init + [last];
      Suitable(st, init, capacity, needsProjector)
        + (if SuitableRoom(st, last, capacity, needsProjector) then [last] else [])
  }

  /** The rooms of `rooms` that no booking occupies during [s, e), in order. */
  function FreeRooms(bookings: seq<Booking>, rooms: seq<Room>, s: Instant, e: Instant): (r: seq<Room>)
    ensures forall x {:trigger x in r} :: x in r <==> x in rooms && !RoomBusy(bookings, x.id, s, e)
    decreases |rooms|
  {
    if rooms == [] then []
    else
      var init, last := rooms[..|rooms| - 1], rooms[|rooms| - 1];
      assert rooms == init + [last];
      FreeRooms(bookings, init, s, e) + (if RoomBusy(bookings, last.id, s, e) then [] else [last])
  }

  function RoomKey(r: Room): (k: Key)
  {
    Key(r.capacity, 0)
  }

  /** A room the search may offer for [s, e). */
  predicate Qualifies(st: Store, r: Room, capacity: int, s: Instant, e: Instant, needsProjector: bool)
  {
    SuitableRoom(st, r, capacity, needsProjector) && !RoomBusy(st.bookings, r.id, s, e)
  }

  /** `get_available_rooms`: exactly the rooms that have the seats, have the
      projector when asked, and are free during [s, e); smallest first. */
  function AvailableRooms(st: Store, capacity: int, s: Instant, e: Instant, needsProjector: bool): (r: seq<Room>)
    ensures SortedBy(r, RoomKey)
  {
    var free := FreeRooms(st.bookings, Suitable(st, st.rooms, capacity, needsProjector), s, e);
    SortBySorted(free, RoomKey);
    SortBy(free, RoomKey)
  }

  /** A room is offered exactly when it is in the ontology, has the seats and,
      if asked, the projector, and no booking of it overlaps [s, e). */
  lemma AvailableRoomsMembers(st: Store, capacity: int, s: Instant, e: Instant, needsProjector: bool)
    ensures forall x {:trigger x in AvailableRooms(st, capacity, s, e, needsProjector)} ::
      x in AvailableRooms(st, capacity, s, e, needsProjector) <==> x in st.rooms && Qualifies(st, x, capacity, s, e, needsProjector)
  {
    SortByMembers(FreeRooms(st.bookings, Suitable(st, st.rooms, capacity, needsProjector), s, e), RoomKey);
  }

  /** The first room offered has the least capacity of all rooms that qualify,
      and the rooms of equal capacity keep the order of the ontology. */
  lemma AvailableRoomsSmallestFirst(st: Store, capacity: int, s: Instant, e: Instant, needsProjector: bool, x: Room)
    requires x in st.rooms && Qualifies(st, x, capacity, s, e, needsProjector)
    ensures AvailableRooms(st, capacity, s, e, needsProjector) != []
    ensures AvailableRooms(st, capacity, s, e, needsProjector)[0].capacity <= x.capacity
  {
    var r := AvailableRooms(st, capacity, s, e, needsProjector);
    AvailableRoomsMembers(st, capacity, s, e, needsProjector);
    assert x in r;
    var j :| 0 <= j < |r| && r[j] == x;
    if j > 0 {
      assert KeyLe(RoomKey(r[0]), RoomKey(r[j]));
    }
  }

  /** Rooms of equal capacity come out in the order the ontology lists them. */
  lemma AvailableRoomsStable(st: Store, capacity: int, s: Instant, e: Instant, needsProjector: bool, k: Key)
    ensures WithKey(AvailableRooms(st, capacity, s, e, needsProjector), RoomKey, k)
         == WithKey(FreeRooms(st.bookings, Suitable(st, st.rooms, capacity, needsProjector), s, e), RoomKey, k)
  {
    SortByStable(FreeRooms(st.bookings, Suitable(st, st.rooms, capacity, needsProjector), s, e), RoomKey, k);
  }

  /** Capacity first, then position in the ontology (a room's id). */
  function RoomOrderKey(r: Room): (k: Key)
  {
    Key(r.capacity, r.id)
  }

  /** The rooms are listed in strictly increasing id order, as the ontology lists them. */
  predicate IdsIncreasing(rooms: seq<Room>)
  {
    forall i, j :: 0 <= i < j < |rooms| ==> rooms[i].id < rooms[j].id
  }

  lemma IdsIncreasingPrefix(rooms: seq<Room>)
    requires IdsIncreasing(rooms) && rooms != []
    ensures IdsIncreasing(rooms[..|rooms| - 1])
    ensures forall i :: 0 <= i < |rooms| - 1 ==> rooms[i].id < rooms[|rooms| - 1].id
  {
    var init := rooms[..|rooms| - 1];
    forall i, j | 0 <= i < j < |init| ensures init[i].id < init[j].id {
      assert init[i] == rooms[i] && init[j] == rooms[j];
    }
  }

  lemma IdsIncreasingAppend(r: seq<Room>, x: Room)
    requires IdsIncreasing(r)
    requires forall y :: y in r ==> y.id < x.id
    ensures IdsIncreasing(r + [x])
  {
    var t := r + [x];
    forall i, j | 0 <= i < j < |t| ensures t[i].id < t[j].id {
      if j == |r| {
        assert t[i] in r;
      } else {
        assert t[i] == r[i] && t[j] == r[j];
      }
    }
  }

  /** The comprehensions keep the ontology's order. */
  lemma {:induction false} SuitableKeepsIdOrder(st: Store, rooms: seq<Room>, capacity: int, needsProjector: bool)
    requires IdsIncreasing(rooms)
    ensures IdsIncreasing(Suitable(st, rooms, capacity, needsProjector))
    decreases |rooms|
  {
    if rooms != [] {
      var init, last := rooms[..|rooms| - 1], rooms[|rooms| - 1];
      IdsIncreasingPrefix(rooms);
      SuitableKeepsIdOrder(st, init, capacity, needsProjector);
      var r := Suitable(st, init, capacity, needsProjector);
      forall y | y in r ensures y.id < last.id {
        assert y in init;
        var i :| 0 <= i < |init| && init[i] == y;
      }
      IdsIncreasingAppend(r, last);
    }
  }

  /** The conflict-check loop keeps the order of the rooms it is given. */
  lemma {:induction false} FreeRoomsKeepsIdOrder(bookings: seq<Booking>, rooms: seq<Room>, s: Instant, e: Instant)
    requires IdsIncreasing(rooms)
    ensures IdsIncreasing(FreeRooms(bookings, rooms, s, e))
    decreases |rooms|
  {
    if rooms != [] {
      var init, last := rooms[..|rooms| - 1], rooms[|rooms| - 1];
      IdsIncreasingPrefix(rooms);
      FreeRoomsKeepsIdOrder(bookings, init, s, e);
      var r := FreeRooms(bookings, init, s, e);
      forall y | y in r ensures y.id < last.id {
        assert y in init;
        var i :| 0 <= i < |init| && init[i] == y;
      }
      IdsIncreasingAppend(r, last);
    }
  }

  /** `get_available_rooms` lists the rooms by capacity, and rooms of equal
      capacity in the order the ontology lists them. */
  lemma AvailableRoomsCapacityThenPosition(st: Store, capacity: int, s: Instant, e: Instant, needsProjector: bool)
    requires WellFormed(st)
    ensures SortedBy(AvailableRooms(st, capacity, s, e, needsProjector), RoomOrderKey)
  {
    var suitable := Suitable(st, st.rooms, capacity, needsProjector);
    var free := FreeRooms(st.bookings, suitable, s, e);
    assert IdsIncreasing(st.rooms);
    SuitableKeepsIdOrder(st, st.rooms, capacity, needsProjector);
    FreeRoomsKeepsIdOrder(st.bookings, suitable, s, e);
    forall i, j | 0 <= i < j < |free|
      ensures KeyLe(RoomKey(free[i]), RoomKey(free[j])) <==> KeyLe(RoomOrderKey(free[i]), RoomOrderKey(free[j]))
    {
      assert free[i].id < free[j].id;
    }
    SortByFinerKey(free, RoomKey, RoomOrderKey);
    SortBySorted(free, RoomOrderKey);
  }

  /** Room A (30 seats, projector) and room B (60 seats, none), both free:
      asking for 20 seats gives [A] with the projector and [A, B] without. */
  lemma SearchScenario(s: Instant, e: Instant)
    ensures var a := Room(0, "A", 30, {0});
            var b := Room(1, "B", 60, {});
            var st := Store([a, b], [Equipment(ProjectorName, false)], []);
            AvailableRooms(st, 20, s, e, true) == [a]
            && AvailableRooms(st, 20, s, e, false) == [a, b]
  {
    var a := Room(0, "A", 30, {0});
    var b := Room(1, "B", 60, {});
    var st := Store([a, b], [Equipment(ProjectorName, false)], []);
    assert ProjectorIndividual(st) == Some(0);
    assert [a, b][..1] == [a];
    assert [a][..0] == [];
    assert HasProjector(st, a) && !HasProjector(st, b);
    assert Suitable(st, [], 20, true) == [] && Suitable(st, [], 20, false) == [];
    assert Suitable(st, [a], 20, true) == [a];
    assert Suitable(st, [a], 20, false) == [a];
    assert Suitable(st, [a, b], 20, true) == [a];
    assert Suitable(st, [a, b], 20, false) == [a, b];
    assert FreeRooms(st.bookings, [a], s, e) == [a];
    assert FreeRooms(st.bookings, [a, b], s, e) == [a, b];
    assert SortBy([a], RoomKey) == [a] by { assert [a][..0] == []; }
    assert SortBy([a, b], RoomKey) == [a, b];
  }

  // ==== Interval search (get_available_slots_in_interval) ===================

  /** One entry of the result: `{"date", "room", "start", "end"}`. */
  datatype Slot = Slot(date: Day, room: Room, start: Instant, end: Instant)

  /** `(x['date'], x['room'].has_capacity)` */
  function SlotKey(x: Slot): (k: Key)
  {
    Key(x.date, x.room.capacity)
  }

  /** One slot per room, in the order of `rooms`. */
  function SlotsFor(d: Day, rooms: seq<Room>, s: Instant, e: Instant): (r: seq<Slot>)
    decreases |rooms|
  {
    if rooms == [] then []
    else SlotsFor(d, rooms[..|rooms| - 1], s, e) + [Slot(d, rooms[|rooms| - 1], s, e)]
  }

  lemma {:induction false} SlotsForEntries(d: Day, rooms: seq<Room>, s: Instant, e: Instant)
    ensures |SlotsFor(d, rooms, s, e)| == |rooms|
    ensures forall i :: 0 <= i < |rooms| ==> SlotsFor(d, rooms, s, e)[i] == Slot(d, rooms[i], s, e)
    decreases |rooms|
  {
    if rooms != [] {
      SlotsForEntries(d, rooms[..|rooms| - 1], s, e);
    }
  }

  /** The slots found on day `d`: none on a weekend or when the window
      `d@hour:00` + `hours` fails the time rules. */
  function DaySlots(st: Store, capacity: int, d: Day, hour: int, hours: int, needsProjector: bool): (r: seq<Slot>)
  {
    var s := At(d, hour, 0);
    var e := AddHours(s, hours);
    if IsWeekend(d) || ValidateTimeSlots(s, e) != Accepted then []
    else SlotsFor(d, AvailableRooms(st, capacity, s, e, needsProjector), s, e)
  }

  /** The results of days `first`, …, `first + count - 1` of `f`, appended day by day. */
  function Concat(f: Day -> seq<Slot>, first: Day, count: int): (r: seq<Slot>)
    ensures count <= 0 ==> r == []
    decreases count
  {
    if count <= 0 then [] else Concat(f, first, count - 1) + f(first + count - 1)
  }

  /** The day a collected slot was found on. */
  lemma {:induction false} ConcatDayOf(f: Day -> seq<Slot>, first: Day, count: int, x: Slot) returns (d: Day)
    requires x in Concat(f, first, count)
    ensures first <= d < first + count && x in f(d)
    decreases count
  {
    if x in f(first + count - 1) {
      d := first + count - 1;
    } else {
      d := ConcatDayOf(f, first, count - 1, x);
    }
  }

  /** Every slot found on a day of the range is collected. */
  lemma {:induction false} ConcatHasDay(f: Day -> seq<Slot>, first: Day, count: int, d: Day, x: Slot)
    requires first <= d < first + count && x in f(d)
    ensures x in Concat(f, first, count)
    decreases count
  {
    if d < first + count - 1 {
      ConcatHasDay(f, first, count - 1, d, x);
    }
  }

  /** The slots of the days `first`, …, `first + count - 1`, appended day by day. */
  function IntervalSlots(st: Store, capacity: int, first: Day, count: int, hour: int, hours: int, needsProjector: bool): (r: seq<Slot>)
  {
    Concat(d => DaySlots(st, capacity, d, hour, hours, needsProjector), first, count)
  }

  lemma IntervalSlotsMembers(st: Store, capacity: int, first: Day, count: int, hour: int, hours: int, needsProjector: bool, x: Slot)
    ensures x in IntervalSlots(st, capacity, first, count, hour, hours, needsProjector)
        <==> exists d :: first <= d < first + count && x in DaySlots(st, capacity, d, hour, hours, needsProjector)
  {
    var f := d => DaySlots(st, capacity, d, hour, hours, needsProjector);
    if x in Concat(f, first, count) {
      var d := ConcatDayOf(f, first, count, x);
      assert f(d) == DaySlots(st, capacity, d, hour, hours, needsProjector);
    }
    if exists d :: first <= d < first + count && x in DaySlots(st, capacity, d, hour, hours, needsProjector) {
      var d :| first <= d < first + count && x in DaySlots(st, capacity, d, hour, hours, needsProjector);
      ConcatHasDay(f, first, count, d, x);
    }
  }

  /** `range((end_date - start_date).days + 1)` has this many days. */
  function DayCount(startDate: Day, endDate: Day): (n: nat)
    ensures n == 0 <==> endDate < startDate
  {
    if endDate < startDate then 0 else endDate - startDate + 1
  }

  /** The result of `get_available_slots_in_interval`. */
  function AvailableSlots(st: Store, capacity: int, startDate: Day, endDate: Day, hour: int, hours: int, needsProjector: bool): (r: seq<Slot>)
    ensures SortedBy(r, SlotKey)
  {
    var found := IntervalSlots(st, capacity, startDate, DayCount(startDate, endDate), hour, hours, needsProjector);
    SortBySorted(found, SlotKey);
    SortBy(found, SlotKey)
  }

  /** The slots of every day of the interval, once sorted, are the interval search's result. */
  lemma SortedDaysAreAvailableSlots(st: Store, capacity: int, startDate: Day, endDate: Day, hour: int, hours: int, needsProjector: bool, found: seq<Slot>)
    requires found == IntervalSlots(st, capacity, startDate, DayCount(startDate, endDate), hour, hours, needsProjector)
    ensures SortBy(found, SlotKey) == AvailableSlots(st, capacity, startDate, endDate, hour, hours, needsProjector)
  {
  }

  /** What the search promises of a slot on day `d`. */
  predicate SlotOnDay(st: Store, capacity: int, d: Day, hour: int, hours: int, needsProjector: bool, x: Slot)
  {
    && x.date == d
    && !IsWeekend(d)
    && x.start == At(d, hour, 0)
    && x.end == AddHours(x.start, hours)
    && ValidateTimeSlots(x.start, x.end) == Accepted
    && x.room in AvailableRooms(st, capacity, x.start, x.end, needsProjector)
  }

  /** What the search promises of every slot it returns. */
  predicate SlotOffered(st: Store, capacity: int, startDate: Day, endDate: Day, hour: int, hours: int, needsProjector: bool, x: Slot)
  {
    startDate <= x.date <= endDate && SlotOnDay(st, capacity, x.date, hour, hours, needsProjector, x)
  }

  lemma DaySlotsExactly(st: Store, capacity: int, d: Day, hour: int, hours: int, needsProjector: bool, x: Slot)
    ensures x in DaySlots(st, capacity, d, hour, hours, needsProjector)
        <==> SlotOnDay(st, capacity, d, hour, hours, needsProjector, x)
  {
    var s := At(d, hour, 0);
    var e := AddHours(s, hours);
    if !IsWeekend(d) && ValidateTimeSlots(s, e) == Accepted {
      var rooms := AvailableRooms(st, capacity, s, e, needsProjector);
      var today := SlotsFor(d, rooms, s, e);
      SlotsForEntries(d, rooms, s, e);
      if x in today {
        var i :| 0 <= i < |today| && today[i] == x;
      }
      if x.date == d && x.start == s && x.end == e && x.room in rooms {
        var i :| 0 <= i < |rooms| && rooms[i] == x.room;
        assert today[i] == x;
      }
    }
  }

  /** Every slot returned meets all the search's conditions. */
  lemma AvailableSlotsSound(st: Store, capacity: int, startDate: Day, endDate: Day, hour: int, hours: int, needsProjector: bool, x: Slot)
    requires x in AvailableSlots(st, capacity, startDate, endDate, hour, hours, needsProjector)
    ensures SlotOffered(st, capacity, startDate, endDate, hour, hours, needsProjector, x)
  {
    var count := DayCount(startDate, endDate);
    var raw := IntervalSlots(st, capacity, startDate, count, hour, hours, needsProjector);
    SortByMembers(raw, SlotKey);
    IntervalSlotsMembers(st, capacity, startDate, count, hour, hours, needsProjector, x);
    var d :| startDate <= d < startDate + count && x in DaySlots(st, capacity, d, hour, hours, needsProjector);
    DaySlotsExactly(st, capacity, d, hour, hours, needsProjector, x);
  }

  /** Every (weekday, room) pair meeting the search's conditions is returned. */
  lemma AvailableSlotsComplete(st: Store, capacity: int, startDate: Day, endDate: Day, hour: int, hours: int, needsProjector: bool, x: Slot)
    requires SlotOffered(st, capacity, startDate, endDate, hour, hours, needsProjector, x)
    ensures x in AvailableSlots(st, capacity, startDate, endDate, hour, hours, needsProjector)
  {
    var count := DayCount(startDate, endDate);
    var raw := IntervalSlots(st, capacity, startDate, count, hour, hours, needsProjector);
    SortByMembers(raw, SlotKey);
    IntervalSlotsMembers(st, capacity, startDate, count, hour, hours, needsProjector, x);
    DaySlotsExactly(st, capacity, x.date, hour, hours, needsProjector, x);
    assert startDate <= x.date < startDate + count && x in DaySlots(st, capacity, x.date, hour, hours, needsProjector);
  }

  /** The slots come earliest date first, then smallest room first. */
  lemma AvailableSlotsSorted(st: Store, capacity: int, startDate: Day, endDate: Day, hour: int, hours: int, needsProjector: bool)
    ensures var r := AvailableSlots(st, capacity, startDate, endDate, hour, hours, needsProjector);
      forall i, j :: 0 <= i < j < |r| ==>
        r[i].date < r[j].date || (r[i].date == r[j].date && r[i].room.capacity <= r[j].room.capacity)
  {
    SortBySorted(IntervalSlots(st, capacity, startDate, DayCount(startDate, endDate), hour, hours, needsProjector), SlotKey);
  }

  /** An end date before the start date gives no slots. */
  lemma AvailableSlotsEmptyRange(st: Store, capacity: int, startDate: Day, endDate: Day, hour: int, hours: int, needsProjector: bool)
    requires endDate < startDate
    ensures AvailableSlots(st, capacity, startDate, endDate, hour, hours, needsProjector) == []
  {
  }

  // ==== Booking creation (create_booking) ===================================

  /** The booking individual `create_booking` fills in; a Lecture activity is
      attached iff a course is given. The course itself is not attached. */
  function NewBooking(prof: TeacherId, room: RoomId, s: Instant, e: Instant, bookingType: string, course: Option<Course>): (b: Booking)
    ensures b.room == room && b.bookedBy == Some(prof) && b.start == s && b.end == e
    ensures b.activity.Some? <==> course.Some?
    ensures b.activity.Some? ==> b.activity.value.kind == Lecture
    ensures !RelocatedBooking(b) && b.originalStart.None? && b.originalEnd.None?
  {
    Booking(room, Some(prof), s, e,
            if course.Some? then Some(Activity(Lecture, {}, None)) else None,
            None,
            bookingType + ": " + (if course.Some? then course.value.name else "Meeting"),
            None, None, false, None)
  }

  /** No conflict check: a booking from s to s+2h and then one from s+1h
      to s+3h in the same room (different starts, so different individual
      names) give a double booking. */
  lemma CreateBookingCanDoubleBook(prof: TeacherId, s: Instant)
    ensures var first := NewBooking(prof, 0, s, AddHours(s, 2), "Meeting", None);
      var second := NewBooking(prof, 0, AddHours(s, 1), AddHours(s, 3), "Meeting", None);
      var st := Store([Room(0, "A", 30, {})], [], [first]);
      && first.start != second.start
      && NoDoubleBooking(st.bookings)
      && !NoDoubleBooking(WithBooking(st, second).bookings)
  {
    var first := NewBooking(prof, 0, s, AddHours(s, 2), "Meeting", None);
    var second := NewBooking(prof, 0, AddHours(s, 1), AddHours(s, 3), "Meeting", None);
    var bs := [first, second];
    assert WithBooking(Store([Room(0, "A", 30, {})], [], [first]), second).bookings == bs;
    assert bs[0].room == bs[1].room && Overlaps(bs[0], bs[1].start, bs[1].end);
  }

  /** Booking any slot the interval search offered, before anything else
      changes, keeps the rooms free of double bookings. */
  lemma BookingOfferedSlotKeepsNoDoubleBooking(st: Store, capacity: int, startDate: Day, endDate: Day, hour: int, hours: int,
                                               needsProjector: bool, x: Slot, prof: TeacherId, bookingType: string, course: Option<Course>)
    requires NoDoubleBooking(st.bookings)
    requires x in AvailableSlots(st, capacity, startDate, endDate, hour, hours, needsProjector)
    ensures NoDoubleBooking(WithBooking(st, NewBooking(prof, x.room.id, x.start, x.end, bookingType, course)).bookings)
  {
    AvailableSlotsSound(st, capacity, startDate, endDate, hour, hours, needsProjector, x);
    AvailableRoomsMembers(st, capacity, x.start, x.end, needsProjector);
    AddFreeBookingKeepsNoDoubleBooking(st.bookings, NewBooking(prof, x.room.id, x.start, x.end, bookingType, course));
  }

  // ==== Emergency relocation (emergency_relocate) ===========================

  /** What `emergency_relocate` returns and the ontology it leaves behind. */
  datatype Outcome = Outcome(store: Store, ok: bool, message: string)

  /** Seats asked for: the attached course's requirement, else 0. */
  function RelocationCapacity(b: Booking): (seats: int)
    ensures b.course.None? ==> seats == 0
  {
    if b.course.Some? then b.course.value.requiredCapacity else 0
  }

  /** `[r for r in options if r != booking.booked_in_room]` */
  function Without(rooms: seq<Room>, id: RoomId): (r: seq<Room>)
    ensures forall x :: x in r <==> x in rooms && x.id != id
    decreases |rooms|
  {
    if rooms == [] then []
    else
      var init, last := rooms[..|rooms| - 1], rooms[|rooms| - 1];
      assert rooms == init + [last];
      Without(init, id) + (if last.id != id then [last] else [])
  }

  /** Dropping the current room keeps any order the options are in. */
  lemma {:induction false} WithoutKeepsOrder(rooms: seq<Room>, id: RoomId, key: Room -> Key)
    requires SortedBy(rooms, key)
    ensures SortedBy(Without(rooms, id), key)
    decreases |rooms|
  {
    if rooms != [] {
      var init, last := rooms[..|rooms| - 1], rooms[|rooms| - 1];
      assert rooms == init + [last];
      forall i, j | 0 <= i < j < |init| ensures KeyLe(key(init[i]), key(init[j])) {
        assert init[i] == rooms[i] && init[j] == rooms[j];
      }
      WithoutKeepsOrder(init, id, key);
      var r' := Without(init, id);
      if last.id != id {
        forall x | x in r' ensures KeyLe(key(x), key(last)) {
          var i :| 0 <= i < |init| && init[i] == x;
          assert rooms[i] == x;
        }
        SortedAppend(r', last, key);
      }
    }
  }

  /** The rooms relocation may choose from, smallest first. */
  function RelocationOptions(st: Store, b: Booking): (r: seq<Room>)
  {
    Without(AvailableRooms(st, RelocationCapacity(b), b.start, b.end, true), b.room)
  }

  /** Among the other rooms that qualify with the least capacity, relocation
      offers first the one the ontology lists first. */
  lemma RelocationPrefersEarlierRoom(st: Store, b: Booking, i: nat)
    requires WellFormed(st)
    requires RelocationOptions(st, b) != []
    requires i < |st.rooms| && i != b.room
    requires Qualifies(st, st.rooms[i], RelocationCapacity(b), b.start, b.end, true)
    requires i < RelocationOptions(st, b)[0].id
    ensures RelocationOptions(st, b)[0].capacity < st.rooms[i].capacity
  {
    var avail := AvailableRooms(st, RelocationCapacity(b), b.start, b.end, true);
    var options := RelocationOptions(st, b);
    AvailableRoomsCapacityThenPosition(st, RelocationCapacity(b), b.start, b.end, true);
    WithoutKeepsOrder(avail, b.room, RoomOrderKey);
    AvailableRoomsMembers(st, RelocationCapacity(b), b.start, b.end, true);
    var x := st.rooms[i];
    assert x in st.rooms;
    assert x in avail;
    assert x in options;
    var p :| 0 <= p < |options| && options[p] == x;
    assert p != 0;
    assert KeyLe(RoomOrderKey(options[0]), RoomOrderKey(options[p]));
  }

  /** Every other room that qualifies is offered, none ahead of a smaller one. */
  lemma RelocationOffersSmallest(st: Store, b: Booking, x: Room)
    requires x in st.rooms && x.id != b.room
    requires Qualifies(st, x, RelocationCapacity(b), b.start, b.end, true)
    ensures RelocationOptions(st, b) != []
    ensures RelocationOptions(st, b)[0].capacity <= x.capacity
  {
    var avail := AvailableRooms(st, RelocationCapacity(b), b.start, b.end, true);
    var options := RelocationOptions(st, b);
    WithoutKeepsOrder(avail, b.room, RoomKey);
    AvailableRoomsMembers(st, RelocationCapacity(b), b.start, b.end, true);
    assert x in avail;
    assert x in options;
    var p :| 0 <= p < |options| && options[p] == x;
    if p > 0 {
      assert KeyLe(RoomKey(options[0]), RoomKey(options[p]));
    }
  }

  lemma RoomIdInRange(st: Store, x: Room)
    requires WellFormed(st) && x in st.rooms
    ensures x.id < |st.rooms|
  {
    var i :| 0 <= i < |st.rooms| && st.rooms[i] == x;
  }

  /** Moving one booking to an existing room keeps the store well formed. */
  lemma MoveKeepsWellFormed(st: Store, h: nat, r: RoomId)
    requires WellFormed(st) && h < |st.bookings| && r < |st.rooms|
    ensures WellFormed(st.(bookings := st.bookings[h := st.bookings[h].(room := r)]))
  {
    var bs := st.bookings[h := st.bookings[h].(room := r)];
    forall x | x in bs ensures x.room < |st.rooms| {
      var i :| 0 <= i < |bs| && bs[i] == x;
      if i != h {
        assert x == st.bookings[i];
      }
    }
  }

  /** `emergency_relocate(booking)` for the booking with handle `h`. */
  function Relocate(st: Store, h: nat): (o: Outcome)
    requires WellFormed(st) && h < |st.bookings|
    ensures WellFormed(o.store) && o.store.rooms == st.rooms && o.store.equipment == st.equipment
    ensures |o.store.bookings| == |st.bookings|
  {
    var b := st.bookings[h];
    var options := RelocationOptions(st, b);
    if options != [] then
      var newRoom := options[0];
      assert newRoom in AvailableRooms(st, RelocationCapacity(b), b.start, b.end, true);
      AvailableRoomsMembers(st, RelocationCapacity(b), b.start, b.end, true);
      RoomIdInRange(st, newRoom);
      MoveKeepsWellFormed(st, h, newRoom.id);
      var st' := st.(bookings := st.bookings[h := b.(room := newRoom.id)]);
      Outcome(st', true, "Booking moved from " + st.rooms[b.room].name + " to " + newRoom.name + ".")
    else
      Outcome(st, false, "No suitable alternative rooms available for this slot.")
  }

  /** On success the booking moves to the smallest room, other than its own,
      that has the projector, the seats and is free for the same window; only
      its room changes. */
  lemma RelocateSuccess(st: Store, h: nat)
    requires WellFormed(st) && h < |st.bookings|
    requires Relocate(st, h).ok
    ensures var b := st.bookings[h];
      var o := Relocate(st, h);
      var r := o.store.bookings[h].room;
      && r != b.room
      && st.rooms[r] in AvailableRooms(st, RelocationCapacity(b), b.start, b.end, true)
      && HasProjector(st, st.rooms[r])
      && !RoomBusy(st.bookings, r, b.start, b.end)
      && (forall x :: x in st.rooms && x.id != b.room && Qualifies(st, x, RelocationCapacity(b), b.start, b.end, true)
            ==> st.rooms[r].capacity <= x.capacity)
      && o.store.bookings == st.bookings[h := b.(room := r)]
  {
    var b := st.bookings[h];
    var newRoom := RelocationOptions(st, b)[0];
    AvailableRoomsMembers(st, RelocationCapacity(b), b.start, b.end, true);
    assert newRoom in st.rooms;
    var i :| 0 <= i < |st.rooms| && st.rooms[i] == newRoom;
    assert newRoom.id == i;
    forall x | x in st.rooms && x.id != b.room && Qualifies(st, x, RelocationCapacity(b), b.start, b.end, true)
      ensures newRoom.capacity <= x.capacity
    {
      RelocationOffersSmallest(st, b, x);
    }
  }

  /** Of several equally small rooms that qualify, relocation takes the one
      listed first in the ontology: every qualifying room listed before the
      chosen one (other than the booking's own) is strictly larger. */
  lemma RelocateTakesFirstListed(st: Store, h: nat)
    requires WellFormed(st) && h < |st.bookings|
    requires Relocate(st, h).ok
    ensures var b := st.bookings[h];
      var r := Relocate(st, h).store.bookings[h].room;
      && r < |st.rooms|
      && forall i :: 0 <= i < r && i != b.room && Qualifies(st, st.rooms[i], RelocationCapacity(b), b.start, b.end, true)
           ==> st.rooms[r].capacity < st.rooms[i].capacity
  {
    var b := st.bookings[h];
    var newRoom := RelocationOptions(st, b)[0];
    AvailableRoomsMembers(st, RelocationCapacity(b), b.start, b.end, true);
    assert newRoom in st.rooms;
    var j :| 0 <= j < |st.rooms| && st.rooms[j] == newRoom;
    assert Relocate(st, h).store.bookings[h].room == newRoom.id == j;
    forall i | 0 <= i < j && i != b.room && Qualifies(st, st.rooms[i], RelocationCapacity(b), b.start, b.end, true)
      ensures newRoom.capacity < st.rooms[i].capacity
    {
      RelocationPrefersEarlierRoom(st, b, i);
    }
  }

  /** Relocation fails exactly when no other room qualifies, and then it
      leaves the ontology untouched. */
  lemma RelocateFailure(st: Store, h: nat)
    requires WellFormed(st) && h < |st.bookings|
    ensures var b := st.bookings[h];
      !Relocate(st, h).ok <==>
        forall x :: x in st.rooms && x.id != b.room ==> !Qualifies(st, x, RelocationCapacity(b), b.start, b.end, true)
    ensures !Relocate(st, h).ok ==> Relocate(st, h).store == st
  {
    var b := st.bookings[h];
    var options := RelocationOptions(st, b);
    AvailableRoomsMembers(st, RelocationCapacity(b), b.start, b.end, true);
    if options != [] {
      assert options[0] in options;
    }
  }

  /** A booking with a non-empty window occupies its own room, so the search
      never offers that room again; the explicit exclusion only matters for
      empty or reversed windows. */
  lemma OwnRoomIsBusy(st: Store, h: nat)
    requires h < |st.bookings|
    requires st.bookings[h].start < st.bookings[h].end
    ensures forall x :: x in AvailableRooms(st, RelocationCapacity(st.bookings[h]), st.bookings[h].start, st.bookings[h].end, true)
              ==> x.id != st.bookings[h].room
  {
    var b := st.bookings[h];
    AvailableRoomsMembers(st, RelocationCapacity(b), b.start, b.end, true);
    assert b in st.bookings && Overlaps(b, b.start, b.end);
  }

  /** Relocation never creates a double booking. */
  lemma RelocateKeepsNoDoubleBooking(st: Store, h: nat)
    requires WellFormed(st) && h < |st.bookings|
    requires NoDoubleBooking(st.bookings)
    ensures NoDoubleBooking(Relocate(st, h).store.bookings)
  {
    if Relocate(st, h).ok {
      RelocateSuccess(st, h);
      var b := st.bookings[h];
      var bs := Relocate(st, h).store.bookings;
      forall i, j | 0 <= i < |bs| && 0 <= j < |bs| && i != j && bs[i].room == bs[j].room
        ensures !Overlaps(bs[i], bs[j].start, bs[j].end)
      {
        if i == h {
          assert st.bookings[j] in st.bookings;
        } else if j == h {
          assert st.bookings[i] in st.bookings;
        } else {
          assert bs[i] == st.bookings[i] && bs[j] == st.bookings[j];
        }
      }
    }
  }

  /** The scenario below: rooms A and B share the one projector, which is
      broken, and a lecture is booked in A for [s, e). */
  function ScenarioBooking(s: Instant, e: Instant): (b: Booking)
  {
    Booking(0, Some(7), s, e, Some(Activity(Lecture, {0}, None)), None, "Course: CRP", None, None, false, None)
  }

  function ScenarioStore(s: Instant, e: Instant): (st: Store)
  {
    Store([Room(0, "A", 30, {0}), Room(1, "B", 60, {0})], [Equipment(ProjectorName, true)], [ScenarioBooking(s, e)])
  }

  /** Both rooms hold the projector, so both are suitable. */
  lemma ScenarioSuitable(s: Instant, e: Instant)
    ensures Suitable(ScenarioStore(s, e), ScenarioStore(s, e).rooms, 0, true) == ScenarioStore(s, e).rooms
  {
    var st := ScenarioStore(s, e);
    assert ProjectorIndividual(st) == Some(0);
    assert st.rooms[..1] == [st.rooms[0]];
    assert Suitable(st, [st.rooms[0]], 0, true) == [st.rooms[0]];
  }

  /** Room A is taken by the booking itself, room B is free. */
  lemma ScenarioFree(s: Instant, e: Instant)
    requires s < e
    ensures FreeRooms(ScenarioStore(s, e).bookings, ScenarioStore(s, e).rooms, s, e) == [Room(1, "B", 60, {0})]
  {
    var st := ScenarioStore(s, e);
    assert RoomBusy(st.bookings, 0, s, e) by {
      assert ScenarioBooking(s, e) in st.bookings;
    }
    assert !RoomBusy(st.bookings, 1, s, e);
    assert st.rooms[..1] == [st.rooms[0]];
    assert FreeRooms(st.bookings, [st.rooms[0]], s, e) == [];
  }

  /** The relocation options in the broken-projector scenario: only room B. */
  lemma BrokenProjectorOptions(s: Instant, e: Instant)
    requires s < e
    ensures RelocationOptions(ScenarioStore(s, e), ScenarioBooking(s, e)) == [Room(1, "B", 60, {0})]
  {
    var b := Room(1, "B", 60, {0});
    ScenarioSuitable(s, e);
    ScenarioFree(s, e);
    assert SortBy([b], RoomKey) == [b];
    assert Without([b], 0) == [b];
  }

  /** The projector test is membership of one individual, not its health:
      when the shared projector is broken, relocation still moves the booking
      to another room holding that projector, and the booking stays
      UnsuitableProjectorRoomBooking there. */
  lemma RelocationIgnoresBrokenProjector(s: Instant, e: Instant)
    requires s < e
    ensures var a := Room(0, "A", 30, {0});
      var b := Room(1, "B", 60, {0});
      var lecture := Activity(Lecture, {0}, None);
      var booking := Booking(0, Some(7), s, e, Some(lecture), None, "Course: CRP", None, None, false, None);
      var st := Store([a, b], [Equipment(ProjectorName, true)], [booking]);
      var o := Relocate(st, 0);
      && UnsuitableProjectorRoomBooking(st, booking)
      && o.ok && o.store.bookings[0].room == 1
      && BrokenRoom(st, b)
      && UnsuitableProjectorRoomBooking(o.store, o.store.bookings[0])
  {
    var b := Room(1, "B", 60, {0});
    var booking := Booking(0, Some(7), s, e, Some(Activity(Lecture, {0}, None)), None, "Course: CRP", None, None, false, None);
    var st := Store([Room(0, "A", 30, {0}), b], [Equipment(ProjectorName, true)], [booking]);
    assert EquipmentBroken(st, 0);
    assert st == ScenarioStore(s, e) && booking == ScenarioBooking(s, e);
    BrokenProjectorOptions(s, e);
    assert RelocationOptions(st, booking)[0] == b;
  }

  // ==== The agent over the live ontology ====================================

  class BookingAgent {
    const onto: Ontology

    constructor (onto: Ontology)
      ensures this.onto == onto
    {
      this.onto := onto;
    }

    /** `onto.search(type=RoomBooking, booked_in_room=room)` */
    static function BookingsInRoom(bookings: seq<Booking>, room: RoomId): (r: seq<Booking>)
      ensures forall b :: b in r <==> b in bookings && b.room == room
      decreases |bookings|
    {
      if bookings == [] then []
      else
        var init, last := bookings[..|bookings| - 1], bookings[|bookings| - 1];
        assert bookings == init + [last];
        BookingsInRoom(init, room) + (if last.room == room then [last] else [])
    }

    /** `_is_room_busy`: scans the room's bookings and stops at the first
        one meeting [s, e). */
    method IsRoomBusy(room: RoomId, s: Instant, e: Instant) returns (busy: bool)
      ensures busy <==> exists b :: b in onto.bookings && b.room == room && s < b.end && e > b.start
      ensures busy == RoomBusy(onto.bookings, room, s, e)
    {
      var bookings := BookingsInRoom(onto.bookings, room);
      for i := 0 to |bookings|
        invariant forall k :: 0 <= k < i ==> !Overlaps(bookings[k], s, e)
      {
        if s < bookings[i].end && e > bookings[i].start {
          assert bookings[i] in bookings;
          return true;
        }
      }
      return false;
    }

    /** `get_available_rooms` */
    method GetAvailableRooms(capacity: int, s: Instant, e: Instant, needsProjector: bool) returns (available: seq<Room>)
      ensures available == AvailableRooms(onto.State(), capacity, s, e, needsProjector)
    {
      var suitable := Suitable(onto.State(), onto.rooms, capacity, needsProjector);
      available := [];
      for k := 0 to |suitable|
        invariant available == FreeRooms(onto.bookings, suitable[..k], s, e)
      {
        var busy := IsRoomBusy(suitable[k].id, s, e);
        assert suitable[..k + 1][..k] == suitable[..k];
        if !busy {
          available := available + [suitable[k]];
        }
      }
      assert suitable[..|suitable|] == suitable;
      available := SortBy(available, RoomKey);
    }

    /** One day of `get_available_slots_in_interval`: nothing on a weekend or
        when the window fails the time rules, otherwise a slot per available
        room. */
    method SearchDay(capacity: int, day: Day, startHour: int, hours: int, needsProjector: bool)
      returns (daySlots: seq<Slot>)
      ensures daySlots == DaySlots(onto.State(), capacity, day, startHour, hours, needsProjector)
    {
      daySlots := [];
      if Weekday(day) >= 5 {
        return;
      }
      var checkStart := At(day, startHour, 0);
      var checkEnd := AddHours(checkStart, hours);
      if ValidateTimeSlots(checkStart, checkEnd) != Accepted {
        return;
      }
      var rooms := GetAvailableRooms(capacity, checkStart, checkEnd, needsProjector);
      for j := 0 to |rooms|
        invariant daySlots == SlotsFor(day, rooms[..j], checkStart, checkEnd)
      {
        assert rooms[..j + 1][..j] == rooms[..j];
        daySlots := daySlots + [Slot(day, rooms[j], checkStart, checkEnd)];
      }
      assert rooms[..|rooms|] == rooms;
    }

    /** `get_available_slots_in_interval` */
    method GetAvailableSlotsInInterval(capacity: int, startDate: Day, endDate: Day, startHour: int, hours: int, needsProjector: bool)
      returns (slots: seq<Slot>)
      requires 0 <= startHour < 24
      ensures slots == AvailableSlots(onto.State(), capacity, startDate, endDate, startHour, hours, needsProjector)
    {
      ghost var st := onto.State();
      var found := [];
      var delta := endDate - startDate;
      var i := 0;
      while i < delta + 1
        invariant 0 <= i <= DayCount(startDate, endDate)
        invariant found == IntervalSlots(st, capacity, startDate, i, startHour, hours, needsProjector)
        invariant onto.State() == st
      {
        var daySlots := SearchDay(capacity, startDate + i, startHour, hours, needsProjector);
        found := found + daySlots;
        i := i + 1;
      }
      assert i == DayCount(startDate, endDate);
      SortedDaysAreAvailableSlots(st, capacity, startDate, endDate, startHour, hours, needsProjector, found);
      slots := SortBy(found, SlotKey);
    }

    /** `create_booking`: a new booking individual with the given properties;
        no conflict check is made. */
    method CreateBooking(prof: TeacherId, room: RoomId, s: Instant, e: Instant, bookingType: string, course: Option<Course>)
      returns (h: nat)
      requires WellFormed(onto.State()) && room < |onto.rooms|
      modifies onto
      ensures h == |old(onto.bookings)|
      ensures onto.State() == WithBooking(old(onto.State()), NewBooking(prof, room, s, e, bookingType, course))
      ensures WellFormed(onto.State())
    {
      h := |onto.bookings|;
      onto.bookings := onto.bookings + [NewBooking(prof, room, s, e, bookingType, course)];
    }

    /** `emergency_relocate` on the booking with handle `h`. */
    method EmergencyRelocate(h: nat) returns (ok: bool, message: string)
      requires WellFormed(onto.State()) && h < |onto.bookings|
      modifies onto
      ensures Relocate(old(onto.State()), h) == Outcome(onto.State(), ok, message)
    {
      var booking := onto.bookings[h];
      var capacity := 0;
      if booking.course.Some? {
        capacity := booking.course.value.requiredCapacity;
      }
      var options := GetAvailableRooms(capacity, booking.start, booking.end, true);
      options := Without(options, booking.room);
      if options != [] {
        var newRoom := options[0];
        var oldRoomName := onto.rooms[booking.room].name;
        onto.bookings := onto.bookings[h := booking.(room := newRoom.id)];
        return true, "Booking moved from " + oldRoomName + " to " + newRoom.name + ".";
      }
      return false, "No suitable alternative rooms available for this slot.";
    }
  }
}
