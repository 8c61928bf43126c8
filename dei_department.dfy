/** The DEI ontology (src/ontology/dei_department.py): the individuals the
    agents work on, their functional properties, and the five classes the OWL
    reasoner infers, restated as closed-world predicates over an in-memory
    store.

    Every functional property is a single field (an `Option` where the
    ontology may leave it unset); `has_equipment` and `requires_equipment`,
    which are not functional, are sets. Rooms and equipment are identified by
    their position in the store; a booking is identified by its position in
    `bookings` (its handle). */
module DeiDepartment {
  import opened Calendar

  datatype Option<T> = None | Some(value: T)

  type RoomId = nat
  type EquipmentId = nat
  type TeacherId = nat
  type DayOfWeekId = nat

  /** `Equipment`: `has_name`, `is_broken` (an unset flag reads as false). */
  datatype Equipment = Equipment(name: string, isBroken: bool)

  /** `Room`: `has_name`, `has_capacity`, `has_equipment`. */
  datatype Room = Room(id: RoomId, name: string, capacity: int, equipment: set<EquipmentId>)

  /** `Course`: only what relocation reads of it. */
  datatype Course = Course(name: string, requiredCapacity: int)

  datatype ActivityKind = Lecture | Meeting | Exam | MaintenanceActivity | OtherActivity

  /** An `Activity` individual: its class, `requires_equipment`, `required_capacity`. */
  datatype Activity = Activity(kind: ActivityKind, requiresEquipment: set<EquipmentId>, requiredCapacity: Option<int>)

  /** A `RoomBooking` individual. `course` stands for the `for_course`
      attribute that relocation looks up; the ontology declares no such
      property and no code in the agents sets it. */
  datatype Booking = Booking(
    room: RoomId,                    // booked_in_room
    bookedBy: Option<TeacherId>,     // booked_by
    start: Instant,                  // has_start_time
    end: Instant,                    // has_end_time
    activity: Option<Activity>,      // for_activity
    occursOnDay: Option<DayOfWeekId>,// occurs_on_day
    name: string,                    // has_name
    originalStart: Option<Instant>,  // original_start_time
    originalEnd: Option<Instant>,    // original_end_time
    isRelocated: bool,               // is_relocated (unset reads as false)
    course: Option<Course>)          // for_course

  /** The individuals of the ontology, in the order `instances()` lists them. */
  datatype Store = Store(rooms: seq<Room>, equipment: seq<Equipment>, bookings: seq<Booking>)

  /** Rooms are numbered by position, and every booking is in one of them. */
  ghost predicate WellFormed(st: Store)
  {
    && (forall i :: 0 <= i < |st.rooms| ==> st.rooms[i].id == i)
    && (forall b :: b in st.bookings ==> b.room < |st.rooms|)
  }

  /** The store after a new `RoomBooking` individual is created. */
  function WithBooking(st: Store, b: Booking): (r: Store)
  {
    st.(bookings := st.bookings + [b])
  }

  /** `s < b.has_end_time and e > b.has_start_time`: half-open intervals
      [s, e) and [b.start, b.end) intersect. */
  predicate Overlaps(b: Booking, s: Instant, e: Instant): (o: bool)
    ensures e <= b.start ==> !o
    ensures b.end <= s ==> !o
  {
    s < b.end && e > b.start
  }

  /** Some booking of `room` intersects [s, e). Bookings of other rooms, and
      bookings that only touch the window, never make the room busy. */
  predicate RoomBusy(bookings: seq<Booking>, room: RoomId, s: Instant, e: Instant): (busy: bool)
    ensures (forall b :: b in bookings && b.room == room ==> b.end <= s || e <= b.start) ==> !busy
  {
    exists b :: b in bookings && b.room == room && Overlaps(b, s, e)
  }

  /** No two bookings of one room intersect in time. */
  predicate NoDoubleBooking(bookings: seq<Booking>)
  {
    forall i, j :: 0 <= i < |bookings| && 0 <= j < |bookings| && i != j && bookings[i].room == bookings[j].room
      ==> !Overlaps(bookings[i], bookings[j].start, bookings[j].end)
  }

  predicate EquipmentBroken(st: Store, e: EquipmentId)
  {
    e < |st.equipment| && st.equipment[e].isBroken
  }

  // ---- The five classes defined by equivalence ----------------------------

  /** `OverBookedRoom ≡ Room ⊓ ∃ BookedInRoom⁻.RoomBooking` */
  predicate OverBookedRoom(st: Store, r: RoomId): (o: bool)
    ensures o <==> !AvailableRoom(st, r)
  {
    exists b :: b in st.bookings && b.room == r
  }

  /** `AvailableRoom ≡ Room ⊓ ¬∃ BookedInRoom⁻.RoomBooking` */
  predicate AvailableRoom(st: Store, r: RoomId): (a: bool)
    ensures a ==> forall s, e :: !RoomBusy(st.bookings, r, s, e)
  {
    forall b :: b in st.bookings ==> b.room != r
  }

  /** `BrokenRoom ≡ Room ⊓ ∃ HasEquipment.(Equipment ⊓ IsBroken ∋ true)` */
  predicate BrokenRoom(st: Store, r: Room): (o: bool)
    ensures r.equipment == {} ==> !o
    ensures (forall e :: 0 <= e < |st.equipment| ==> !st.equipment[e].isBroken) ==> !o
  {
    exists e :: e in r.equipment && EquipmentBroken(st, e)
  }

  /** `RelocatedBooking ≡ RoomBooking ⊓ IsRelocated ∋ true` */
  predicate RelocatedBooking(b: Booking)
  {
    b.isRelocated
  }

  /** `UnsuitableProjectorRoomBooking ≡ RoomBooking ⊓
      ∃ ForActivity.(Activity ⊓ ∃ RequiresEquipment.(Equipment ⊓ IsBroken ∋ true))` */
  predicate UnsuitableProjectorRoomBooking(st: Store, b: Booking): (u: bool)
    ensures b.activity.None? ==> !u
    ensures b.activity.Some? && b.activity.value.requiresEquipment == {} ==> !u
    ensures (forall e :: 0 <= e < |st.equipment| ==> !st.equipment[e].isBroken) ==> !u
  {
    b.activity.Some? && exists e :: e in b.activity.value.requiresEquipment && EquipmentBroken(st, e)
  }

  // ---- Properties of the inferred classes ----------------------------------

  /** Any booking, whatever its time, makes its room OverBookedRoom. */
  lemma NewBookingOverBooksRoom(st: Store, b: Booking)
    ensures OverBookedRoom(WithBooking(st, b), b.room)
    ensures !AvailableRoom(WithBooking(st, b), b.room)
    ensures forall r :: OverBookedRoom(st, r) ==> OverBookedRoom(WithBooking(st, b), r)
  {
    assert b in WithBooking(st, b).bookings;
  }

  /** Adding a booking that meets no booking of its room keeps rooms free of
      double bookings. */
  lemma {:induction false} AddFreeBookingKeepsNoDoubleBooking(bookings: seq<Booking>, b: Booking)
    requires NoDoubleBooking(bookings)
    requires !RoomBusy(bookings, b.room, b.start, b.end)
    ensures NoDoubleBooking(bookings + [b])
  {
    var bs := bookings + [b];
    forall i, j | 0 <= i < |bs| && 0 <= j < |bs| && i != j && bs[i].room == bs[j].room
      ensures !Overlaps(bs[i], bs[j].start, bs[j].end)
    {
      if i == |bookings| {
        assert bs[j] in bookings;
        assert !Overlaps(bs[j], b.start, b.end);
      } else if j == |bookings| {
        assert bs[i] in bookings;
      } else {
        assert bs[i] == bookings[i] && bs[j] == bookings[j];
      }
    }
  }

  /** The mutable ontology: the agents create booking individuals in it and
      update their properties in place. */
  class Ontology {
    var rooms: seq<Room>
    var equipment: seq<Equipment>
    var bookings: seq<Booking>

    function State(): (st: Store)
      reads this
    {
      Store(rooms, equipment, bookings)
    }

    constructor (st: Store)
      requires WellFormed(st)
      ensures State() == st
    {
      rooms, equipment, bookings := st.rooms, st.equipment, st.bookings;
    }
  }
}
