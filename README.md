# DEI room booking: a verified model of the scheduling core

This project models the scheduling core of the DEI room management system in
Dafny. The system keeps rooms, equipment and room bookings in an OWL ontology.
Two agents work on it:

- the booking agent (`src/agents/agent_room_booking.py`) enforces the DEI time
  rules, checks conflicts, searches for free rooms and free slots over a date
  interval, creates bookings and moves a booking to another room in an
  emergency;
- the maintenance agent (`src/agents/agent_room_maintenance.py`) offers the
  13:00–14:00 maintenance window, relocates the bookings a repair makes
  unsuitable, and creates maintenance bookings.

The model has five modules:

- `Calendar` (`calendar.dfy`): naive local timestamps. An instant counts
  minutes from 0001-01-01 00:00, a Monday, so `Weekday(d) = d % 7` agrees with
  Python's `date.weekday()`.
- `Sorting` (`sorting.dfy`): Python's `list.sort(key=...)`, stated as a stable
  insertion sort on a two-part key. It is proved to sort, to permute and to keep
  equal keys in their original order.
- `DeiDepartment` (`dei_department.dfy`): the individuals and their properties
  (`src/ontology/dei_department.py`). A functional property is a single
  field. The properties a booking may lack (`booked_by`, `for_activity`,
  `occurs_on_day`, the original times, `for_course`) are wrapped in an
  `Option`. The ones the agents read without a check (a booking's room,
  start, end and name, a room's capacity and name) are plain fields that are
  always present; see "Left out" for the error paths this drops. So a booking has exactly one room, at most
  one activity and at most one day, a room has one integer capacity, and an
  equipment item has one boolean `is_broken`. The five classes
  the reasoner infers are closed-world predicates over a `Store` value. The
  mutable ontology is the class `Ontology`.
- `RoomBooking` (`agent_room_booking.dfy`): the booking agent. Each search is
  first a function over a `Store`, with lemmas stating what it returns. The
  class `BookingAgent` then runs the source's loops over the live `Ontology`,
  and each method is proved to return what its function describes.
- `RoomMaintenance` (`agent_room_maintenance.dfy`): the maintenance agent, in
  the same way. One iteration of the relocation loop is the function
  `RelocateAffected`, and the whole loop is `RelocateAll`. Lemmas about
  `RelocateAll` state what the loop does to the snapshots, the
  `is_relocated` flags, the rooms and the returned list.

A booking individual is addressed by its position in the ontology's booking
list (its handle). Setting a property of a booking in place replaces the record
at that position.

## Model

| member | source | states |
|---|---|---|
| DeiDepartment.Overlaps | src/agents/agent_room_booking.py:89 | the overlap test of half-open windows: a window ending at or before a booking's start, or starting at or after its end, does not overlap it |
| DeiDepartment.RoomBusy | src/agents/agent_room_booking.py:86-91 | a room is busy in [start, end) when one of its bookings overlaps the window; bookings of other rooms, and bookings that only touch the window, never make it busy |
| DeiDepartment.OverBookedRoom | src/ontology/dei_department.py:165-166 | OverBookedRoom (some booking is in the room) holds iff AvailableRoom does not |
| DeiDepartment.AvailableRoom | src/ontology/dei_department.py:172-173 | AvailableRoom (no booking is in the room) implies the room is free in every window |
| DeiDepartment.BrokenRoom | src/ontology/dei_department.py:178-179 | BrokenRoom (some equipment of the room is broken) never holds for a room without equipment, nor when no equipment is broken |
| DeiDepartment.RelocatedBooking | src/ontology/dei_department.py:175-176 | RelocatedBooking holds iff the booking's `is_relocated` is true (a definition, no separate contract) |
| DeiDepartment.UnsuitableProjectorRoomBooking | src/ontology/dei_department.py:168-169 | UnsuitableProjectorRoomBooking (the activity requires broken equipment) never holds for a booking without activity, for an activity requiring nothing, or when no equipment is broken |
| DeiDepartment.NewBookingOverBooksRoom | src/ontology/dei_department.py:165-166 | any new booking, whatever its time, makes its room OverBookedRoom and no longer AvailableRoom; rooms already OverBookedRoom stay so |
| DeiDepartment.AddFreeBookingKeepsNoDoubleBooking | src/agents/agent_room_booking.py:84-91 | adding a booking whose room is not busy in its window keeps every room free of overlapping bookings |
| DeiDepartment.Ontology.constructor | src/ontology/dei_department.py:18-179 | the ontology starts out holding exactly the given rooms, equipment and bookings |
| Sorting.SortBy | src/agents/agent_room_booking.py:44 | `list.sort(key=...)` as a stable insertion sort; the result has the input's length |
| Sorting.SortByFinerKey | src/agents/agent_room_booking.py:44 | breaking the key's ties in favour of the element that comes first does not change the stable sort |
| Sorting.SortBySorted | src/agents/agent_room_booking.py:44 | the sorted list is in non-decreasing key order |
| Sorting.SortByPermutes | src/agents/agent_room_booking.py:44 | the sorted list is a permutation of the input (same multiset) |
| Sorting.SortByStable | src/agents/agent_room_booking.py:44 | the elements with any one key keep their input order (the sort is stable) |
| Sorting.SortByMembers | src/agents/agent_room_booking.py:44 | an element is in the sorted list exactly when it is in the input |
| Sorting.SortByFirstIsLeast | src/agents/agent_room_booking.py:44 | the first element of the sorted list has a key no greater than that of any input element |
| Sorting.SortBySortedIsIdentity | src/agents/agent_room_booking.py:44 | a list already in key order is left unchanged |
| RoomBooking.Message | src/agents/agent_room_booking.py:13-27 | the message returned beside the verdict; it is "Success" exactly when the window is accepted |
| RoomBooking.ValidateTimeSlots | src/agents/agent_room_booking.py:9-27 | a start on Saturday or Sunday is refused as closed; a window is accepted iff it starts on a weekday, lies within 09:00–20:00, clears 13:00–14:00 and is hour-aligned |
| RoomBooking.WeekendAlwaysRejected | src/agents/agent_room_booking.py:11-13 | a start on Saturday or Sunday is refused for that reason, with the weekend message, whatever the other rules say |
| RoomBooking.AcceptedIffAllRulesHold | src/agents/agent_room_booking.py:9-27 | a window is accepted iff it starts on a weekday, lies within 09:00–20:00, clears the 13:00–14:00 block and is hour-aligned; each refusal names the first rule broken |
| RoomBooking.AcceptedSameDayWindowShape | src/agents/agent_room_booking.py:15-27 | an accepted window ending on its start day is on a weekday, within 09:00–20:00, and either ends by 13:00 or starts at 14:00 or later |
| RoomBooking.MenuWindowAccepted | src/agents/agent_room_booking.py:16-27 | for start hours 9..19 other than 13 and durations of 1..4 hours on a weekday, a window is accepted iff it ends by 13:00, or starts at 14:00 or later and ends by 20:00 |
| RoomBooking.ValidationExamples | src/agents/agent_room_booking.py:16-27 | 12:00–13:00, 14:00–15:00 and 19:00–20:00 pass; 13:00–14:00 and 12:00–14:00 hit the lunch block; 09:30–10:30 is not hourly; 19:00–20:30 is outside opening hours |
| RoomBooking.NoOrderOrDurationRule | src/agents/agent_room_booking.py:9-27 | no rule compares the end with the start: a reversed window and a window ending on a later day are accepted |
| RoomBooking.FindByName | src/agents/agent_room_booking.py:35 | the name search returns the first equipment with that name, or nothing when no equipment has it |
| RoomBooking.Suitable | src/agents/agent_room_booking.py:31-36 | a room is kept iff it is in the list, has at least the seats asked for and, when asked, holds the projector individual |
| RoomBooking.FreeRooms | src/agents/agent_room_booking.py:38-41 | a room is kept iff it is in the list and no booking of it overlaps [start, end) |
| RoomBooking.AvailableRooms | src/agents/agent_room_booking.py:43-45 | the result is in non-decreasing capacity order (which rooms it holds is stated by `AvailableRoomsMembers`) |
| RoomBooking.AvailableRoomsMembers | src/agents/agent_room_booking.py:29-42 | a room is in the result iff it is in the ontology, has enough seats, has the projector when asked, and no booking of it overlaps the window |
| RoomBooking.AvailableRoomsSmallestFirst | src/agents/agent_room_booking.py:43-45 | when some room qualifies, the result is non-empty and its first room has the least capacity of all qualifying rooms |
| RoomBooking.AvailableRoomsCapacityThenPosition | src/agents/agent_room_booking.py:31-45 | the rooms come by capacity, and rooms of equal capacity in the order the ontology lists them |
| RoomBooking.AvailableRoomsStable | src/agents/agent_room_booking.py:44 | rooms of equal capacity come out in the order the ontology lists them |
| RoomBooking.SearchScenario | src/agents/agent_room_booking.py:31-45 | with room A (30 seats, projector) and room B (60 seats) both free, 20 seats give [A] with the projector and [A, B] without |
| RoomBooking.SlotsFor | src/agents/agent_room_booking.py:72-78 | definition of the per-room append; `SlotsForEntries` states what it yields |
| RoomBooking.SlotsForEntries | src/agents/agent_room_booking.py:72-78 | one slot is appended per available room, in the rooms' order, with that day and window |
| RoomBooking.DaySlots | src/agents/agent_room_booking.py:54-78 | the slots one day of the loop appends: none on a weekend or for a window the time rules refuse, else one per available room (stated by `DaySlotsExactly`) |
| RoomBooking.DaySlotsExactly | src/agents/agent_room_booking.py:54-78 | a slot is found on a day iff the day is a weekday, the window is the start hour plus the duration, the window passes the time rules, and the room is available for it |
| RoomBooking.IntervalSlotsMembers | src/agents/agent_room_booking.py:48-78 | a slot is collected over the range of days iff it is found on one of those days |
| RoomBooking.DayCount | src/agents/agent_room_booking.py:50-53 | the loop visits no day exactly when the end date is before the start date |
| RoomBooking.AvailableSlots | src/agents/agent_room_booking.py:47-82 | the result of the interval search, sorted by (date, room capacity) |
| RoomBooking.AvailableSlotsSound | src/agents/agent_room_booking.py:53-78 | every returned slot has a date within [start date, end date] on a weekday, the requested window, a window that passes the time rules, and a room available for it |
| RoomBooking.AvailableSlotsComplete | src/agents/agent_room_booking.py:53-78 | every slot meeting all those conditions is returned |
| RoomBooking.AvailableSlotsSorted | src/agents/agent_room_booking.py:80-81 | the slots come earliest date first, then smallest room capacity first |
| RoomBooking.AvailableSlotsEmptyRange | src/agents/agent_room_booking.py:50-53 | an end date before the start date gives no slots |
| RoomBooking.NewBooking | src/agents/agent_room_booking.py:93-105 | the new booking has the given room, teacher, start and end; it has an activity iff a course is given, and that activity is a Lecture; it is not relocated and has no snapshot |
| RoomBooking.CreateBookingCanDoubleBook | src/agents/agent_room_booking.py:93-105 | no conflict check is made: a booking from s to s+2h and then one from s+1h to s+3h in the same room (different starts, so different individual names) overlap |
| RoomBooking.BookingOfferedSlotKeepsNoDoubleBooking | src/agents/agent_room_booking.py:47-105 | booking a slot that the interval search offered, before anything else changes, creates no double booking |
| RoomBooking.RelocationCapacity | src/agents/agent_room_booking.py:112-114 | the seats asked for are 0 when no course is attached |
| RoomBooking.Without | src/agents/agent_room_booking.py:125-126 | the filter keeps exactly the options whose room is not the booking's current room |
| RoomBooking.RelocationOptions | src/agents/agent_room_booking.py:118-126 | definition of the options list (the room search with the projector, minus the booking's own room); `RelocationOffersSmallest`, `RelocationPrefersEarlierRoom` and `RelocateFailure` state its meaning |
| RoomBooking.WithoutKeepsOrder | src/agents/agent_room_booking.py:125-126 | the filter keeps the options in the order they came in, whatever key they are sorted by |
| RoomBooking.Relocate | src/agents/agent_room_booking.py:107-134 | relocation keeps the rooms and equipment as they were, keeps the number of bookings, and leaves every booking in an existing room |
| RoomBooking.RelocateSuccess | src/agents/agent_room_booking.py:112-132 | on success the booking moves to a different room, which has the projector, enough seats and no overlapping booking, and has the least capacity of all such rooms; only the room of that booking changes, and its start and end stay the same |
| RoomBooking.RelocateTakesFirstListed | src/agents/agent_room_booking.py:128-131 | of several equally small rooms that qualify, the one listed first in the ontology is taken: every other qualifying room listed before the chosen one is strictly larger |
| RoomBooking.RelocationOffersSmallest | src/agents/agent_room_booking.py:118-129 | whenever another room qualifies, relocation has an option, and the first option has no more seats than that room |
| RoomBooking.RelocationPrefersEarlierRoom | src/agents/agent_room_booking.py:118-129 | a qualifying room other than the booking's own, listed before the first option, has more seats than that option |
| RoomBooking.RelocateFailure | src/agents/agent_room_booking.py:126-134 | relocation fails iff no other room qualifies, and a failure leaves the ontology untouched |
| RoomBooking.OwnRoomIsBusy | src/agents/agent_room_booking.py:118-126 | for a non-empty window, the search never offers the booking's own room |
| RoomBooking.RelocateKeepsNoDoubleBooking | src/agents/agent_room_booking.py:107-134 | relocation never creates a double booking |
| RoomBooking.RelocationIgnoresBrokenProjector | src/agents/agent_room_booking.py:117-123 | the projector test is membership of one individual, not its health: a booking that needs a broken projector is moved to another room holding that same projector and stays UnsuitableProjectorRoomBooking |
| RoomBooking.BookingAgent.constructor | src/agents/agent_room_booking.py:6-7 | the agent works on the given ontology |
| RoomBooking.BookingAgent.BookingsInRoom | src/agents/agent_room_booking.py:86 | a booking is returned iff it is in the ontology and booked in that room |
| RoomBooking.BookingAgent.IsRoomBusy | src/agents/agent_room_booking.py:84-91 | the room is busy iff some booking of it has start < its end and end > its start; bookings that merely touch do not conflict |
| RoomBooking.BookingAgent.GetAvailableRooms | src/agents/agent_room_booking.py:29-45 | the filtering loop and the sort return exactly `AvailableRooms` |
| RoomBooking.BookingAgent.SearchDay | src/agents/agent_room_booking.py:54-78 | one day of the interval loop returns exactly that day's slots |
| RoomBooking.BookingAgent.GetAvailableSlotsInInterval | src/agents/agent_room_booking.py:47-82 | the day loop and the sort return exactly `AvailableSlots` |
| RoomBooking.BookingAgent.CreateBooking | src/agents/agent_room_booking.py:93-105 | the ontology gains exactly one booking, the one `NewBooking` describes, at the end; nothing else changes |
| RoomBooking.BookingAgent.EmergencyRelocate | src/agents/agent_room_booking.py:107-134 | the flag, the message and the new ontology are exactly those of `Relocate` on the state before the call |
| RoomMaintenance.DayOffered | src/agents/agent_room_maintenance.py:15-21 | definition of the per-day test (a weekday, and the room free from 13:00 to 14:00); `MaintenanceSlotsExactly` states its meaning for the result |
| RoomMaintenance.MaintenanceSlots | src/agents/agent_room_maintenance.py:10-23 | the offers for the days after `today`, in date order; at most `num_days` of them |
| RoomMaintenance.MaintenanceSlotsExactly | src/agents/agent_room_maintenance.py:13-22 | an instant is offered iff it is 13:00 sharp on one of the days today+1 .. today+num_days, that day is a weekday, and the room is free from 13:00 to 14:00 |
| RoomMaintenance.MaintenanceSlotsIncreasing | src/agents/agent_room_maintenance.py:12-23 | the offers are strictly increasing and number at most num_days |
| RoomMaintenance.MaintenanceWindowIsLunchBlock | src/agents/agent_room_maintenance.py:17-18 | on a weekday the maintenance window is exactly the block the time rules refuse for lunch |
| RoomMaintenance.BookingOfferedMaintenanceKeepsNoDoubleBooking | src/agents/agent_room_maintenance.py:17-22 | booking an offered maintenance window creates no double booking |
| RoomMaintenance.MaintenanceBooking | src/agents/agent_room_maintenance.py:49-56 | the maintenance booking has the given room, start and end, a MaintenanceActivity, the name "System Maintenance" and no teacher |
| RoomMaintenance.MaintenanceBookingIsSuitable | src/agents/agent_room_maintenance.py:55 | a maintenance booking requires no equipment, so it is never UnsuitableProjectorRoomBooking |
| RoomMaintenance.AffectedInRoom | src/agents/agent_room_maintenance.py:29-30 | the filtered handles all name bookings of the ontology |
| RoomMaintenance.AffectedInRoomMembers | src/agents/agent_room_maintenance.py:29-30 | a handle is kept iff it is affected and its booking is in the given room |
| RoomMaintenance.Snapshot | src/agents/agent_room_maintenance.py:35-37 | an unset original start is set to the booking's start and end; a booking with a recorded original start is left as it is; room, times and flag never change |
| RoomMaintenance.RelocateAffected | src/agents/agent_room_maintenance.py:33-43 | one iteration keeps the rooms and equipment, the number of bookings, and every booking in an existing room |
| RoomMaintenance.RelocateAffectedEffect | src/agents/agent_room_maintenance.py:33-43 | one iteration changes only its booking: times unchanged, snapshot recorded only if unset, flag set iff the move succeeded, room changed iff the move succeeded |
| RoomMaintenance.RelocateAffectedKeepsNoDoubleBooking | src/agents/agent_room_maintenance.py:33-43 | one iteration never creates a double booking |
| RoomMaintenance.RelocateAll | src/agents/agent_room_maintenance.py:32-45 | the loop keeps the rooms and equipment, the number of bookings, and every booking in an existing room |
| RoomMaintenance.RelocateAllFrame | src/agents/agent_room_maintenance.py:33-43 | the loop leaves unvisited bookings as they were and changes no booking's start or end |
| RoomMaintenance.RelocateAllSnapshots | src/agents/agent_room_maintenance.py:35-37 | every visited booking afterwards has its original times recorded from its own times if it had none, and keeps an existing record otherwise, whether or not the move succeeded |
| RoomMaintenance.RelocateAllFlags | src/agents/agent_room_maintenance.py:40-42 | afterwards `is_relocated` holds exactly for the bookings that had it before or were relocated; it is never cleared |
| RoomMaintenance.RelocatedIsSubsequence | src/agents/agent_room_maintenance.py:32-45 | the returned list is an in-order subsequence of the bookings visited |
| RoomMaintenance.RelocatedOnlyVisited | src/agents/agent_room_maintenance.py:32-45 | every returned booking was one of those visited |
| RoomMaintenance.RelocatedIffMoved | src/agents/agent_room_maintenance.py:40-43 | when each booking is visited once, a booking is returned iff its room changed |
| RoomMaintenance.RelocateAllKeepsNoDoubleBooking | src/agents/agent_room_maintenance.py:25-45 | the whole relocation loop never creates a double booking |
| RoomMaintenance.MaintenanceAgent.constructor | src/agents/agent_room_maintenance.py:6-8 | the agent and its booking agent work on the given ontology |
| RoomMaintenance.MaintenanceAgent.GetMaintenanceSlots | src/agents/agent_room_maintenance.py:10-23 | the day loop returns exactly `MaintenanceSlots` for the days after `today` |
| RoomMaintenance.MaintenanceAgent.AutoRelocateAffected | src/agents/agent_room_maintenance.py:25-45 | the new ontology and the returned list are exactly `RelocateAll` over the affected bookings of the room, in order, from the state before the call |
| RoomMaintenance.MaintenanceAgent.RelocateOne | src/agents/agent_room_maintenance.py:33-43 | one loop body (snapshot, `emergency_relocate`, flag) leaves exactly the state and success flag of `RelocateAffected` |
| RoomMaintenance.MaintenanceAgent.AddMaintenanceBooking | src/agents/agent_room_maintenance.py:47-58 | the ontology gains exactly one booking, the one `MaintenanceBooking` describes, at the end; nothing else changes |

## Left out

- The reasoner and persistence are left out: `sync_reasoner`, `save()`, `clean_onto`, and owlready2's loading and saving of the `.owl` file. The inferred classes are closed-world predicates evaluated on the current state.
- RoomMaintenance.MaintenanceAgent.AutoRelocateAffected: the affected bookings are a parameter (a list of handles). The method queries `UnsuitableRoomBooking`, a class that `src/ontology/dei_department.py` does not declare. The closest declared class is `UnsuitableProjectorRoomBooking`, and which bookings a reasoner would place in the queried class is not visible.
- RoomMaintenance.RelocatedIffMoved: assumes each booking is visited at most once. This holds for the reasoner's `instances()` list.
- `for_course` is not a declared property, and no code shown sets it. The booking field `course` stands for it and is always `None` in bookings the agents create, so relocation asks for 0 seats.
- Individual names: the IDs built from timestamps and room names (`Booking_<ts>_<room>`, `Maint_<ts>_<room>`) are not modelled. A new booking is a fresh record with a fresh handle. What owlready2 does when two names collide is not visible.
- `datetime.now().date()` in `get_maintenance_slots` is the parameter `today`. The source reads the clock again on every pass of the loop (agent_room_maintenance.py:14); the model reads it once, so `MaintenanceSlotsExactly` and `GetMaintenanceSlots` describe a run that does not cross midnight. The default `num_days=3` is not modelled, so the caller passes the day count.
- The `print` calls in `emergency_relocate` and in `save()` are console output and are left out.
- RoomBooking.BookingAgent.GetAvailableSlotsInInterval: requires a start hour in 0..23. Outside that range, `datetime.replace(hour=...)` raises `ValueError` as soon as the range reaches a weekday; a range that is empty or holds only weekend days returns `[]` without raising. Neither the exception path nor that empty result for a bad hour is modelled. The menu only passes 9..19.
- The menus in `src/interface.py` are left out; they are input/output only. `src/ontology/ontology_data.py` only populates example data and is also left out.
- `onto.search_one(has_name="Standard Projector")` searches every individual. The model searches only the equipment, which is the only kind of individual the code gives that name.
- Rooms and equipment are identified by position. Only the properties the core reads are modelled: room name, capacity and equipment; equipment name and `is_broken`; a course's name and required capacity. Teachers, students, academic classes and days of the week are bare identifiers.
- Python's built-in `list.sort` is modelled by its specification, a stable sort on the same key, not by its algorithm (Timsort).
- Owlready2's open-world semantics is reduced to one stored value per functional property. An unset `is_broken` or `is_relocated` reads as false. `booked_by`, `for_activity`, `occurs_on_day`, `original_start_time`, `original_end_time` and `for_course` may be unset (`None`).
- A booking's `booked_in_room`, `has_start_time`, `has_end_time` and `has_name`, a room's `has_capacity` and `has_name`, and an equipment item's `has_name` are always present in the model. In the source they can be unset, and the code then fails. These error paths are not modelled:
  - an unset `has_capacity` makes the comparison in `get_available_rooms` raise `TypeError` (src/agents/agent_room_booking.py:32);
  - an unset `has_start_time` or `has_end_time` makes the overlap test in `_is_room_busy` raise `TypeError` (src/agents/agent_room_booking.py:89);
  - an unset `booked_in_room` makes `emergency_relocate` raise `AttributeError` when it reads the old room's name (src/agents/agent_room_booking.py:130).
- Concurrency and the interleaving of the two agents are not modelled. Each operation runs to completion on the shared ontology.
