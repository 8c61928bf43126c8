/** The maintenance agent (src/agents/agent_room_maintenance.py): offers of
    the 13:00–14:00 maintenance window, relocation of the bookings a repair
    makes unsuitable, and creation of maintenance bookings. */
module RoomMaintenance {
  import opened Calendar
  import opened DeiDepartment
  import opened RoomBooking

  // ==== Maintenance offers (get_maintenance_slots) ==========================

  /** Start of the maintenance window on day `d`: `combine(d, time(13, 0))`. */
  function MaintenanceStart(d: Day): (t: Instant)
  {
    At(d, 13, 0)
  }

  /** `dt_start + timedelta(hours=1)` */
  function MaintenanceEnd(s: Instant): (e: Instant)
  {
    AddHours(s, 1)
  }

  /** Day `today + k` is offered: a weekday on which the room is free for the window. */
  predicate DayOffered(bookings: seq<Booking>, room: RoomId, d: Day)
  {
    !IsWeekend(d) && !RoomBusy(bookings, room, MaintenanceStart(d), MaintenanceEnd(MaintenanceStart(d)))
  }

  /** The offers for the days `today + 1 .. today + numDays`, in date order. */
  function MaintenanceSlots(bookings: seq<Booking>, room: RoomId, today: Day, numDays: int): (r: seq<Instant>)
    ensures |r| <= (if numDays < 0 then 0 else numDays)
    decreases numDays
  {
    if numDays <= 0 then []
    else
      MaintenanceSlots(bookings, room, today, numDays - 1)
        + (if DayOffered(bookings, room, today + numDays) then [MaintenanceStart(today + numDays)] else [])
  }

  /** What an offer is: 13:00 sharp on one of the next `numDays` days, a
      weekday, with the room free from 13:00 to 14:00. */
  predicate MaintenanceOffer(bookings: seq<Booking>, room: RoomId, today: Day, numDays: int, x: Instant)
  {
    && today < DayOf(x) <= today + numDays
    && HourOf(x) == 13 && MinuteOf(x) == 0
    && !IsWeekend(DayOf(x))
    && !RoomBusy(bookings, room, x, MaintenanceEnd(x))
  }

  lemma MaintenanceStartParts(d: Day)
    ensures DayOf(MaintenanceStart(d)) == d && HourOf(MaintenanceStart(d)) == 13 && MinuteOf(MaintenanceStart(d)) == 0
  {
    AtParts(d, 13, 0);
  }

  /** An instant at 13:00 is the maintenance start of its own day. */
  lemma ThirteenOClock(x: Instant)
    requires HourOf(x) == 13 && MinuteOf(x) == 0
    ensures x == MaintenanceStart(DayOf(x))
  {
    ClockParts(x);
  }

  /** The offers are exactly the instants meeting `MaintenanceOffer`. */
  lemma {:induction false} MaintenanceSlotsExactly(bookings: seq<Booking>, room: RoomId, today: Day, numDays: int, x: Instant)
    ensures x in MaintenanceSlots(bookings, room, today, numDays) <==> MaintenanceOffer(bookings, room, today, numDays, x)
    decreases numDays
  {
    if numDays > 0 {
      MaintenanceSlotsExactly(bookings, room, today, numDays - 1, x);
      var d := today + numDays;
      MaintenanceStartParts(d);
      if HourOf(x) == 13 && MinuteOf(x) == 0 {
        ThirteenOClock(x);
      }
    }
  }

  /** Offers come in strictly increasing order, at most one per day asked for. */
  lemma {:induction false} MaintenanceSlotsIncreasing(bookings: seq<Booking>, room: RoomId, today: Day, numDays: int)
    ensures var r := MaintenanceSlots(bookings, room, today, numDays);
      && (forall i, j :: 0 <= i < j < |r| ==> r[i] < r[j])
      && |r| <= (if numDays < 0 then 0 else numDays)
    decreases numDays
  {
    if numDays > 0 {
      var prev := MaintenanceSlots(bookings, room, today, numDays - 1);
      MaintenanceSlotsIncreasing(bookings, room, today, numDays - 1);
      var d := today + numDays;
      var r := MaintenanceSlots(bookings, room, today, numDays);
      forall i, j | 0 <= i < j < |r| ensures r[i] < r[j] {
        if j == |prev| {
          assert r[i] == prev[i] && r[i] in prev;
          MaintenanceSlotsExactly(bookings, room, today, numDays - 1, r[i]);
          ThirteenOClock(r[i]);
          assert DayOf(r[i]) < d;
        } else {
          assert r[i] == prev[i] && r[j] == prev[j];
        }
      }
    }
  }

  /** The maintenance window is exactly the lunch block, so the time rules
      refuse it to ordinary bookings. */
  lemma MaintenanceWindowIsLunchBlock(d: Day)
    requires !IsWeekend(d)
    ensures ValidateTimeSlots(MaintenanceStart(d), MaintenanceEnd(MaintenanceStart(d))) == LunchBlock
  {
    MaintenanceStartParts(d);
    AtParts(d, 14, 0);
    AddHoursSameDay(d, 13, 1);
  }

  // ==== Maintenance bookings (add_maintenance_booking) ======================

  /** The booking `add_maintenance_booking` creates: a fresh MaintenanceActivity,
      no teacher, no day, named "System Maintenance". */
  function MaintenanceBooking(room: RoomId, s: Instant, e: Instant): (b: Booking)
    ensures b.room == room && b.start == s && b.end == e && b.bookedBy.None?
    ensures b.activity.Some? && b.activity.value.kind == MaintenanceActivity
    ensures b.name == "System Maintenance"
    ensures !RelocatedBooking(b)
  {
    Booking(room, None, s, e, Some(Activity(MaintenanceActivity, {}, None)), None, "System Maintenance", None, None, false, None)
  }

  /** A maintenance booking, requiring no equipment, is never flagged as
      UnsuitableProjectorRoomBooking, however broken the equipment is. */
  lemma MaintenanceBookingIsSuitable(st: Store, room: RoomId, s: Instant, e: Instant)
    ensures !UnsuitableProjectorRoomBooking(st, MaintenanceBooking(room, s, e))
  {
  }

  /** Booking an offered window creates no double booking. */
  lemma BookingOfferedMaintenanceKeepsNoDoubleBooking(bookings: seq<Booking>, room: RoomId, today: Day, numDays: int, x: Instant)
    requires NoDoubleBooking(bookings)
    requires x in MaintenanceSlots(bookings, room, today, numDays)
    ensures NoDoubleBooking(bookings + [MaintenanceBooking(room, x, MaintenanceEnd(x))])
  {
    MaintenanceSlotsExactly(bookings, room, today, numDays, x);
    AddFreeBookingKeepsNoDoubleBooking(bookings, MaintenanceBooking(room, x, MaintenanceEnd(x)));
  }

  // ==== Relocation of affected bookings (auto_relocate_affected) ============

  /** Every handle in `hs` names one of `n` bookings. */
  predicate Handles(hs: seq<nat>, n: nat)
  {
    forall i :: 0 <= i < |hs| ==> hs[i] < n
  }

  /** `[b for b in affected if b.booked_in_room == room]`, in order. */
  function AffectedInRoom(bookings: seq<Booking>, affected: seq<nat>, room: RoomId): (r: seq<nat>)
    requires Handles(affected, |bookings|)
    ensures Handles(r, |bookings|)
    decreases |affected|
  {
    if affected == [] then []
    else
      var init, last := affected[..|affected| - 1], affected[|affected| - 1];
      AffectedInRoom(bookings, init, room) + (if bookings[last].room == room then [last] else [])
  }

  /** The filter keeps exactly the affected bookings in `room`. */
  lemma {:induction false} AffectedInRoomMembers(bookings: seq<Booking>, affected: seq<nat>, room: RoomId)
    requires Handles(affected, |bookings|)
    ensures forall h :: h in AffectedInRoom(bookings, affected, room) <==> h in affected && bookings[h].room == room
    decreases |affected|
  {
    if affected != [] {
      var init, last := affected[..|affected| - 1], affected[|affected| - 1];
      assert affected == init + [last];
      AffectedInRoomMembers(bookings, init, room);
    }
  }

  /** Steps 1–2 for one booking, before the relocation attempt: record the
      original times unless they are already recorded. */
  function Snapshot(b: Booking): (r: Booking)
    ensures r.room == b.room && r.start == b.start && r.end == b.end && r.isRelocated == b.isRelocated
    ensures b.originalStart.Some? ==> r == b
    ensures b.originalStart.None? ==> r.originalStart == Some(b.start) && r.originalEnd == Some(b.end)
  {
    if b.originalStart.None? then b.(originalStart := Some(b.start), originalEnd := Some(b.end)) else b
  }

  /** The ontology with booking `h` snapshotted. */
  function Snapshotted(st: Store, h: nat): (r: Store)
    requires h < |st.bookings|
  {
    st.(bookings := st.bookings[h := Snapshot(st.bookings[h])])
  }

  lemma SnapshottedWellFormed(st: Store, h: nat)
    requires WellFormed(st) && h < |st.bookings|
    ensures WellFormed(Snapshotted(st, h))
  {
    var snap := Snapshotted(st, h);
    forall x | x in snap.bookings ensures x.room < |st.rooms| {
      var i :| 0 <= i < |snap.bookings| && snap.bookings[i] == x;
      assert x.room == st.bookings[i].room && st.bookings[i] in st.bookings;
    }
  }

  /** One iteration of the loop on the booking with handle `h`: snapshot,
      `emergency_relocate`, and on success the `is_relocated` flag. */
  function RelocateAffected(st: Store, h: nat): (r: (Store, bool))
    requires WellFormed(st) && h < |st.bookings|
    ensures WellFormed(r.0) && r.0.rooms == st.rooms && r.0.equipment == st.equipment
    ensures |r.0.bookings| == |st.bookings|
  {
    SnapshottedWellFormed(st, h);
    var o := Relocate(Snapshotted(st, h), h);
    if o.ok then
      var flagged := o.store.(bookings := o.store.bookings[h := o.store.bookings[h].(isRelocated := true)]);
      assert WellFormed(flagged) by {
        forall x | x in flagged.bookings ensures x.room < |st.rooms| {
          var i :| 0 <= i < |flagged.bookings| && flagged.bookings[i] == x;
          assert x.room == o.store.bookings[i].room && o.store.bookings[i] in o.store.bookings;
        }
      }
      (flagged, true)
    else (o.store, false)
  }

  /** One iteration, given the outcome of the relocation attempt. */
  lemma RelocateAffectedByOutcome(st: Store, h: nat, after: Store, ok: bool)
    requires WellFormed(st) && h < |st.bookings|
    requires WellFormed(Snapshotted(st, h))
    requires Relocate(Snapshotted(st, h), h).store == after && Relocate(Snapshotted(st, h), h).ok == ok
    ensures h < |after.bookings|
    ensures RelocateAffected(st, h) == (if ok then after.(bookings := after.bookings[h := after.bookings[h].(isRelocated := true)]) else after, ok)
  {
  }

  /** The whole loop over `hs`: the ontology afterwards and `relocated_list`. */
  function RelocateAll(st: Store, hs: seq<nat>): (r: (Store, seq<nat>))
    requires WellFormed(st) && Handles(hs, |st.bookings|)
    ensures WellFormed(r.0) && r.0.rooms == st.rooms && r.0.equipment == st.equipment
    ensures |r.0.bookings| == |st.bookings|
    decreases |hs|
  {
    if hs == [] then (st, [])
    else
      var init, last := hs[..|hs| - 1], hs[|hs| - 1];
      var (mid, relocated) := RelocateAll(st, init);
      var (next, ok) := RelocateAffected(mid, last);
      (next, if ok then relocated + [last] else relocated)
  }

  /** The same rooms and times, booking by booking. */
  predicate SameSchedule(a: seq<Booking>, b: seq<Booking>)
  {
    |a| == |b| && forall i :: 0 <= i < |a| ==> a[i].room == b[i].room && a[i].start == b[i].start && a[i].end == b[i].end
  }

  /** Double booking depends only on rooms and times. */
  lemma SameScheduleNoDoubleBooking(a: seq<Booking>, b: seq<Booking>)
    requires SameSchedule(a, b) && NoDoubleBooking(a)
    ensures NoDoubleBooking(b)
  {
    forall i, j | 0 <= i < |b| && 0 <= j < |b| && i != j && b[i].room == b[j].room
      ensures !Overlaps(b[i], b[j].start, b[j].end)
    {
      assert !Overlaps(a[i], a[j].start, a[j].end);
    }
  }

  /** What one step does to the bookings `a`, giving `b`: only booking `h`
      changes; its times, name, activity, teacher and course stay; its
      original times are recorded if missing; its flag is set and its room
      changes exactly when the relocation succeeded (`ok`). */
  predicate StepEffect(a: seq<Booking>, h: nat, b: seq<Booking>, ok: bool)
  {
    && |b| == |a| && h < |a|
    && (forall j :: 0 <= j < |a| && j != h ==> b[j] == a[j])
    && b[h].start == a[h].start && b[h].end == a[h].end
    && b[h].originalStart == Snapshot(a[h]).originalStart && b[h].originalEnd == Snapshot(a[h]).originalEnd
    && b[h].isRelocated == (a[h].isRelocated || ok)
    && (b[h].room != a[h].room <==> ok)
    && b[h].name == a[h].name && b[h].activity == a[h].activity
    && b[h].bookedBy == a[h].bookedBy && b[h].course == a[h].course
  }

  /** One iteration does exactly `StepEffect`. */
  lemma RelocateAffectedEffect(st: Store, h: nat)
    requires WellFormed(st) && h < |st.bookings|
    ensures StepEffect(st.bookings, h, RelocateAffected(st, h).0.bookings, RelocateAffected(st, h).1)
  {
    var snap := Snapshotted(st, h);
    SnapshottedWellFormed(st, h);
    RelocateFailure(snap, h);
    if Relocate(snap, h).ok {
      RelocateSuccess(snap, h);
    }
  }

  /** One iteration never creates a double booking. */
  lemma RelocateAffectedKeepsNoDoubleBooking(st: Store, h: nat)
    requires WellFormed(st) && h < |st.bookings| && NoDoubleBooking(st.bookings)
    ensures NoDoubleBooking(RelocateAffected(st, h).0.bookings)
  {
    var snap := Snapshotted(st, h);
    SnapshottedWellFormed(st, h);
    SameScheduleNoDoubleBooking(st.bookings, snap.bookings);
    RelocateKeepsNoDoubleBooking(snap, h);
    var o := Relocate(snap, h);
    if o.ok {
      var flagged := o.store.bookings[h := o.store.bookings[h].(isRelocated := true)];
      SameScheduleNoDoubleBooking(o.store.bookings, flagged);
    }
  }

  /** The last iteration of the loop, in terms of the loop up to it. */
  lemma {:induction false} RelocateAllLast(st: Store, hs: seq<nat>)
    requires WellFormed(st) && Handles(hs, |st.bookings|)
    requires hs != []
    ensures Handles(hs[..|hs| - 1], |st.bookings|)
    ensures var (mid, before) := RelocateAll(st, hs[..|hs| - 1]);
      var (after, relocated) := RelocateAll(st, hs);
      && StepEffect(mid.bookings, hs[|hs| - 1], after.bookings, |relocated| > |before|)
      && relocated == (if |relocated| > |before| then before + [hs[|hs| - 1]] else before)
  {
    var init, last := hs[..|hs| - 1], hs[|hs| - 1];
    assert Handles(init, |st.bookings|);
    var (mid, before) := RelocateAll(st, init);
    var (next, ok) := RelocateAffected(mid, last);
    assert RelocateAll(st, hs) == (next, if ok then before + [last] else before);
    RelocateAffectedEffect(mid, last);
  }

  /** The loop over a prefix of `hs` one element longer. */
  lemma {:induction false} RelocateAllPrefix(st: Store, hs: seq<nat>, k: nat)
    requires WellFormed(st) && Handles(hs, |st.bookings|) && k < |hs|
    ensures Handles(hs[..k], |st.bookings|) && Handles(hs[..k + 1], |st.bookings|)
    ensures var (mid, before) := RelocateAll(st, hs[..k]);
      var (next, ok) := RelocateAffected(mid, hs[k]);
      RelocateAll(st, hs[..k + 1]) == (next, if ok then before + [hs[k]] else before)
  {
    assert hs[..k + 1][..k] == hs[..k];
  }

  /** The loop changes only the bookings it visits, never their times. */
  lemma {:induction false} RelocateAllFrame(st: Store, hs: seq<nat>)
    requires WellFormed(st) && Handles(hs, |st.bookings|)
    ensures var st' := RelocateAll(st, hs).0;
      && (forall j :: 0 <= j < |st.bookings| && j !in hs ==> st'.bookings[j] == st.bookings[j])
      && (forall j :: 0 <= j < |st.bookings| ==> st'.bookings[j].start == st.bookings[j].start && st'.bookings[j].end == st.bookings[j].end)
    decreases |hs|
  {
    if hs != [] {
      var init, last := hs[..|hs| - 1], hs[|hs| - 1];
      RelocateAllLast(st, hs);
      RelocateAllFrame(st, init);
      var a, m, b := st.bookings, RelocateAll(st, init).0.bookings, RelocateAll(st, hs).0.bookings;
      forall j | 0 <= j < |a| && j !in hs ensures b[j] == a[j] {
        assert j != last && j !in init;
      }
      forall j | 0 <= j < |a| ensures b[j].start == a[j].start && b[j].end == a[j].end {
        if j != last {
          assert b[j] == m[j];
        }
      }
    }
  }

  /** The original times are recorded for every visited booking that had
      none, from its (unchanged) times, and an existing record is kept. */
  lemma {:induction false} RelocateAllSnapshots(st: Store, hs: seq<nat>)
    requires WellFormed(st) && Handles(hs, |st.bookings|)
    ensures var st' := RelocateAll(st, hs).0;
      forall j :: j in hs ==>
        st'.bookings[j].originalStart == Snapshot(st.bookings[j]).originalStart
        && st'.bookings[j].originalEnd == Snapshot(st.bookings[j]).originalEnd
    decreases |hs|
  {
    if hs != [] {
      var init, last := hs[..|hs| - 1], hs[|hs| - 1];
      RelocateAllLast(st, hs);
      RelocateAllSnapshots(st, init);
      RelocateAllFrame(st, init);
      SnapshotsStep(st.bookings, RelocateAll(st, init).0.bookings, RelocateAll(st, hs).0.bookings, hs,
        |RelocateAll(st, hs).1| > |RelocateAll(st, init).1|);
    }
  }

  lemma SnapshotsStep(a: seq<Booking>, m: seq<Booking>, b: seq<Booking>, hs: seq<nat>, ok: bool)
    requires |m| == |a| && hs != [] && Handles(hs, |a|)
    requires forall j :: j in hs[..|hs| - 1] ==>
      m[j].originalStart == Snapshot(a[j]).originalStart && m[j].originalEnd == Snapshot(a[j]).originalEnd
    requires forall j :: 0 <= j < |a| && j !in hs[..|hs| - 1] ==> m[j] == a[j]
    requires StepEffect(m, hs[|hs| - 1], b, ok)
    ensures forall j :: j in hs ==>
      b[j].originalStart == Snapshot(a[j]).originalStart && b[j].originalEnd == Snapshot(a[j]).originalEnd
  {
    var init, last := hs[..|hs| - 1], hs[|hs| - 1];
    assert hs == init + [last];
    forall j | j in hs
      ensures b[j].originalStart == Snapshot(a[j]).originalStart && b[j].originalEnd == Snapshot(a[j]).originalEnd
    {
      if j != last {
        assert j in init && b[j] == m[j];
      } else if j !in init {
        assert m[j] == a[j];
      }
    }
  }

  /** `is_relocated` is true afterwards exactly for the bookings that had it
      or were relocated; it is never cleared. */
  lemma {:induction false} RelocateAllFlags(st: Store, hs: seq<nat>)
    requires WellFormed(st) && Handles(hs, |st.bookings|)
    ensures var (st', relocated) := RelocateAll(st, hs);
      forall j :: 0 <= j < |st.bookings| ==> (st'.bookings[j].isRelocated <==> st.bookings[j].isRelocated || j in relocated)
    decreases |hs|
  {
    if hs != [] {
      var init, last := hs[..|hs| - 1], hs[|hs| - 1];
      RelocateAllLast(st, hs);
      RelocateAllFlags(st, init);
      FlagsStep(st.bookings, RelocateAll(st, init).0.bookings, RelocateAll(st, hs).0.bookings, last,
        RelocateAll(st, init).1, RelocateAll(st, hs).1);
    }
  }

  lemma FlagsStep(a: seq<Booking>, m: seq<Booking>, b: seq<Booking>, last: nat, before: seq<nat>, relocated: seq<nat>)
    requires |m| == |a|
    requires forall j :: 0 <= j < |a| ==> (m[j].isRelocated <==> a[j].isRelocated || j in before)
    requires StepEffect(m, last, b, |relocated| > |before|)
    requires relocated == (if |relocated| > |before| then before + [last] else before)
    ensures forall j :: 0 <= j < |a| ==> (b[j].isRelocated <==> a[j].isRelocated || j in relocated)
  {
    forall j | 0 <= j < |a|
      ensures b[j].isRelocated <==> a[j].isRelocated || j in relocated
    {
      if j != last {
        assert b[j] == m[j];
        assert j in relocated <==> j in before;
      }
    }
  }

  /** `xs` is `ys` with some entries left out, the rest in order. */
  predicate Subsequence(xs: seq<nat>, ys: seq<nat>)
    decreases |ys|
  {
    if ys == [] then xs == []
    else
      Subsequence(xs, ys[..|ys| - 1])
      || (xs != [] && xs[|xs| - 1] == ys[|ys| - 1] && Subsequence(xs[..|xs| - 1], ys[..|ys| - 1]))
  }

  /** `relocated_list` keeps the visiting order and holds only visited bookings. */
  lemma {:induction false} RelocatedIsSubsequence(st: Store, hs: seq<nat>)
    requires WellFormed(st) && Handles(hs, |st.bookings|)
    ensures Subsequence(RelocateAll(st, hs).1, hs)
    decreases |hs|
  {
    if hs != [] {
      RelocateAllLast(st, hs);
      RelocatedIsSubsequence(st, hs[..|hs| - 1]);
      SubsequenceStep(RelocateAll(st, hs[..|hs| - 1]).1, RelocateAll(st, hs).1, hs);
    }
  }

  lemma SubsequenceStep(before: seq<nat>, relocated: seq<nat>, hs: seq<nat>)
    requires hs != [] && Subsequence(before, hs[..|hs| - 1])
    requires relocated == (if |relocated| > |before| then before + [hs[|hs| - 1]] else before)
    ensures Subsequence(relocated, hs)
  {
    if |relocated| > |before| {
      assert relocated[..|relocated| - 1] == before;
    }
  }

  lemma {:induction false} RelocatedOnlyVisited(st: Store, hs: seq<nat>)
    requires WellFormed(st) && Handles(hs, |st.bookings|)
    ensures forall j :: j in RelocateAll(st, hs).1 ==> j in hs
    decreases |hs|
  {
    if hs != [] {
      RelocateAllLast(st, hs);
      RelocatedOnlyVisited(st, hs[..|hs| - 1]);
    }
  }

  /** When every booking is visited once, a booking is in `relocated_list`
      exactly when its room changed. */
  lemma {:induction false} RelocatedIffMoved(st: Store, hs: seq<nat>)
    requires WellFormed(st) && Handles(hs, |st.bookings|)
    requires forall i, j :: 0 <= i < j < |hs| ==> hs[i] != hs[j]
    ensures var (st', relocated) := RelocateAll(st, hs);
      forall j :: 0 <= j < |st.bookings| ==> (j in relocated <==> st'.bookings[j].room != st.bookings[j].room)
    decreases |hs|
  {
    if hs != [] {
      var init, last := hs[..|hs| - 1], hs[|hs| - 1];
      RelocateAllLast(st, hs);
      RelocatedIffMoved(st, init);
      RelocateAllFrame(st, init);
      RelocatedOnlyVisited(st, init);
      MovedStep(st.bookings, RelocateAll(st, init).0.bookings, RelocateAll(st, hs).0.bookings, hs,
        RelocateAll(st, init).1, RelocateAll(st, hs).1);
    }
  }

  lemma MovedStep(a: seq<Booking>, m: seq<Booking>, b: seq<Booking>, hs: seq<nat>, before: seq<nat>, relocated: seq<nat>)
    requires |m| == |a| && hs != []
    requires forall i, j :: 0 <= i < j < |hs| ==> hs[i] != hs[j]
    requires forall j :: 0 <= j < |a| ==> (j in before <==> m[j].room != a[j].room)
    requires forall j :: 0 <= j < |a| && j !in hs[..|hs| - 1] ==> m[j] == a[j]
    requires forall j :: j in before ==> j in hs[..|hs| - 1]
    requires StepEffect(m, hs[|hs| - 1], b, |relocated| > |before|)
    requires relocated == (if |relocated| > |before| then before + [hs[|hs| - 1]] else before)
    ensures forall j :: 0 <= j < |a| ==> (j in relocated <==> b[j].room != a[j].room)
  {
    var init, last := hs[..|hs| - 1], hs[|hs| - 1];
    forall i | 0 <= i < |init| ensures init[i] != last {
      assert init[i] == hs[i];
    }
    forall j | 0 <= j < |a|
      ensures j in relocated <==> b[j].room != a[j].room
    {
      if j != last {
        assert b[j] == m[j];
        assert j in relocated <==> j in before;
      } else {
        assert last !in init;
        assert m[j] == a[j];
        assert j !in before;
      }
    }
  }

  /** The loop never creates a double booking. */
  lemma {:induction false} RelocateAllKeepsNoDoubleBooking(st: Store, hs: seq<nat>)
    requires WellFormed(st) && Handles(hs, |st.bookings|)
    requires NoDoubleBooking(st.bookings)
    ensures NoDoubleBooking(RelocateAll(st, hs).0.bookings)
    decreases |hs|
  {
    if hs != [] {
      var init, last := hs[..|hs| - 1], hs[|hs| - 1];
      RelocateAllKeepsNoDoubleBooking(st, init);
      RelocateAffectedKeepsNoDoubleBooking(RelocateAll(st, init).0, last);
    }
  }

  // ==== The agent over the live ontology ====================================

  class MaintenanceAgent {
    const onto: Ontology
    const bookingAgent: BookingAgent

    /** The booking agent works on the same ontology. */
    ghost predicate Valid()
    {
      bookingAgent.onto == onto
    }

    constructor (onto: Ontology)
      ensures this.onto == onto && Valid()
    {
      this.onto := onto;
      bookingAgent := new BookingAgent(onto);
    }

    /** `get_maintenance_slots(room, num_days)`, with `today` standing for
        `datetime.now().date()`. */
    method GetMaintenanceSlots(room: RoomId, numDays: int, today: Day) returns (slots: seq<Instant>)
      requires Valid()
      ensures slots == MaintenanceSlots(onto.bookings, room, today, numDays)
    {
      slots := [];
      var i := 1;
      while i <= numDays
        invariant 1 <= i && (i <= numDays + 1 || i == 1)
        invariant slots == MaintenanceSlots(onto.bookings, room, today, i - 1)
      {
        var day := today + i;
        if Weekday(day) < 5 {
          var dtStart := At(day, 13, 0);
          var dtEnd := AddHours(dtStart, 1);
          var busy := bookingAgent.IsRoomBusy(room, dtStart, dtEnd);
          if !busy {
            slots := slots + [dtStart];
          }
        }
        i := i + 1;
      }
    }

    /** `auto_relocate_affected(room)`, with the reasoner's
        `UnsuitableRoomBooking` instances given as the handles `affected`. */
    method AutoRelocateAffected(room: RoomId, affected: seq<nat>) returns (relocated: seq<nat>)
      requires Valid() && WellFormed(onto.State())
      requires Handles(affected, |onto.bookings|)
      modifies onto
      ensures (onto.State(), relocated) == RelocateAll(old(onto.State()), AffectedInRoom(old(onto.bookings), affected, room))
    {
      var targets := AffectedInRoom(onto.bookings, affected, room);
      ghost var st0 := onto.State();
      relocated := [];
      for k := 0 to |targets|
        invariant Handles(targets[..k], |st0.bookings|)
        invariant (onto.State(), relocated) == RelocateAll(st0, targets[..k])
      {
        RelocateAllPrefix(st0, targets, k);
        var h := targets[k];
        var ok := RelocateOne(h);
        if ok {
          relocated := relocated + [h];
        }
      }
      assert targets[..|targets|] == targets;
    }

    /** The body of the loop in `auto_relocate_affected` for the booking
        with handle `h`: snapshot, `emergency_relocate`, flag. */
    method RelocateOne(h: nat) returns (ok: bool)
      requires Valid() && WellFormed(onto.State()) && h < |onto.bookings|
      modifies onto
      ensures (onto.State(), ok) == RelocateAffected(old(onto.State()), h)
    {
      ghost var st := onto.State();
      var b := onto.bookings[h];
      if b.originalStart.None? {
        onto.bookings := onto.bookings[h := b.(originalStart := Some(b.start), originalEnd := Some(b.end))];
      } else {
        assert onto.bookings == onto.bookings[h := Snapshot(b)];
      }
      assert onto.State() == Snapshotted(st, h);
      SnapshottedWellFormed(st, h);
      var msg;
      ok, msg := bookingAgent.EmergencyRelocate(h);
      RelocateAffectedByOutcome(st, h, onto.State(), ok);
      if ok {
        onto.bookings := onto.bookings[h := onto.bookings[h].(isRelocated := true)];
      }
    }

    /** `add_maintenance_booking(room, start_t, end_t)`; the new booking's
        handle is returned. */
    method AddMaintenanceBooking(room: RoomId, s: Instant, e: Instant) returns (h: nat)
      requires WellFormed(onto.State()) && room < |onto.rooms|
      modifies onto
      ensures h == |old(onto.bookings)|
      ensures onto.State() == WithBooking(old(onto.State()), MaintenanceBooking(room, s, e))
      ensures WellFormed(onto.State())
    {
      h := |onto.bookings|;
      onto.bookings := onto.bookings + [MaintenanceBooking(room, s, e)];
    }
  }
}
