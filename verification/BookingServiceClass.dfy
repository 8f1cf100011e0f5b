/** The booking service in its own form: one request at a time over the store's methods. Each method
    does what the request's steps do when nothing comes between them. */
module BookingServiceClass {
  import opened BookingDomain
  import opened BookingStore
  import opened BookingService
  import opened BookingConflicts
  import opened BookingStoreClass

  /** The state after a request has arrived and taken n steps without interruption. */
  ghost function After(s: State, req: Request, n: nat): (r: State)
    ensures 0 in r.procs
  {
    if n == 0 then Do(s, Arrive(0, req)) else Do(After(s, req, n - 1), Step(0))
  }

  /** A finished request takes no more steps. */
  lemma FinishedStays(s: State, req: Request, k: nat, n: nat)
    requires k <= n && After(s, req, k).procs[0].pc.Done?
    ensures After(s, req, n) == After(s, req, k)
  {
    if k < n { FinishedStays(s, req, k, n - 1); }
  }

  datatype ScheduleItem = ScheduleItem(start: int, end: int, kind: string, teacher: string, groupNumbers: seq<string>)

  function ScheduleType(d: Details): string {
    if d.subject == "" && d.lessonType == "" then "booking"
    else if d.subject == "" then d.lessonType
    else if d.lessonType == "" then d.subject
    else d.lessonType + ": " + d.subject
  }

  function Item(b: Booking): ScheduleItem {
    ScheduleItem(b.start, b.end, ScheduleType(b.details), b.details.teacher, b.details.groupNumbers)
  }

  /** What is shown of a booking. */
  ghost predicate Shows(item: ScheduleItem, b: Booking) {
    && item.start == b.start && item.end == b.end
    && item.teacher == b.details.teacher && item.groupNumbers == b.details.groupNumbers
    && (b.details.subject == "" && b.details.lessonType == "" ==> item.kind == "booking")
    && (b.details.subject == "" && b.details.lessonType != "" ==> item.kind == b.details.lessonType)
    && (b.details.subject != "" && b.details.lessonType == "" ==> item.kind == b.details.subject)
    && (b.details.subject != "" && b.details.lessonType != "" ==>
          item.kind == b.details.lessonType + ": " + b.details.subject)
  }

  /** One item for each of the bookings, in their order. */
  ghost predicate ItemsOf(bookings: map<int, Booking>, ids: seq<int>, items: seq<ScheduleItem>) {
    |items| == |ids| && forall k | 0 <= k < |ids| :: ids[k] in bookings && Shows(items[k], bookings[ids[k]])
  }

  lemma ItemShows(b: Booking, item: ScheduleItem)
    requires item == Item(b)
    ensures Shows(item, b)
  {
  }

  lemma EndsApart(bookings: map<int, Booking>, ids: seq<int>, items: seq<ScheduleItem>)
    requires ItemsOf(bookings, ids, items)
    requires forall k, l | 0 <= k < l < |ids| ::
               ids[k] in bookings && ids[l] in bookings && bookings[ids[k]].end <= bookings[ids[l]].start
    ensures forall k, l | 0 <= k < l < |items| :: items[k].end <= items[l].start
  {
    forall k, l | 0 <= k < l < |items| ensures items[k].end <= items[l].start {
      assert Shows(items[k], bookings[ids[k]]) && Shows(items[l], bookings[ids[l]]);
    }
  }

  class Service {
    const store: Store
    var events: seq<Event>

    constructor (store: Store)
      ensures this.store == store && events == []
    {
      this.store := store;
      events := [];
    }

    ghost function Idle(): State
      reads this, store
    {
      State(store.Value(), map[], events)
    }

    /** The timetable of a room: every booking once, in order of time, none overlapping the next. */
    method GetRoomSchedule(roomId: int) returns (r: Result<seq<ScheduleItem>>)
      requires store.Valid()
      ensures r.Err? <==> roomId !in store.rooms
      ensures r.Err? ==> r.error == RoomNotFound
      ensures r.Ok? ==> exists ids :: Listing(store.bookings, roomId, ids) && ItemsOf(store.bookings, ids, r.value)
      ensures r.Ok? ==> forall k, l | 0 <= k < l < |r.value| :: r.value[k].end <= r.value[l].start
    {
      hide Shows, ScheduleType;
      var room := store.GetByID(roomId);
      if room.Err? { return Err(room.error); }
      var ids := store.ListByRoomID(roomId);
      ListingIsChronological(store.Value(), roomId, ids);
      var schedule: seq<ScheduleItem> := [];
      for k := 0 to |ids|
        invariant ItemsOf(store.bookings, ids[..k], schedule)
      {
        ItemShows(store.bookings[ids[k]], Item(store.bookings[ids[k]]));
        schedule := schedule + [Item(store.bookings[ids[k]])];
      }
      assert ids[..|ids|] == ids;
      EndsApart(store.bookings, ids, schedule);
      return Ok(schedule);
    }

    method CreateBooking(caller: Caller, roomId: int, start: int, end: int) returns (r: Result<int>)
      requires store.Valid()
      modifies this, store
      ensures store.Valid()
      ensures var s := After(old(Idle()), CreateRequest(caller, roomId, start, end), 5);
              && Idle() == State(s.db, map[], s.events)
              && s.procs[0].pc == Done(match r case Ok(id) => Created(id) case Err(e) => Failed(e))
      // in the arguments and the old tables alone
      ensures var known := caller.role in {StudentB, StudentM, StudentA, Teacher, Admin};
              var taken := exists i :: i in old(store.bookings) && old(store.bookings)[i].roomId == roomId
                                       && start < old(store.bookings)[i].end && old(store.bookings)[i].start < end;
              && (r == Err(Forbidden) <==> !known)
              && (r == Err(InvalidTimeRange) <==> known && start >= end)
              && (r == Err(RoomNotFound) <==> known && start < end && roomId !in old(store.rooms))
              && (r == Err(ScheduleConflict) <==> known && start < end && roomId in old(store.rooms) && taken)
              && (r.Ok? <==> known && start < end && roomId in old(store.rooms) && !taken)
      ensures store.rooms == old(store.rooms)
      ensures r.Err? ==> store.bookings == old(store.bookings) && events == old(events)
      ensures r.Ok? ==>
                var row := Booking(roomId, caller.userId, caller.role, start, end, Details("", "", "", [], ""));
                && r.value !in old(store.bookings) && store.bookings == old(store.bookings)[r.value := row]
                && events == old(events) + [BookingCreated(r.value, row)]
    {
      CancelPowerTable(caller.role, Admin);
      ghost var s, req := Idle(), CreateRequest(caller, roomId, start, end);
      ghost var s0, s1 := After(s, req, 0), After(s, req, 1);
      assert s0 == State(s.db, map[0 := Proc(req, Arrived)], s.events);
      assert s1 == CreateStep(s0, 0);
      if !caller.role.IsKnown() { FinishedStays(s, req, 1, 5); return Err(Forbidden); }
      if start >= end { FinishedStays(s, req, 1, 5); return Err(InvalidTimeRange); }
      var room := store.GetByID(roomId);
      if room.Err? { FinishedStays(s, req, 1, 5); return Err(room.error); }
      var ids := store.ListByRoomID(roomId);
      assert s1 == State(s.db, map[0 := Proc(req, RoomSeen)], s.events);
      ghost var s2, s3 := After(s, req, 2), After(s, req, 3);
      assert s2 == State(s.db, map[0 := Proc(req, Listed(InRoom(s.db.bookings, roomId)))], s.events);
      assert s3 == CreateStep(s2, 0);
      TakenInRoom(s.db.bookings, roomId, start, end);
      for k := 0 to |ids|
        invariant forall l | 0 <= l < k ::
            ids[l] in store.bookings && !Conflicts(store.bookings[ids[l]], roomId, start, end)
        invariant store.Value() == s.db && events == s.events && store.Valid()
      {
        if Overlaps(start, end, store.bookings[ids[k]].start, store.bookings[ids[k]].end) {
          ghost var hit := ids[k];
          assert hit in s.db.bookings && Conflicts(s.db.bookings[hit], roomId, start, end);
          assert Taken(s.db.bookings, roomId, start, end);
          FinishedStays(s, req, 3, 5);
          return Err(ScheduleConflict);
        }
      }
      assert !Taken(store.bookings, roomId, start, end);
      assert s3 == State(s.db, map[0 := Proc(req, NoConflictSeen)], s.events);
      ghost var s4 := After(s, req, 4);
      var row := Booking(roomId, caller.userId, caller.role, start, end, NO_DETAILS);
      InsertInColumns(store.Value(), row);
      r := store.Create(row);
      if r.Err? { return; }
      events := events + [BookingCreated(r.value, row)];
    }

    method CancelBooking(bookingId: int, caller: Caller) returns (r: Result<()>)
      requires store.Valid()
      modifies this, store
      ensures store.Valid()
      ensures var s := After(old(Idle()), CancelRequest(caller, bookingId), 4);
              && Idle() == State(s.db, map[], s.events)
              && s.procs[0].pc == Done(match r case Ok(_) => Cancelled case Err(e) => Failed(e))
      // in the arguments and the old tables alone
      ensures var known := caller.role in {StudentB, StudentM, StudentA, Teacher, Admin};
              var there := bookingId in old(store.bookings);
              var entitled := there && var b := old(store.bookings)[bookingId];
                || b.userId == caller.userId
                || (caller.role == Admin && b.creatorRole in {StudentB, StudentM, StudentA, Teacher, Admin})
                || (caller.role == Teacher && b.creatorRole in {StudentB, StudentM, StudentA})
                || (caller.role == StudentA && b.creatorRole in {StudentB, StudentM})
                || (caller.role == StudentM && b.creatorRole == StudentB);
              && (r == Err(BookingNotFound) <==> known && !there)
              && (r == Err(Forbidden) <==> !known || (there && !entitled))
              && (r.Ok? <==> known && there && entitled)
      ensures store.rooms == old(store.rooms)
      ensures store.bookings == if r.Ok? then old(store.bookings) - {bookingId} else old(store.bookings)
      ensures r.Err? ==> events == old(events)
      ensures r.Ok? ==>
                var b := old(store.bookings)[bookingId];
                events == old(events) + [BookingCancelled(bookingId, b, caller, b.userId == caller.userId)]
    {
      CancelPowerTable(caller.role, Admin);
      ghost var s, req := Idle(), CancelRequest(caller, bookingId);
      ghost var s0, s1 := After(s, req, 0), After(s, req, 1);
      assert s0 == State(s.db, map[0 := Proc(req, Arrived)], s.events);
      assert s1 == CancelStep(s0, 0);
      if !caller.role.IsKnown() { FinishedStays(s, req, 1, 4); return Err(Forbidden); }
      var found := store.GetBookingByID(bookingId);
      if found.Err? { FinishedStays(s, req, 1, 4); return Err(found.error); }
      var row := found.value;
      CancelPowerTable(caller.role, row.creatorRole);
      var selfCancel := row.userId == caller.userId;
      assert s1 == State(s.db, map[0 := Proc(req, Read(row))], s.events);
      ghost var s2 := After(s, req, 2);
      assert s2 == CancelStep(s1, 0);
      if !selfCancel && !caller.role.CanCancelOther(row.creatorRole) {
        FinishedStays(s, req, 2, 4);
        return Err(Forbidden);
      }
      assert s2 == State(s.db, map[0 := Proc(req, Authorised(row))], s.events);
      r := store.DeleteByID(bookingId);
      ghost var s3 := After(s, req, 3);
      assert s3 == CancelStep(s2, 0);
      if r.Err? { return; }
      events := events + [BookingCancelled(bookingId, row, caller, selfCancel)];
    }
  }
}
