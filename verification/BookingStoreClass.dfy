/** The store in its own form: fields that methods reassign, transactions that can be cut off. */
module BookingStoreClass {
  import opened Text
  import opened BookingDomain
  import opened RoomNames
  import opened BookingStore
  import opened ScheduleImport

  /** A room and a dated lesson as the caller hands them over, before normalisation. */
  datatype RoomSelector = RoomSelector(name: string, building: string, capacity: int, url: string)
  datatype ScheduleSlot = ScheduleSlot(roomName: string, building: string, capacity: int, details: Details,
                                       start: int, end: int)

  function NameRoom(name: string, building: string, capacity: int): (r: NamedRoom)
    ensures r.name != "" && r.building != "" && r.capacity > 0
  {
    var n := NormalizeParsedRoom(name, building, capacity);
    NamedRoom(n.0, n.1, n.2)
  }

  function NameSelector(s: RoomSelector): NamedRoom { NameRoom(s.name, s.building, s.capacity) }

  function NameSlot(s: ScheduleSlot): Slot {
    Slot(NameRoom(s.roomName, s.building, s.capacity), s.details, s.start, s.end)
  }

  /** Normalisation takes what it is given and puts in what is missing; details and times it leaves alone. */
  lemma NamedInWords(s: ScheduleSlot)
    ensures var n := NameSlot(s);
            && n.details == s.details && n.start == s.start && n.end == s.end
            && n.room.capacity == (if s.capacity > 0 then s.capacity else 30)
            && (s.building != "" ==>
                  n.room.building == s.building && n.room.name == if s.roomName == "" then "unknown" else s.roomName)
            && (s.building == "" && '(' !in s.roomName ==> n.room.building == "\U{041D}\U{0413}\U{0423}")
            && (s.building == "" && '(' !in s.roomName && !Blank(s.roomName) ==> n.room.name == TrimSpace(s.roomName))
  {
    StoreDefaults(s.roomName, s.building, s.capacity);
  }

  function NameSelectors(s: seq<RoomSelector>): seq<NamedRoom> {
    seq(|s|, i requires 0 <= i < |s| => NameSelector(s[i]))
  }

  function NameSlots(s: seq<ScheduleSlot>): seq<Slot> { seq(|s|, i requires 0 <= i < |s| => NameSlot(s[i])) }

  lemma LoadRoomsFails(st: Load, rooms: seq<NamedRoom>, n: nat)
    requires n <= |rooms|
    ensures LoadRooms(st, rooms[..n]).Err? ==> LoadRooms(st, rooms).Err?
    decreases |rooms| - n
  {
    if n < |rooms| {
      assert rooms[..n + 1][..n] == rooms[..n];
      LoadRoomsFails(st, rooms, n + 1);
    } else {
      assert rooms[..n] == rooms;
    }
  }

  /** One step of the prefix recursions of the specification; a failing step fails the whole. */
  lemma LoadRoomsStep(st: Load, rooms: seq<NamedRoom>, n: nat)
    requires n < |rooms| && LoadRooms(st, rooms[..n]).Ok?
    ensures LoadRooms(st, rooms[..n + 1]) == LoadRoom(LoadRooms(st, rooms[..n]).value, rooms[n])
    ensures LoadRoom(LoadRooms(st, rooms[..n]).value, rooms[n]).Err? ==> LoadRooms(st, rooms).Err?
  {
    assert rooms[..n + 1][..n] == rooms[..n];
    LoadRoomsFails(st, rooms, n + 1);
  }

  lemma LoadSlotsFails(st: Load, slots: seq<Slot>, n: nat)
    requires n <= |slots|
    ensures LoadSlots(st, slots[..n]).Err? ==> LoadSlots(st, slots).Err?
    decreases |slots| - n
  {
    if n < |slots| {
      assert slots[..n + 1][..n] == slots[..n];
      LoadSlotsFails(st, slots, n + 1);
    } else {
      assert slots[..n] == slots;
    }
  }

  lemma LoadSlotsStep(st: Load, slots: seq<Slot>, n: nat)
    requires n < |slots| && LoadSlots(st, slots[..n]).Ok?
    ensures LoadSlots(st, slots[..n + 1]) == LoadSlot(LoadSlots(st, slots[..n]).value, slots[n])
    ensures LoadSlot(LoadSlots(st, slots[..n]).value, slots[n]).Err? ==> LoadSlots(st, slots).Err?
  {
    assert slots[..n + 1][..n] == slots[..n];
    LoadSlotsFails(st, slots, n + 1);
  }

  /** The order of the listings. */
  predicate Before(bookings: map<int, Booking>, i: int, j: int)
    requires i in bookings && j in bookings
  {
    bookings[i].start < bookings[j].start || (bookings[i].start == bookings[j].start && i <= j)
  }

  /** All the bookings of a room, each once, in order. */
  ghost predicate Listing(bookings: map<int, Booking>, roomId: int, ids: seq<int>) {
    && (forall k | 0 <= k < |ids| :: ids[k] in bookings && bookings[ids[k]].roomId == roomId)
    && (forall i | i in bookings && bookings[i].roomId == roomId :: exists k :: 0 <= k < |ids| && ids[k] == i)
    && forall k, l | 0 <= k < l < |ids| :: ids[k] != ids[l] && Before(bookings, ids[k], ids[l])
  }

  /** With the constraints in force, each booking of a listing ends before the next one starts. */
  lemma ListingIsChronological(db: Db, roomId: int, ids: seq<int>)
    requires Valid(db) && Listing(db.bookings, roomId, ids)
    ensures forall k, l | 0 <= k < l < |ids| ::
              ids[k] in db.bookings && ids[l] in db.bookings && db.bookings[ids[k]].end <= db.bookings[ids[l]].start
  {
    forall k, l | 0 <= k < l < |ids|
      ensures ids[k] in db.bookings && ids[l] in db.bookings && db.bookings[ids[k]].end <= db.bookings[ids[l]].start
    {
      assert Before(db.bookings, ids[k], ids[l]) && BookingOk(db.bookings[ids[l]], db.rooms);
      var next := db.bookings[ids[l]];
      assert !Conflicts(db.bookings[ids[k]], next.roomId, next.start, next.end);
    }
  }

  class Store {
    var rooms: map<int, Room>
    var bookings: map<int, Booking>
    var nextRoom: int
    var nextBooking: int

    function Value(): Db reads this { Db(rooms, bookings, nextRoom, nextBooking) }

    ghost predicate Valid() reads this { BookingStore.Valid(Value()) }

    constructor ()
      ensures Valid() && Value() == Db(map[], map[], 1, 1)
    {
      rooms, bookings, nextRoom, nextBooking := map[], map[], 1, 1;
    }

    method GetByID(id: int) returns (r: Result<Room>)
      ensures id in rooms ==> r == Ok(rooms[id])
      ensures id !in rooms ==> r == Err(RoomNotFound)
    {
      r := if id in rooms then Ok(rooms[id]) else Err(RoomNotFound);
    }

    method GetBookingByID(id: int) returns (r: Result<Booking>)
      ensures id in bookings ==> r == Ok(bookings[id])
      ensures id !in bookings ==> r == Err(BookingNotFound)
    {
      r := if id in bookings then Ok(bookings[id]) else Err(BookingNotFound);
    }

    /** The first of some bookings in `ORDER BY start_time, id`. */
    method Earliest(ids: set<int>) returns (first: int)
      requires ids <= bookings.Keys && exists i :: i in ids
      ensures first in ids
      ensures forall i | i in ids :: Before(bookings, first, i)
    {
      first :| first in ids;
      var left := ids - {first};
      while exists i :: i in left
        invariant left <= ids && first in ids && first !in left
        invariant forall i | i in ids && i !in left :: Before(bookings, first, i)
        decreases left
      {
        var i :| i in left;
        left := left - {i};
        if bookings[i].start < bookings[first].start || (bookings[i].start == bookings[first].start && i < first) {
          first := i;
        }
      }
    }

    /** The bookings of a room in `ORDER BY start_time, id`. */
    method ListByRoomID(roomId: int) returns (ids: seq<int>)
      ensures Listing(bookings, roomId, ids)
    {
      ids := [];
      var left := set i | i in bookings && bookings[i].roomId == roomId;
      while exists i :: i in left
        invariant left <= bookings.Keys && forall i | i in left :: bookings[i].roomId == roomId
        invariant forall i | i in bookings && bookings[i].roomId == roomId ::
                    i in left || exists k :: 0 <= k < |ids| && ids[k] == i
        invariant forall k | 0 <= k < |ids| ::
                    ids[k] in bookings && bookings[ids[k]].roomId == roomId && ids[k] !in left
        invariant forall k, l | 0 <= k < l < |ids| :: Before(bookings, ids[k], ids[l]) && ids[k] != ids[l]
        invariant forall k, i | 0 <= k < |ids| && i in left :: Before(bookings, ids[k], i)
        decreases left
      {
        var i := Earliest(left);
        left := left - {i};
        ghost var before := ids;
        ids := ids + [i];
        assert ids[|before|] == i && forall k | 0 <= k < |before| :: ids[k] == before[k];
      }
    }

    /** One INSERT: on success the table has exactly one row more, under an id never used before. */
    method Create(b: Booking) returns (r: Result<int>)
      requires Valid()
      modifies this
      ensures Valid()
      ensures Value() == InsertBooking(old(Value()), b).0
      ensures r == match InsertBooking(old(Value()), b).1 { case Inserted(id) => Ok(id) case Rejected(e) => Err(e) }
      ensures r.Ok? ==> r.value !in old(bookings) && bookings == old(bookings)[r.value := b]
      ensures r.Err? ==> bookings == old(bookings)
    {
      var taken := false;
      var left := bookings.Keys;
      while exists i :: i in left
        invariant left <= bookings.Keys
        invariant taken <==> exists i :: i in bookings.Keys - left && Conflicts(bookings[i], b.roomId, b.start, b.end)
        decreases left
      {
        var i :| i in left;
        left := left - {i};
        taken := taken || Conflicts(bookings[i], b.roomId, b.start, b.end);
      }
      assert taken <==> Taken(bookings, b.roomId, b.start, b.end);
      if !TextOk(b.details) { return Err(StorageFailure); }
      var id := nextBooking;
      nextBooking := nextBooking + 1;
      if !b.creatorRole.IsKnown() { return Err(StorageFailure); }
      if b.start >= b.end { return Err(InvalidTimeRange); }
      if taken { return Err(ScheduleConflict); }
      if b.roomId !in rooms { return Err(StorageFailure); }
      bookings := bookings[id := b];
      return Ok(id);
    }

    method DeleteByID(id: int) returns (r: Result<()>)
      requires Valid()
      modifies this`bookings
      ensures Valid() && Value() == DeleteBooking(old(Value()), id)
      ensures bookings == old(bookings) - {id}
      ensures r == if id in old(bookings) then Ok(()) else Err(BookingNotFound)
    {
      r := if id in bookings then Ok(()) else Err(BookingNotFound);
      bookings := bookings - {id};
    }

    method HasParsed() returns (exists_: bool)
      ensures exists_ <==> HasParsedSchedule(Value())
      ensures exists_ <==> exists i :: i in bookings && bookings[i].userId == 0 && bookings[i].creatorRole == Admin
    {
      exists_ := false;
      var left := bookings.Keys;
      while exists i :: i in left
        invariant left <= bookings.Keys
        invariant exists_ <==> exists i :: i in bookings.Keys - left && ByParser(bookings[i])
        decreases left
      {
        var i :| i in left;
        left := left - {i};
        exists_ := exists_ || ByParser(bookings[i]);
      }
    }

    method UpsertParsedRoom(room: NamedRoom) returns (r: Result<int>)
      requires Valid()
      modifies this`rooms, this`nextRoom
      ensures Valid() && nextRoom > old(nextRoom)
      ensures room.Storable() ==> r == Ok(UpsertId(old(Value()), room)) && Value() == UpsertRoom(old(Value()), room)
      ensures !room.Storable() ==> r.Err?
      ensures r.Ok? <==> '\0' !in room.name && '\0' !in room.building && 0 < room.capacity <= 0x7FFF_FFFF
    {
      ghost var before := Value();
      var id := nextRoom;
      nextRoom := nextRoom + 1;
      if '\0' in room.name || '\0' in room.building || room.capacity <= 0 || room.capacity > MAX_CAPACITY {
        return Err(StorageFailure);
      }
      var left := rooms.Keys;
      while exists i :: i in left
        invariant left <= rooms.Keys
        invariant id == before.nextRoom ==> forall i | i in rooms.Keys - left :: !IsRoom(rooms, i, room)
        invariant id != before.nextRoom ==> IsRoom(rooms, id, room)
        decreases left
      {
        var i :| i in left;
        left := left - {i};
        if rooms[i].name == room.name && rooms[i].building == room.building {
          id := i;
        }
      }
      assert id == UpsertId(before, room);
      rooms := rooms[id := Room(room.name, room.building, room.capacity)];
      assert Value() == UpsertRoom(before, room);
      return Ok(id);
    }

    method Rollback(savedRooms: map<int, Room>, savedBookings: map<int, Booking>)
      requires BookingStore.Valid(Db(savedRooms, savedBookings, nextRoom, nextBooking))
      modifies this`rooms, this`bookings
      ensures Valid() && rooms == savedRooms && bookings == savedBookings
    {
      rooms, bookings := savedRooms, savedBookings;
    }

    /** The first loop: every selector is upserted and its id remembered. */
    method LoadSelectors(named: seq<NamedRoom>, first: ImportStats, budget: nat)
      returns (r: Result<(map<string, int>, ImportStats, nat)>)
      requires Valid()
      modifies this`rooms, this`nextRoom
      ensures Valid() && nextRoom >= old(nextRoom)
      ensures var spec := LoadRooms(Load(old(Value()), map[], first), named);
              && (r.Ok? ==> spec == Ok(Load(Value(), r.value.0, r.value.1)) && LoadOk(spec.value)
                            && r.value.2 == budget - |named|)
              && (spec.Ok? && budget >= |named| ==> r.Ok?)
    {
      ghost var start := Load(Value(), map[], first);
      var roomIDs: map<string, int>, stats, left := map[], first, budget;
      var i := 0;
      while i < |named|
        invariant 0 <= i <= |named| && i + left == budget
        invariant Valid() && nextRoom >= old(nextRoom)
        invariant LoadRooms(start, named[..i]) == Ok(Load(Value(), roomIDs, stats))
        invariant LoadOk(Load(Value(), roomIDs, stats))
      {
        LoadRoomsStep(start, named, i);
        ghost var before := Load(Value(), roomIDs, stats);
        var room := named[i];
        if left == 0 { return Err(StorageFailure); }
        left := left - 1;
        var id := UpsertParsedRoom(room);
        if id.Err? { return Err(id.error); }
        roomIDs := roomIDs[room.Key() := id.value];
        stats := stats.(roomsImported := stats.roomsImported + 1);
        assert LoadRoom(before, room) == Ok(Load(Value(), roomIDs, stats));
        LoadRoomOk(before, room);
        i := i + 1;
      }
      assert named[..i] == named;
      return Ok((roomIDs, stats, left));
    }

    /** The body of the second loop. */
    method LoadOne(slot: Slot, ids: map<string, int>, first: ImportStats, budget: nat)
      returns (r: Result<(map<string, int>, ImportStats, nat)>)
      requires Valid() && LoadOk(Load(Value(), ids, first))
      modifies this
      ensures Valid() && nextRoom >= old(nextRoom) && nextBooking >= old(nextBooking)
      ensures var spec := LoadSlot(Load(old(Value()), ids, first), slot);
              && (r.Ok? ==> spec == Ok(Load(Value(), r.value.0, r.value.1)) && LoadOk(spec.value)
                            && r.value.2 + 2 >= budget)
              && (spec.Ok? && budget >= 2 ==> r.Ok?)
    {
      ghost var before := Load(Value(), ids, first);
      var roomIDs, stats, left := ids, first, budget;
      var key := slot.room.Key();
      if key !in roomIDs {
        if left == 0 { return Err(StorageFailure); }
        left := left - 1;
        var id := UpsertParsedRoom(slot.room);
        if id.Err? { return Err(id.error); }
        roomIDs := roomIDs[key := id.value];
        stats := stats.(roomsImported := stats.roomsImported + 1);
      }
      ghost var found := Load(Value(), roomIDs, stats);
      assert SlotRoom(before, slot.room) == Ok(found);
      SlotRoomOk(before, slot.room);
      if left == 0 { return Err(StorageFailure); }
      left := left - 1;
      var inserted := Create(SlotBooking(roomIDs[key], slot));
      match inserted {
        case Ok(_) => stats := stats.(lessonsImported := stats.lessonsImported + 1);
        case Err(ScheduleConflict) => stats := stats.(lessonsSkipped := stats.lessonsSkipped + 1);
        case Err(e) => return Err(e);
      }
      assert InsertSlot(found, roomIDs[key], slot) == Ok(Load(Value(), roomIDs, stats));
      assert LoadSlot(before, slot) == Ok(Load(Value(), roomIDs, stats));
      LoadSlotOk(before, slot);
      return Ok((roomIDs, stats, left));
    }

    /** The second loop: every slot is inserted into its room or skipped. */
    method LoadScheduled(slots: seq<Slot>, ids: map<string, int>, first: ImportStats, budget: nat)
      returns (r: Result<(ImportStats, nat)>)
      requires Valid() && LoadOk(Load(Value(), ids, first))
      modifies this
      ensures Valid() && nextRoom >= old(nextRoom) && nextBooking >= old(nextBooking)
      ensures var spec := LoadSlots(Load(old(Value()), ids, first), slots);
              && (r.Ok? ==> spec.Ok? && Value() == spec.value.db && r.value.0 == spec.value.stats
                            && r.value.1 + 2 * |slots| >= budget)
              && (spec.Ok? && budget >= 2 * |slots| ==> r.Ok?)
    {
      ghost var start := Load(Value(), ids, first);
      var roomIDs, stats, left := ids, first, budget;
      var i := 0;
      while i < |slots|
        invariant 0 <= i <= |slots| && 0 <= left && left + 2 * i >= budget
        invariant Valid() && nextRoom >= old(nextRoom) && nextBooking >= old(nextBooking)
        invariant LoadSlots(start, slots[..i]) == Ok(Load(Value(), roomIDs, stats))
        invariant LoadOk(Load(Value(), roomIDs, stats))
      {
        LoadSlotsStep(start, slots, i);
        ghost var before := Load(Value(), roomIDs, stats);
        var step := LoadOne(slots[i], roomIDs, stats, left);
        if step.Err? { return Err(step.error); }
        roomIDs, stats, left := step.value.0, step.value.1, step.value.2;
        i := i + 1;
      }
      assert slots[..i] == slots;
      return Ok((stats, left));
    }

    /** The import transaction on a connection that survives `budget` statements, the COMMIT among them, and may
        lose the reply to the COMMIT. Either the tables are what the specification says or they are as they
        were; an error leaves which of the two open only if the reply to the COMMIT was lost. */
    method ReplaceParsedSchedule(selectors: seq<RoomSelector>, scheduled: seq<ScheduleSlot>, budget: nat,
                                 replyLost: bool)
      returns (r: Result<ImportStats>)
      requires Valid()
      modifies this
      ensures Valid() && nextRoom >= old(nextRoom) && nextBooking >= old(nextBooking)
      ensures var spec := Replace(old(Value()), NameSelectors(selectors), NameSlots(scheduled));
              && (r.Ok? ==> !replyLost && spec.Ok? && Value() == spec.value.db && r.value == spec.value.stats)
              && (r.Err? ==> || (rooms == old(rooms) && bookings == old(bookings))
                             || (replyLost && spec.Ok? && Value() == spec.value.db))
              && (spec.Ok? && budget >= 3 + |selectors| + 2 * |scheduled| ==>
                 r.Ok? == !replyLost && Value() == spec.value.db)
      ensures r.Ok? ==> ImportedInColumns(old(Value()), Value(), NameSelectors(selectors), NameSlots(scheduled))
    {
      hide ImportedInColumns, View, Greedy;
      var named, slots := NameSelectors(selectors), NameSlots(scheduled);
      var savedRooms, savedBookings := rooms, bookings;
      if budget < 2 { return Err(StorageFailure); }
      bookings := WithoutParsed(bookings);
      rooms := WithoutStaleRooms(rooms, bookings);
      assert Value() == Cleared(old(Value()));
      var first := ImportStats(|selectors|, 0, 0, |scheduled|, 0, 0);
      var loaded := LoadSelectors(named, first, budget - 2);
      if loaded.Err? {
        Rollback(savedRooms, savedBookings);
        return Err(loaded.error);
      }
      var (ids, stats, left) := loaded.value;
      var stored := LoadScheduled(slots, ids, stats, left);
      if stored.Err? {
        Rollback(savedRooms, savedBookings);
        return Err(stored.error);
      }
      if stored.value.1 == 0 {
        Rollback(savedRooms, savedBookings);
        return Err(StorageFailure);
      }
      ImportInColumns(old(Value()), named, slots);
      r := if replyLost then Err(StorageFailure) else Ok(stored.value.0);
    }
  }
}
