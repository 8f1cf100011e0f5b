/** The booking database: two tables with their declared constraints, the statements that the store
    sends to it, and the transaction that replaces the imported timetable. */
module BookingStore {
  import opened BookingDomain
  import opened RoomNames

  /** Both tables and the next value of each id sequence. A sequence never goes back: a statement
      that fails, conflicts or is rolled back has still used up its value. */
  datatype Db = Db(rooms: map<int, Room>, bookings: map<int, Booking>, nextRoom: int, nextBooking: int)

  /** `rooms_building_name_uniq`. */
  ghost predicate UniqueRooms(rooms: map<int, Room>) {
    forall i, j | i in rooms && j in rooms ::
      rooms[i].building == rooms[j].building && rooms[i].name == rooms[j].name ==> i == j
  }

  ghost predicate RoomsOk(rooms: map<int, Room>, next: int) {
    && UniqueRooms(rooms)
    && forall i | i in rooms ::
         i < next && NulFree(rooms[i].building) && NulFree(rooms[i].name) && rooms[i].capacity > 0
  }

  /** `bookings_no_overlap_excl`. */
  ghost predicate NoOverlap(bookings: map<int, Booking>) {
    forall i, j | i in bookings && j in bookings && i != j ::
      !Conflicts(bookings[i], bookings[j].roomId, bookings[j].start, bookings[j].end)
  }

  /** What the text columns of a booking accept: no NUL character. */
  predicate TextOk(d: Details) {
    && NulFree(d.subject) && NulFree(d.lessonType) && NulFree(d.teacher) && NulFree(d.week)
    && forall i | 0 <= i < |d.groupNumbers| :: NulFree(d.groupNumbers[i])
  }

  ghost predicate BookingOk(b: Booking, rooms: map<int, Room>) {
    TextOk(b.details) && b.start < b.end && b.creatorRole.IsKnown() && b.roomId in rooms
  }

  /** Everything the schema declares, and that no stored id is still to be handed out. */
  ghost predicate Valid(db: Db) {
    && RoomsOk(db.rooms, db.nextRoom)
    && NoOverlap(db.bookings)
    && forall i | i in db.bookings :: i < db.nextBooking && BookingOk(db.bookings[i], db.rooms)
  }

  /** The same in the columns themselves. */
  lemma ValidInColumns(db: Db)
    requires Valid(db)
    ensures forall i, j | i in db.bookings && j in db.bookings && i != j ::
              var a, b := db.bookings[i], db.bookings[j];
              a.roomId == b.roomId ==> a.end <= b.start || b.end <= a.start
    ensures forall i | i in db.bookings ::
              var b := db.bookings[i];
              && b.start < b.end && b.roomId in db.rooms
              && b.creatorRole in {StudentB, StudentM, StudentA, Teacher, Admin}
    ensures forall i, j | i in db.rooms && j in db.rooms && i != j ::
              db.rooms[i].building != db.rooms[j].building || db.rooms[i].name != db.rooms[j].name
  {
    forall i, j | i in db.bookings && j in db.bookings && i != j
      ensures db.bookings[i].roomId == db.bookings[j].roomId ==>
                db.bookings[i].end <= db.bookings[j].start || db.bookings[j].end <= db.bookings[i].start
    {
      var b := db.bookings[j];
      assert !Conflicts(db.bookings[i], b.roomId, b.start, b.end);
    }
  }

  predicate Taken(bookings: map<int, Booking>, roomId: int, start: int, end: int) {
    exists i :: i in bookings && Conflicts(bookings[i], roomId, start, end)
  }

  // ---- single statements

  datatype Insert = Inserted(id: int) | Rejected(error: Error)

  /** One INSERT into bookings: the text is taken in, which uses no id; then the CHECK constraints, then the
      exclusion constraint, then the foreign key. */
  function InsertBooking(db: Db, b: Booking): (r: (Db, Insert))
    ensures Valid(db) ==> Valid(r.0)
    ensures r.0.rooms == db.rooms && r.0.nextRoom == db.nextRoom
    ensures r.0.nextBooking == db.nextBooking + if TextOk(b.details) then 1 else 0
    ensures r.1.Inserted? <==> BookingOk(b, db.rooms) && !Taken(db.bookings, b.roomId, b.start, b.end)
    ensures r.1.Inserted? ==> r.1.id == db.nextBooking && r.0.bookings == db.bookings[r.1.id := b]
    ensures r.1.Rejected? ==> r.0.bookings == db.bookings
    ensures r.1 == Rejected(ScheduleConflict) ==> Taken(db.bookings, b.roomId, b.start, b.end)
    ensures r.1 == Rejected(InvalidTimeRange) ==> b.start >= b.end
  {
    var used := db.(nextBooking := db.nextBooking + 1);
    if !TextOk(b.details) then (db, Rejected(StorageFailure))
    else if !b.creatorRole.IsKnown() then (used, Rejected(StorageFailure))
    else if b.start >= b.end then (used, Rejected(InvalidTimeRange))
    else if Taken(db.bookings, b.roomId, b.start, b.end) then (used, Rejected(ScheduleConflict))
    else if b.roomId !in db.rooms then (used, Rejected(StorageFailure))
    else (used.(bookings := db.bookings[db.nextBooking := b]), Inserted(db.nextBooking))
  }

  lemma TextInColumns(d: Details, text: seq<string>)
    requires text == [d.subject, d.lessonType, d.teacher, d.week] + d.groupNumbers
    ensures TextOk(d) <==> forall k | 0 <= k < |text| :: '\0' !in text[k]
  {
    assert text[0] == d.subject && text[1] == d.lessonType && text[2] == d.teacher && text[3] == d.week;
    assert forall i | 0 <= i < |d.groupNumbers| :: text[i + 4] == d.groupNumbers[i];
    assert forall k | 4 <= k < |text| :: text[k] == d.groupNumbers[k - 4];
  }

  /** The exact condition of each answer, in the columns themselves. */
  lemma InsertInColumns(db: Db, b: Booking)
    ensures var answer := InsertBooking(db, b).1;
            var known := b.creatorRole in {StudentB, StudentM, StudentA, Teacher, Admin};
            var taken := exists i :: i in db.bookings && db.bookings[i].roomId == b.roomId
                                     && b.start < db.bookings[i].end && db.bookings[i].start < b.end;
            var d := b.details;
            var text := [d.subject, d.lessonType, d.teacher, d.week] + d.groupNumbers;
            var clean := forall k | 0 <= k < |text| :: '\0' !in text[k];
            && (answer.Inserted? <==> clean && known && b.start < b.end && !taken && b.roomId in db.rooms)
            && (answer == Rejected(InvalidTimeRange) <==> clean && known && b.start >= b.end)
            && (answer == Rejected(ScheduleConflict) <==> clean && known && b.start < b.end && taken)
            && (answer.Rejected? ==> answer.error in {StorageFailure, InvalidTimeRange, ScheduleConflict})
  {
    var d := b.details;
    var text := [d.subject, d.lessonType, d.teacher, d.week] + d.groupNumbers;
    TextInColumns(d, text);
    if i :| i in db.bookings && db.bookings[i].roomId == b.roomId && b.start < db.bookings[i].end
            && db.bookings[i].start < b.end {
      assert Conflicts(db.bookings[i], b.roomId, b.start, b.end);
    }
  }

  function DeleteBooking(db: Db, id: int): (r: Db)
    ensures Valid(db) ==> Valid(r)
  {
    db.(bookings := db.bookings - {id})
  }

  predicate HasParsedSchedule(db: Db) {
    exists i :: i in db.bookings && ByParser(db.bookings[i])
  }

  // ---- the import transaction

  const MAX_CAPACITY := 0x7FFF_FFFF

  /** A room after `normalizeParsedRoom`. */
  datatype NamedRoom = NamedRoom(name: string, building: string, capacity: int)
  {
    function Key(): string { RoomKey(building, name) }

    /** What the columns of the rooms table accept: no NUL character, a positive 32-bit capacity. */
    predicate Storable() { NulFree(name) && NulFree(building) && 0 < capacity <= MAX_CAPACITY }
  }

  /** A dated lesson whose room has been normalised. */
  datatype Slot = Slot(room: NamedRoom, details: Details, start: int, end: int)

  datatype ImportStats = ImportStats(roomsSeen: int, roomsImported: int, lessonsSeen: int,
                                     lessonsExpanded: int, lessonsImported: int, lessonsSkipped: int)

  /** What the running transaction holds: the tables as it sees them, the ids found so far, its counters. */
  datatype Load = Load(db: Db, roomIDs: map<string, int>, stats: ImportStats)

  function WithoutParsed(bookings: map<int, Booking>): map<int, Booking> {
    map i | i in bookings && !ByParser(bookings[i]) :: bookings[i]
  }

  /** SQL `LIKE '%(%)'`. */
  predicate LikeParenthesised(name: string) {
    name != "" && name[|name| - 1] == ')' && '(' in name[..|name| - 1]
  }

  predicate IsStale(r: Room) {
    || (r.building, r.name) in {("North", "A101"), ("South", "B204"), ("West", "C305")}
    || (r.building == STORE_BUILDING && LikeParenthesised(r.name))
  }

  function WithoutStaleRooms(rooms: map<int, Room>, bookings: map<int, Booking>): map<int, Room> {
    map i | i in rooms && !(IsStale(rooms[i]) && forall b | b in bookings :: bookings[b].roomId != i) :: rooms[i]
  }

  /** The two DELETE statements that open the transaction. */
  function Cleared(db: Db): (r: Db)
    ensures Valid(db) ==> Valid(r)
    ensures r.bookings == WithoutParsed(db.bookings)
    ensures r.nextRoom == db.nextRoom && r.nextBooking == db.nextBooking
    ensures r.rooms.Keys <= db.rooms.Keys && forall i | i in r.rooms :: r.rooms[i] == db.rooms[i]
  {
    var bookings := WithoutParsed(db.bookings);
    db.(bookings := bookings, rooms := WithoutStaleRooms(db.rooms, bookings))
  }

  /** One of three sample rooms, or one of the university's whose name has a parenthesis that ends it. */
  ghost predicate StaleInWords(room: Room) {
    || (room.building == "North" && room.name == "A101")
    || (room.building == "South" && room.name == "B204")
    || (room.building == "West" && room.name == "C305")
    || (room.building == "\U{041D}\U{0413}\U{0423}"
        && exists a, b :: room.name == a + "(" + b + ")")
  }

  lemma StaleRooms(room: Room)
    ensures IsStale(room) <==> StaleInWords(room)
  {
    var name := room.name;
    if a, b :| name == a + "(" + b + ")" {
      assert name[|a|] == '(' && name[..|name| - 1][|a|] == '(';
    }
    if LikeParenthesised(name) {
      var k :| 0 <= k < |name| - 1 && name[..|name| - 1][k] == '(';
      assert name == name[..k] + "(" + name[k + 1..|name| - 1] + ")";
    }
  }

  /** Which rows go, in the columns themselves. */
  lemma ClearedInColumns(db: Db)
    ensures var r := Cleared(db);
            && (forall i | i in db.bookings ::
                  i in r.bookings <==> !(db.bookings[i].userId == 0 && db.bookings[i].creatorRole == Admin))
            && (forall i | i in r.bookings :: i in db.bookings && r.bookings[i] == db.bookings[i])
            && (forall i | i in db.rooms :: i in r.rooms <==>
                  || (exists b :: b in r.bookings && r.bookings[b].roomId == i)
                  || !StaleInWords(db.rooms[i]))
            && forall i | i in r.rooms :: i in db.rooms && r.rooms[i] == db.rooms[i]
  {
    forall i | i in db.rooms ensures IsStale(db.rooms[i]) <==> StaleInWords(db.rooms[i]) {
      StaleRooms(db.rooms[i]);
    }
  }

  ghost predicate IsRoom(rooms: map<int, Room>, id: int, room: NamedRoom) {
    id in rooms && rooms[id].name == room.name && rooms[id].building == room.building
  }

  /** The id an upsert returns: the row that has the name already, or the next value of the sequence. */
  ghost function UpsertId(db: Db, room: NamedRoom): (id: int)
    ensures Valid(db) ==> forall i | IsRoom(db.rooms, i, room) :: i == id
  {
    if exists i :: IsRoom(db.rooms, i, room) then
      var i :| IsRoom(db.rooms, i, room); i
    else db.nextRoom
  }

  /** INSERT ... ON CONFLICT (building, name) DO UPDATE SET capacity ... RETURNING id. */
  ghost function UpsertRoom(db: Db, room: NamedRoom): (r: Db)
    requires room.Storable()
    ensures Valid(db) ==> Valid(r)
    ensures IsRoom(r.rooms, UpsertId(db, room), room)
    ensures r.bookings == db.bookings && r.nextBooking == db.nextBooking && r.nextRoom == db.nextRoom + 1
    ensures Valid(db) ==> forall i | i in db.rooms ::
              i in r.rooms && r.rooms[i].name == db.rooms[i].name && r.rooms[i].building == db.rooms[i].building
  {
    var id := UpsertId(db, room);
    assert forall i | i in db.rooms && db.rooms[i].name == room.name && db.rooms[i].building == room.building ::
        IsRoom(db.rooms, i, room);
    db.(rooms := db.rooms[id := Room(room.name, room.building, room.capacity)], nextRoom := db.nextRoom + 1)
  }

  /** The row that is written, and that it is the only one. */
  lemma UpsertInColumns(db: Db, room: NamedRoom)
    requires room.Storable()
    ensures var r, id := UpsertRoom(db, room), UpsertId(db, room);
            && r.rooms == db.rooms[id := Room(room.name, room.building, room.capacity)]
            && (if exists i :: i in db.rooms && db.rooms[i].name == room.name && db.rooms[i].building == room.building
                then id in db.rooms && db.rooms[id].name == room.name && db.rooms[id].building == room.building
                else id == db.nextRoom)
  {
    if i :| i in db.rooms && db.rooms[i].name == room.name && db.rooms[i].building == room.building {
      assert IsRoom(db.rooms, i, room);
    }
  }

  /** Upsert one room and remember its id under its key. */
  ghost function LoadRoom(st: Load, room: NamedRoom): (r: Result<Load>)
  {
    if !room.Storable() then Err(StorageFailure)
    else Ok(Load(UpsertRoom(st.db, room),
                 st.roomIDs[room.Key() := UpsertId(st.db, room)],
                 st.stats.(roomsImported := st.stats.roomsImported + 1)))
  }

  ghost function LoadRooms(st: Load, rooms: seq<NamedRoom>): (r: Result<Load>)
  {
    if rooms == [] then Ok(st)
    else match LoadRooms(st, rooms[..|rooms| - 1])
         case Err(e) => Err(e)
         case Ok(prefix) => LoadRoom(prefix, rooms[|rooms| - 1])
  }

  /** A slot's room: looked up among the keys seen so far, upserted when it is new. */
  ghost function SlotRoom(st: Load, room: NamedRoom): (r: Result<Load>)
    ensures r.Ok? ==> room.Key() in r.value.roomIDs
  {
    if room.Key() in st.roomIDs then Ok(st) else LoadRoom(st, room)
  }

  function SlotBooking(roomId: int, slot: Slot): Booking {
    Booking(roomId, 0, Admin, slot.start, slot.end, slot.details)
  }

  /** INSERT ... ON CONFLICT DO NOTHING for one slot, and the counters. */
  ghost function InsertSlot(st: Load, roomId: int, slot: Slot): (r: Result<Load>)
  {
    var (db, outcome) := InsertBooking(st.db, SlotBooking(roomId, slot));
    match outcome
    case Inserted(_) => Ok(st.(db := db, stats := st.stats.(lessonsImported := st.stats.lessonsImported + 1)))
    case Rejected(ScheduleConflict) =>
      Ok(st.(db := db, stats := st.stats.(lessonsSkipped := st.stats.lessonsSkipped + 1)))
    case Rejected(e) => Err(e)
  }

  ghost function LoadSlot(st: Load, slot: Slot): (r: Result<Load>)
  {
    match SlotRoom(st, slot.room)
    case Err(e) => Err(e)
    case Ok(found) => InsertSlot(found, found.roomIDs[slot.room.Key()], slot)
  }

  ghost function LoadSlots(st: Load, slots: seq<Slot>): (r: Result<Load>)
  {
    if slots == [] then Ok(st)
    else match LoadSlots(st, slots[..|slots| - 1])
         case Err(e) => Err(e)
         case Ok(prefix) => LoadSlot(prefix, slots[|slots| - 1])
  }

  function StartStats(rooms: seq<NamedRoom>, slots: seq<Slot>): ImportStats {
    ImportStats(|rooms|, 0, 0, |slots|, 0, 0)
  }

  /** The whole transaction when no connection fails: its final state, or the error that rolls it back. */
  ghost function Replace(db: Db, rooms: seq<NamedRoom>, slots: seq<Slot>): (r: Result<Load>)
  {
    match LoadRooms(Load(Cleared(db), map[], StartStats(rooms, slots)), rooms)
    case Err(e) => Err(e)
    case Ok(loaded) => LoadSlots(loaded, slots)
  }

  // ---- what the transaction keeps

  /** Every remembered id belongs to the room whose key it is stored under. */
  ghost predicate KeysOk(st: Load) {
    forall k | k in st.roomIDs ::
      st.roomIDs[k] in st.db.rooms && k == RoomKey(st.db.rooms[st.roomIDs[k]].building, st.db.rooms[st.roomIDs[k]].name)
  }

  ghost predicate LoadOk(st: Load) { Valid(st.db) && KeysOk(st) }

  lemma LoadRoomOk(st: Load, room: NamedRoom)
    requires LoadOk(st) && LoadRoom(st, room).Ok?
    ensures LoadOk(LoadRoom(st, room).value)
  {
  }

  lemma {:induction false} LoadRoomsOk(st: Load, rooms: seq<NamedRoom>)
    requires LoadOk(st) && LoadRooms(st, rooms).Ok?
    ensures LoadOk(LoadRooms(st, rooms).value)
  {
    if rooms != [] {
      var init := rooms[..|rooms| - 1];
      LoadRoomsOk(st, init);
      LoadRoomOk(LoadRooms(st, init).value, rooms[|rooms| - 1]);
    }
  }

  /** The room a slot is booked into has the slot's own name and building. */
  lemma SlotRoomOk(st: Load, room: NamedRoom)
    requires LoadOk(st) && SlotRoom(st, room).Ok?
    ensures var r := SlotRoom(st, room).value;
            && LoadOk(r) && r.db.bookings == st.db.bookings
            && IsRoom(r.db.rooms, r.roomIDs[room.Key()], room)
            && NulFree(room.name) && NulFree(room.building)
  {
    if room.Key() in st.roomIDs {
      var id := st.roomIDs[room.Key()];
      assert id in st.db.rooms;
      RoomKeyInjective(st.db.rooms[id].building, st.db.rooms[id].name, room.building, room.name);
    } else {
      LoadRoomOk(st, room);
    }
  }

  lemma LoadSlotOk(st: Load, slot: Slot)
    requires LoadOk(st) && LoadSlot(st, slot).Ok?
    ensures LoadOk(LoadSlot(st, slot).value)
  {
    SlotRoomOk(st, slot.room);
  }

  lemma {:induction false} LoadSlotsOk(st: Load, slots: seq<Slot>)
    requires LoadOk(st) && LoadSlots(st, slots).Ok?
    ensures LoadOk(LoadSlots(st, slots).value)
  {
    if slots != [] {
      var init := slots[..|slots| - 1];
      LoadSlotsOk(st, init);
      LoadSlotOk(LoadSlots(st, init).value, slots[|slots| - 1]);
    }
  }

  lemma ReplaceOk(db: Db, rooms: seq<NamedRoom>, slots: seq<Slot>)
    requires Valid(db) && Replace(db, rooms, slots).Ok?
    ensures LoadOk(Replace(db, rooms, slots).value)
  {
    var start := Load(Cleared(db), map[], StartStats(rooms, slots));
    LoadRoomsOk(start, rooms);
    LoadSlotsOk(LoadRooms(start, rooms).value, slots);
  }
}
