/** What the import transaction computes, with the ids taken away: rows named by their room,
    and a first-come-first-served choice among the slots. */
module ScheduleImport {
  import opened BookingDomain
  import opened RoomNames
  import opened BookingStore

  /** A booking with its room named instead of numbered, and without its own id. */
  datatype Row = Row(name: string, building: string, userId: int, role: Role, start: int, end: int, details: Details)

  ghost function ToRow(rooms: map<int, Room>, b: Booking): Row
    requires b.roomId in rooms
  {
    Row(rooms[b.roomId].name, rooms[b.roomId].building, b.userId, b.creatorRole, b.start, b.end, b.details)
  }

  /** The timetable as a reader sees it. */
  ghost function View(db: Db): set<Row>
    requires Valid(db)
  {
    set i | i in db.bookings :: ToRow(db.rooms, db.bookings[i])
  }

  /** Each booking gives a row of its own: one that names its room and its times cannot be another's. */
  lemma RowsApart(db: Db, i: int, j: int)
    requires Valid(db) && i in db.bookings && j in db.bookings
    requires ToRow(db.rooms, db.bookings[i]) == ToRow(db.rooms, db.bookings[j])
    ensures i == j
  {
    var a, b := db.bookings[i], db.bookings[j];
    assert a.roomId == b.roomId;
    assert i != j ==> !Conflicts(a, b.roomId, b.start, b.end);
  }

  predicate Clash(x: Row, y: Row) {
    x.name == y.name && x.building == y.building && Overlaps(x.start, x.end, y.start, y.end)
  }

  ghost predicate Blocked(rows: set<Row>, r: Row) {
    exists x :: x in rows && Clash(x, r)
  }

  function SlotRow(slot: Slot): Row {
    Row(slot.room.name, slot.room.building, 0, Admin, slot.start, slot.end, slot.details)
  }

  /** The rows that are not the parser's. */
  ghost function Kept(rows: set<Row>): set<Row> {
    set r | r in rows && !(r.userId == 0 && r.role == Admin)
  }

  /** First come, first served: each slot in turn is added unless it clashes with what is there. */
  ghost function Greedy(rows: set<Row>, slots: seq<Slot>): (r: set<Row>)
    ensures rows <= r
  {
    if slots == [] then rows
    else
      var before := Greedy(rows, slots[..|slots| - 1]);
      var row := SlotRow(slots[|slots| - 1]);
      if Blocked(before, row) then before else before + {row}
  }

  ghost function CountStored(rows: set<Row>, slots: seq<Slot>): nat {
    if slots == [] then 0
    else
      var init := slots[..|slots| - 1];
      CountStored(rows, init) + if Blocked(Greedy(rows, init), SlotRow(slots[|slots| - 1])) then 0 else 1
  }

  /** The same choice without any running state: slot i is stored when it clashes with no row that
      was there before and with no earlier slot that is itself stored. */
  ghost predicate Stored(rows: set<Row>, slots: seq<Slot>, i: nat)
    requires i < |slots|
    decreases i
  {
    && !Blocked(rows, SlotRow(slots[i]))
    && forall j :: 0 <= j < i && Stored(rows, slots, j) ==> !Clash(SlotRow(slots[j]), SlotRow(slots[i]))
  }

  lemma {:induction false} StoredPrefix(rows: set<Row>, slots: seq<Slot>, n: nat, i: nat)
    requires i < n <= |slots|
    ensures Stored(rows, slots[..n], i) <==> Stored(rows, slots, i)
    decreases i
  {
    forall j | 0 <= j < i ensures Stored(rows, slots[..n], j) <==> Stored(rows, slots, j) {
      StoredPrefix(rows, slots, n, j);
    }
  }

  ghost function StoredRows(rows: set<Row>, slots: seq<Slot>): set<Row> {
    set i: nat | i < |slots| && Stored(rows, slots, i) :: SlotRow(slots[i])
  }

  lemma StoredRowsStep(rows: set<Row>, slots: seq<Slot>)
    requires slots != []
    ensures var n := |slots| - 1;
            StoredRows(rows, slots) ==
            StoredRows(rows, slots[..n]) + if Stored(rows, slots, n) then {SlotRow(slots[n])} else {}
  {
    var n := |slots| - 1;
    var now, before := StoredRows(rows, slots), StoredRows(rows, slots[..n]);
    forall i: nat | i < n ensures Stored(rows, slots[..n], i) <==> Stored(rows, slots, i) {
      StoredPrefix(rows, slots, n, i);
    }
    forall r | r in now ensures r in before || (Stored(rows, slots, n) && r == SlotRow(slots[n])) {
      var i: nat :| i < |slots| && Stored(rows, slots, i) && r == SlotRow(slots[i]);
      if i < n { assert Stored(rows, slots[..n], i) && slots[..n][i] == slots[i]; }
    }
    forall r | r in before ensures r in now {
      var i: nat :| i < n && Stored(rows, slots[..n], i) && r == SlotRow(slots[..n][i]);
      assert Stored(rows, slots, i);
    }
  }

  lemma BlockedIffNotStored(rows: set<Row>, slots: seq<Slot>)
    requires slots != []
    requires Greedy(rows, slots[..|slots| - 1]) == rows + StoredRows(rows, slots[..|slots| - 1])
    ensures var n := |slots| - 1;
            Blocked(Greedy(rows, slots[..n]), SlotRow(slots[n])) <==> !Stored(rows, slots, n)
  {
    var n := |slots| - 1;
    var row := SlotRow(slots[n]);
    forall i: nat | i < n ensures Stored(rows, slots[..n], i) <==> Stored(rows, slots, i) {
      StoredPrefix(rows, slots, n, i);
    }
    if Blocked(Greedy(rows, slots[..n]), row) {
      var x :| x in Greedy(rows, slots[..n]) && Clash(x, row);
      if x !in rows {
        var i: nat :| i < n && Stored(rows, slots[..n], i) && x == SlotRow(slots[..n][i]);
        assert Stored(rows, slots, i);
      }
    }
    if !Stored(rows, slots, n) && !Blocked(rows, row) {
      var j: nat :| j < n && Stored(rows, slots, j) && Clash(SlotRow(slots[j]), row);
      assert Stored(rows, slots[..n], j) && slots[..n][j] == slots[j];
      assert SlotRow(slots[j]) in StoredRows(rows, slots[..n]);
    }
  }

  /** The running choice is the declarative one. */
  lemma {:induction false} GreedyIsStored(rows: set<Row>, slots: seq<Slot>)
    ensures Greedy(rows, slots) == rows + StoredRows(rows, slots)
  {
    if slots != [] {
      var n := |slots| - 1;
      GreedyIsStored(rows, slots[..n]);
      StoredRowsStep(rows, slots);
      BlockedIffNotStored(rows, slots);
    }
  }

  /** A slot that is left out has a row in the final timetable to blame for it. */
  lemma SkippedHasWitness(rows: set<Row>, slots: seq<Slot>, i: nat)
    requires i < |slots| && !Stored(rows, slots, i)
    ensures Blocked(Greedy(rows, slots), SlotRow(slots[i]))
  {
    GreedyIsStored(rows, slots);
    if !Blocked(rows, SlotRow(slots[i])) {
      var j: nat :| j < i && Stored(rows, slots, j) && Clash(SlotRow(slots[j]), SlotRow(slots[i]));
      assert SlotRow(slots[j]) in StoredRows(rows, slots);
    }
  }

  // ---- the transaction computes the greedy choice

  lemma ViewSameBookings(db: Db, db': Db)
    requires Valid(db) && Valid(db') && db.bookings == db'.bookings
    requires forall i | i in db.bookings ::
               var r := db.bookings[i].roomId;
               db'.rooms[r].name == db.rooms[r].name && db'.rooms[r].building == db.rooms[r].building
    ensures View(db') == View(db)
  {
    forall i | i in db.bookings ensures ToRow(db'.rooms, db.bookings[i]) == ToRow(db.rooms, db.bookings[i]) {}
  }

  lemma ViewCleared(db: Db)
    requires Valid(db)
    ensures View(Cleared(db)) == Kept(View(db))
  {
    var c := Cleared(db);
    forall r | r in View(c) ensures r in Kept(View(db)) {
      var i :| i in c.bookings && r == ToRow(c.rooms, c.bookings[i]);
      assert i in db.bookings && r == ToRow(db.rooms, db.bookings[i]);
    }
    forall r | r in Kept(View(db)) ensures r in View(c) {
      var i :| i in db.bookings && r == ToRow(db.rooms, db.bookings[i]);
      assert i in c.bookings && c.bookings[i].roomId in c.rooms;
    }
  }

  lemma ViewLoadRoom(st: Load, room: NamedRoom)
    requires LoadOk(st) && LoadRoom(st, room).Ok?
    ensures LoadOk(LoadRoom(st, room).value) && View(LoadRoom(st, room).value.db) == View(st.db)
  {
    LoadRoomOk(st, room);
    ViewSameBookings(st.db, LoadRoom(st, room).value.db);
  }

  lemma {:induction false} ViewLoadRooms(st: Load, rooms: seq<NamedRoom>)
    requires LoadOk(st) && LoadRooms(st, rooms).Ok?
    ensures LoadOk(LoadRooms(st, rooms).value) && View(LoadRooms(st, rooms).value.db) == View(st.db)
  {
    if rooms != [] {
      ViewLoadRooms(st, rooms[..|rooms| - 1]);
      ViewLoadRoom(LoadRooms(st, rooms[..|rooms| - 1]).value, rooms[|rooms| - 1]);
    }
  }

  /** The exclusion constraint on room ids is the clash on room names. */
  lemma TakenIsBlocked(db: Db, roomId: int, row: Row)
    requires Valid(db) && IsRoom(db.rooms, roomId, NamedRoom(row.name, row.building, 0))
    ensures Taken(db.bookings, roomId, row.start, row.end) <==> Blocked(View(db), row)
  {
    if Taken(db.bookings, roomId, row.start, row.end) {
      var i :| i in db.bookings && Conflicts(db.bookings[i], roomId, row.start, row.end);
      assert ToRow(db.rooms, db.bookings[i]) in View(db) && Clash(ToRow(db.rooms, db.bookings[i]), row);
    }
    if Blocked(View(db), row) {
      var x :| x in View(db) && Clash(x, row);
      var i :| i in db.bookings && x == ToRow(db.rooms, db.bookings[i]);
      assert db.bookings[i].roomId == roomId;
      assert Conflicts(db.bookings[i], roomId, row.start, row.end);
    }
  }

  lemma ViewInsert(db: Db, b: Booking)
    requires Valid(db) && InsertBooking(db, b).1.Inserted?
    ensures View(InsertBooking(db, b).0) == View(db) + {ToRow(db.rooms, b)}
  {
    var db' := InsertBooking(db, b).0;
    forall r | r in View(db) ensures r in View(db') {
      var i :| i in db.bookings && r == ToRow(db.rooms, db.bookings[i]);
      assert i in db'.bookings && db'.bookings[i] == db.bookings[i];
    }
    assert db'.bookings[db.nextBooking] == b;
  }

  lemma ViewLoadSlot(st: Load, slot: Slot)
    requires LoadOk(st) && LoadSlot(st, slot).Ok?
    ensures LoadOk(LoadSlot(st, slot).value)
    ensures var st' := LoadSlot(st, slot).value;
            var blocked := Blocked(View(st.db), SlotRow(slot));
            && View(st'.db) == (if blocked then View(st.db) else View(st.db) + {SlotRow(slot)})
            && st'.stats.lessonsImported == st.stats.lessonsImported + (if blocked then 0 else 1)
            && st'.stats.lessonsSkipped == st.stats.lessonsSkipped + (if blocked then 1 else 0)
  {
    var row := SlotRow(slot);
    LoadSlotOk(st, slot);
    SlotRoomOk(st, slot.room);
    var found := SlotRoom(st, slot.room).value;
    if slot.room.Key() !in st.roomIDs {
      ViewLoadRoom(st, slot.room);
    }
    var roomId := found.roomIDs[slot.room.Key()];
    TakenIsBlocked(found.db, roomId, row);
    var b := SlotBooking(roomId, slot);
    if InsertBooking(found.db, b).1.Inserted? {
      ViewInsert(found.db, b);
    } else {
      ViewSameBookings(found.db, InsertBooking(found.db, b).0);
    }
  }

  lemma {:induction false} ViewLoadSlots(st: Load, slots: seq<Slot>)
    requires LoadOk(st) && LoadSlots(st, slots).Ok?
    ensures LoadOk(LoadSlots(st, slots).value)
    ensures var st' := LoadSlots(st, slots).value;
            && View(st'.db) == Greedy(View(st.db), slots)
            && st'.stats.lessonsImported == st.stats.lessonsImported + CountStored(View(st.db), slots)
            && st'.stats.lessonsImported + st'.stats.lessonsSkipped ==
               st.stats.lessonsImported + st.stats.lessonsSkipped + |slots|
  {
    if slots != [] {
      ViewLoadSlots(st, slots[..|slots| - 1]);
      ViewLoadSlot(LoadSlots(st, slots[..|slots| - 1]).value, slots[|slots| - 1]);
    }
  }

  lemma {:induction false} LoadRoomsStats(st: Load, rooms: seq<NamedRoom>)
    requires LoadRooms(st, rooms).Ok?
    ensures LoadRooms(st, rooms).value.stats == st.stats.(roomsImported := st.stats.roomsImported + |rooms|)
  {
    if rooms != [] { LoadRoomsStats(st, rooms[..|rooms| - 1]); }
  }

  /** A committed import leaves the other rows and adds the first-come-first-served choice of the slots. */
  lemma ImportIsGreedy(db: Db, rooms: seq<NamedRoom>, slots: seq<Slot>)
    requires Valid(db) && Replace(db, rooms, slots).Ok?
    ensures Valid(Replace(db, rooms, slots).value.db)
    ensures View(Replace(db, rooms, slots).value.db) == Greedy(Kept(View(db)), slots)
    ensures var stats := Replace(db, rooms, slots).value.stats;
            && stats.lessonsImported == CountStored(Kept(View(db)), slots)
            && stats.lessonsImported + stats.lessonsSkipped == |slots|
  {
    var start := Load(Cleared(db), map[], StartStats(rooms, slots));
    ViewCleared(db);
    ViewLoadRooms(start, rooms);
    LoadRoomsStats(start, rooms);
    ViewLoadSlots(LoadRooms(start, rooms).value, slots);
  }

  // ---- other people's bookings, ids included

  lemma {:induction false} LoadRoomsBookings(st: Load, rooms: seq<NamedRoom>)
    requires LoadRooms(st, rooms).Ok?
    ensures var r := LoadRooms(st, rooms).value;
            r.db.bookings == st.db.bookings && r.db.nextBooking == st.db.nextBooking && r.db.nextRoom >= st.db.nextRoom
  {
    if rooms != [] { LoadRoomsBookings(st, rooms[..|rooms| - 1]); }
  }

  /** What loading slots may do to the bookings table. */
  ghost predicate OnlyParsedAdded(before: Db, after: Db) {
    && before.nextBooking <= after.nextBooking && before.nextRoom <= after.nextRoom
    && (forall i | i in before.bookings :: i in after.bookings && after.bookings[i] == before.bookings[i])
    && forall i | i in after.bookings && i !in before.bookings :: i >= before.nextBooking && ByParser(after.bookings[i])
  }

  lemma {:induction false} LoadSlotsBookings(st: Load, slots: seq<Slot>)
    requires LoadOk(st) && LoadSlots(st, slots).Ok?
    ensures OnlyParsedAdded(st.db, LoadSlots(st, slots).value.db)
  {
    if slots != [] {
      var init := slots[..|slots| - 1];
      LoadSlotsBookings(st, init);
      LoadSlotsOk(st, init);
      SlotRoomOk(LoadSlots(st, init).value, slots[|slots| - 1].room);
    }
  }

  lemma SameOthers(before: map<int, Booking>, after: map<int, Booking>)
    requires forall i | i in WithoutParsed(before) :: i in after && after[i] == before[i]
    requires forall i | i in after && i !in WithoutParsed(before) :: ByParser(after[i])
    ensures WithoutParsed(after) == WithoutParsed(before)
  {
    var x, y := WithoutParsed(before), WithoutParsed(after);
    forall i | i in x ensures i in y && y[i] == x[i] {
      assert i in after && after[i] == before[i];
    }
    forall i | i in y ensures i in x {}
  }

  /** A committed import neither touches nor renumbers any booking that is not the parser's, and
      every row it adds is the parser's and has a new id. */
  lemma ImportKeepsOthers(db: Db, rooms: seq<NamedRoom>, slots: seq<Slot>)
    requires Valid(db) && Replace(db, rooms, slots).Ok?
    ensures var after := Replace(db, rooms, slots).value.db;
            && WithoutParsed(after.bookings) == WithoutParsed(db.bookings)
            && OnlyParsedAdded(Cleared(db), after)
  {
    var start := Load(Cleared(db), map[], StartStats(rooms, slots));
    LoadRoomsOk(start, rooms);
    LoadRoomsBookings(start, rooms);
    LoadSlotsBookings(LoadRooms(start, rooms).value, slots);
    SameOthers(db.bookings, Replace(db, rooms, slots).value.db.bookings);
  }

  // ---- when it commits, and how many rooms it counts

  function Keys(rooms: seq<NamedRoom>): set<string> {
    if rooms == [] then {} else Keys(rooms[..|rooms| - 1]) + {rooms[|rooms| - 1].Key()}
  }

  function SlotKeys(slots: seq<Slot>): set<string> {
    if slots == [] then {} else SlotKeys(slots[..|slots| - 1]) + {slots[|slots| - 1].room.Key()}
  }

  /** A condition on the inputs alone: storable text, proper times, and a storable room wherever a key is new. */
  predicate SlotsImportable(known: set<string>, slots: seq<Slot>) {
    slots == [] ||
    var init, slot := slots[..|slots| - 1], slots[|slots| - 1];
    && SlotsImportable(known, init)
    && TextOk(slot.details) && slot.start < slot.end
    && (slot.room.Key() in known + SlotKeys(init) || slot.room.Storable())
  }

  ghost predicate Importable(rooms: seq<NamedRoom>, slots: seq<Slot>) {
    && (forall i | 0 <= i < |rooms| :: rooms[i].Storable())
    && SlotsImportable(Keys(rooms), slots)
  }

  lemma {:induction false} LoadRoomsSucceeds(st: Load, rooms: seq<NamedRoom>)
    ensures LoadRooms(st, rooms).Ok? <==> forall i | 0 <= i < |rooms| :: rooms[i].Storable()
    ensures LoadRooms(st, rooms).Ok? ==> LoadRooms(st, rooms).value.roomIDs.Keys == st.roomIDs.Keys + Keys(rooms)
  {
    if rooms != [] {
      LoadRoomsSucceeds(st, rooms[..|rooms| - 1]);
    }
  }

  lemma LoadSlotSucceeds(st: Load, slot: Slot)
    requires LoadOk(st)
    ensures LoadSlot(st, slot).Ok? <==>
            TextOk(slot.details) && slot.start < slot.end && (slot.room.Key() in st.roomIDs || slot.room.Storable())
    ensures LoadSlot(st, slot).Ok? ==>
            && LoadSlot(st, slot).value.roomIDs.Keys == st.roomIDs.Keys + {slot.room.Key()}
            && LoadSlot(st, slot).value.stats.roomsImported ==
               st.stats.roomsImported + if slot.room.Key() in st.roomIDs then 0 else 1
  {
    if SlotRoom(st, slot.room).Ok? {
      SlotRoomOk(st, slot.room);
    }
  }

  lemma {:induction false} LoadSlotsSucceeds(st: Load, slots: seq<Slot>)
    requires LoadOk(st)
    ensures LoadSlots(st, slots).Ok? <==> SlotsImportable(st.roomIDs.Keys, slots)
    ensures LoadSlots(st, slots).Ok? ==>
            LoadSlots(st, slots).value.roomIDs.Keys == st.roomIDs.Keys + SlotKeys(slots)
  {
    if slots != [] {
      LoadSlotsSucceeds(st, slots[..|slots| - 1]);
      if LoadSlots(st, slots[..|slots| - 1]).Ok? {
        LoadSlotsOk(st, slots[..|slots| - 1]);
        LoadSlotSucceeds(LoadSlots(st, slots[..|slots| - 1]).value, slots[|slots| - 1]);
      }
    }
  }

  lemma NewKeys(known: set<string>, seen: set<string>, key: string)
    ensures |seen + {key} - known| == |seen - known| + if key in known + seen then 0 else 1
  {
    if key in known + seen {
      assert seen + {key} - known == seen - known;
    } else {
      assert seen + {key} - known == (seen - known) + {key};
    }
  }

  lemma {:induction false} LateUpserts(st: Load, slots: seq<Slot>)
    requires LoadOk(st) && LoadSlots(st, slots).Ok?
    ensures LoadSlots(st, slots).value.stats.roomsImported ==
            st.stats.roomsImported + |SlotKeys(slots) - st.roomIDs.Keys|
  {
    if slots != [] {
      var init, slot := slots[..|slots| - 1], slots[|slots| - 1];
      LateUpserts(st, init);
      LoadSlotsSucceeds(st, init);
      LoadSlotsOk(st, init);
      LoadSlotSucceeds(LoadSlots(st, init).value, slot);
      NewKeys(st.roomIDs.Keys, SlotKeys(init), slot.room.Key());
    }
  }

  /** Whether the import commits depends on nothing that is in the database. */
  lemma ImportSucceedsIff(db: Db, rooms: seq<NamedRoom>, slots: seq<Slot>)
    requires Valid(db)
    ensures Replace(db, rooms, slots).Ok? <==> Importable(rooms, slots)
    ensures Replace(db, rooms, slots).Ok? ==>
            Replace(db, rooms, slots).value.stats.roomsImported == |rooms| + |SlotKeys(slots) - Keys(rooms)|
  {
    var start := Load(Cleared(db), map[], StartStats(rooms, slots));
    LoadRoomsSucceeds(start, rooms);
    if LoadRooms(start, rooms).Ok? {
      LoadRoomsOk(start, rooms);
      LoadRoomsStats(start, rooms);
      var loaded := LoadRooms(start, rooms).value;
      assert loaded.roomIDs.Keys == Keys(rooms);
      LoadSlotsSucceeds(loaded, slots);
      if LoadSlots(loaded, slots).Ok? { LateUpserts(loaded, slots); }
    }
  }

  // ---- the import forgets its past

  /** Two databases that agree on the rows that are not the parser's agree on everything after an
      import, whatever they had imported before: outcome, timetable and counters. */
  lemma ImportForgetsPast(db1: Db, db2: Db, rooms: seq<NamedRoom>, slots: seq<Slot>)
    requires Valid(db1) && Valid(db2) && Kept(View(db1)) == Kept(View(db2))
    ensures var r1, r2 := Replace(db1, rooms, slots), Replace(db2, rooms, slots);
            && (r1.Ok? <==> r2.Ok?)
            && (r1.Ok? ==> Valid(r1.value.db) && Valid(r2.value.db) && View(r1.value.db) == View(r2.value.db)
                           && r1.value.stats.lessonsImported == r2.value.stats.lessonsImported
                           && r1.value.stats.lessonsSkipped == r2.value.stats.lessonsSkipped
                           && r1.value.stats.roomsImported == r2.value.stats.roomsImported)
  {
    ImportSucceedsIff(db1, rooms, slots);
    ImportSucceedsIff(db2, rooms, slots);
    if Importable(rooms, slots) {
      ImportIsGreedy(db1, rooms, slots);
      ImportIsGreedy(db2, rooms, slots);
    }
  }

  lemma {:induction false} KeptGreedy(rows: set<Row>, slots: seq<Slot>)
    ensures Kept(Greedy(rows, slots)) == Kept(rows)
  {
    if slots != [] { KeptGreedy(rows, slots[..|slots| - 1]); }
  }

  /** Importing the same input again changes nothing a reader can see. */
  lemma ImportTwiceIsOnce(db: Db, rooms: seq<NamedRoom>, slots: seq<Slot>)
    requires Valid(db) && Replace(db, rooms, slots).Ok?
    ensures var once := Replace(db, rooms, slots).value.db;
            && Valid(once) && Replace(once, rooms, slots).Ok?
            && Valid(Replace(once, rooms, slots).value.db)
            && View(Replace(once, rooms, slots).value.db) == View(once)
  {
    ImportIsGreedy(db, rooms, slots);
    var once := Replace(db, rooms, slots).value.db;
    KeptGreedy(Kept(View(db)), slots);
    assert Kept(Kept(View(db))) == Kept(View(db));
    ImportForgetsPast(db, once, rooms, slots);
  }

  // ---- the same in columns

  /** The row that a slot asks for: in the slot's room, the parser's, with the slot's times and details. */
  predicate BooksSlot(rooms: map<int, Room>, b: Booking, slot: Slot) {
    && b.roomId in rooms && rooms[b.roomId].name == slot.room.name && rooms[b.roomId].building == slot.room.building
    && b.userId == 0 && b.creatorRole == Admin
    && b.start == slot.start && b.end == slot.end && b.details == slot.details
  }

  /** A row in the slot's room at some of the slot's time. */
  predicate InSlotsWay(rooms: map<int, Room>, b: Booking, slot: Slot) {
    && b.roomId in rooms && rooms[b.roomId].name == slot.room.name && rooms[b.roomId].building == slot.room.building
    && b.start < slot.end && slot.start < b.end
  }

  /** Two slots of one room that share some time. */
  predicate SlotsClash(x: Slot, y: Slot) {
    x.room.name == y.room.name && x.room.building == y.room.building && x.start < y.end && y.start < x.end
  }

  lemma RowOfSlot(db: Db, slot: Slot)
    requires Valid(db) && SlotRow(slot) in View(db)
    ensures exists i :: i in db.bookings && BooksSlot(db.rooms, db.bookings[i], slot)
  {
    var i :| i in db.bookings && ToRow(db.rooms, db.bookings[i]) == SlotRow(slot);
    assert BooksSlot(db.rooms, db.bookings[i], slot);
  }

  /** A parser's row comes from a slot. */
  lemma RowFromSlot(before: Db, after: Db, slots: seq<Slot>, i: int)
    requires Valid(before) && Valid(after) && View(after) == Greedy(Kept(View(before)), slots)
    requires i in after.bookings && after.bookings[i].userId == 0 && after.bookings[i].creatorRole == Admin
    ensures exists k :: 0 <= k < |slots| && BooksSlot(after.rooms, after.bookings[i], slots[k])
  {
    var rows, row := Kept(View(before)), ToRow(after.rooms, after.bookings[i]);
    GreedyIsStored(rows, slots);
    assert row in View(after) && row !in rows;
    var k: nat :| k < |slots| && Stored(rows, slots, k) && row == SlotRow(slots[k]);
    assert BooksSlot(after.rooms, after.bookings[i], slots[k]);
  }

  /** Every slot is in the timetable, or something in its room is there at some of its time. */
  lemma SlotStoredOrTaken(before: Db, after: Db, slots: seq<Slot>, k: nat)
    requires Valid(before) && Valid(after) && View(after) == Greedy(Kept(View(before)), slots) && k < |slots|
    ensures exists i :: i in after.bookings && InSlotsWay(after.rooms, after.bookings[i], slots[k])
  {
    var rows := Kept(View(before));
    GreedyIsStored(rows, slots);
    if Stored(rows, slots, k) {
      assert SlotRow(slots[k]) in StoredRows(rows, slots);
      RowOfSlot(after, slots[k]);
      var i :| i in after.bookings && BooksSlot(after.rooms, after.bookings[i], slots[k]);
      assert BookingOk(after.bookings[i], after.rooms);
      assert InSlotsWay(after.rooms, after.bookings[i], slots[k]);
    } else {
      SkippedHasWitness(rows, slots, k);
      var x :| x in View(after) && Clash(x, SlotRow(slots[k]));
      var i :| i in after.bookings && ToRow(after.rooms, after.bookings[i]) == x;
      assert InSlotsWay(after.rooms, after.bookings[i], slots[k]);
    }
  }

  /** A slot that nobody's booking and no earlier slot is in the way of is stored as it is. */
  lemma FreeSlotStored(before: Db, after: Db, slots: seq<Slot>, k: nat)
    requires Valid(before) && Valid(after) && View(after) == Greedy(Kept(View(before)), slots) && k < |slots|
    requires forall i | i in before.bookings && InSlotsWay(before.rooms, before.bookings[i], slots[k]) ::
               before.bookings[i].userId == 0 && before.bookings[i].creatorRole == Admin
    requires forall j | 0 <= j < k :: !SlotsClash(slots[j], slots[k])
    ensures exists i :: i in after.bookings && BooksSlot(after.rooms, after.bookings[i], slots[k])
  {
    var rows := Kept(View(before));
    GreedyIsStored(rows, slots);
    if Blocked(rows, SlotRow(slots[k])) {
      var x :| x in rows && Clash(x, SlotRow(slots[k]));
      var i :| i in before.bookings && ToRow(before.rooms, before.bookings[i]) == x;
      assert InSlotsWay(before.rooms, before.bookings[i], slots[k]);
    }
    forall j | 0 <= j < k ensures !Clash(SlotRow(slots[j]), SlotRow(slots[k])) {
      assert !SlotsClash(slots[j], slots[k]);
    }
    assert SlotRow(slots[k]) in StoredRows(rows, slots);
    RowOfSlot(after, slots[k]);
  }

  /** Everybody else's rows stay under their ids, the parser's old ones go, and what is new is the parser's. */
  ghost predicate OnlyParsersChange(before: map<int, Booking>, after: map<int, Booking>, next: int) {
    && (forall i | i in before && !(before[i].userId == 0 && before[i].creatorRole == Admin) ::
          i in after && after[i] == before[i])
    && forall i | i in after ::
         if i in before then after[i] == before[i] && !(before[i].userId == 0 && before[i].creatorRole == Admin)
         else i >= next && after[i].userId == 0 && after[i].creatorRole == Admin
  }

  lemma OthersUntouched(db: Db, rooms: seq<NamedRoom>, slots: seq<Slot>)
    requires Valid(db) && Replace(db, rooms, slots).Ok?
    ensures OnlyParsersChange(db.bookings, Replace(db, rooms, slots).value.db.bookings, db.nextBooking)
  {
    ImportKeepsOthers(db, rooms, slots);
    ClearedInColumns(db);
    var after := Replace(db, rooms, slots).value.db;
    forall i | i in db.bookings && !(db.bookings[i].userId == 0 && db.bookings[i].creatorRole == Admin)
      ensures i in after.bookings && after.bookings[i] == db.bookings[i]
    {
      assert i in WithoutParsed(db.bookings) && i in WithoutParsed(after.bookings);
    }
  }

  lemma {:induction false} LoadSlotsKeys(st: Load, slots: seq<Slot>)
    requires LoadSlots(st, slots).Ok?
    ensures st.roomIDs.Keys <= LoadSlots(st, slots).value.roomIDs.Keys
  {
    if slots != [] {
      LoadSlotsKeys(st, slots[..|slots| - 1]);
    }
  }

  lemma {:induction false} KeyListed(rooms: seq<NamedRoom>, k: nat)
    requires k < |rooms|
    ensures rooms[k].Key() in Keys(rooms)
    decreases |rooms|
  {
    if k < |rooms| - 1 { KeyListed(rooms[..|rooms| - 1], k); }
  }

  ghost predicate HasRoom(rooms: map<int, Room>, name: string, building: string) {
    exists i :: i in rooms && rooms[i].name == name && rooms[i].building == building
  }

  /** Every listed room is there after a committed import. */
  lemma RoomsListed(db: Db, rooms: seq<NamedRoom>, slots: seq<Slot>, k: nat)
    requires Valid(db) && Replace(db, rooms, slots).Ok? && k < |rooms|
    ensures HasRoom(Replace(db, rooms, slots).value.db.rooms, rooms[k].name, rooms[k].building)
  {
    var start := Load(Cleared(db), map[], StartStats(rooms, slots));
    LoadRoomsSucceeds(start, rooms);
    LoadSlotsKeys(LoadRooms(start, rooms).value, slots);
    ReplaceOk(db, rooms, slots);
    KeyListed(rooms, k);
    var end := Replace(db, rooms, slots).value;
    var id := end.roomIDs[rooms[k].Key()];
    RoomKeyInjective(end.db.rooms[id].building, end.db.rooms[id].name, rooms[k].building, rooms[k].name);
  }

  /** The slot is in nobody's way: not in that of a row kept, nor of an earlier slot. */
  ghost predicate SlotFree(before: Db, slots: seq<Slot>, k: nat)
    requires k < |slots|
  {
    && (forall i | i in before.bookings && InSlotsWay(before.rooms, before.bookings[i], slots[k]) ::
          before.bookings[i].userId == 0 && before.bookings[i].creatorRole == Admin)
    && forall j | 0 <= j < k :: !SlotsClash(slots[j], slots[k])
  }

  ghost predicate EachRowHasSlot(after: Db, slots: seq<Slot>) {
    forall i | i in after.bookings && after.bookings[i].userId == 0 && after.bookings[i].creatorRole == Admin ::
      exists k :: 0 <= k < |slots| && BooksSlot(after.rooms, after.bookings[i], slots[k])
  }

  ghost predicate EachSlotHasRow(before: Db, after: Db, slots: seq<Slot>) {
    forall k | 0 <= k < |slots| ::
      && (exists i :: i in after.bookings && InSlotsWay(after.rooms, after.bookings[i], slots[k]))
      && (SlotFree(before, slots, k) ==>
            exists i :: i in after.bookings && BooksSlot(after.rooms, after.bookings[i], slots[k]))
  }

  ghost predicate RoomsThere(after: Db, rooms: seq<NamedRoom>) {
    forall k | 0 <= k < |rooms| :: HasRoom(after.rooms, rooms[k].name, rooms[k].building)
  }

  /** What a committed import has made of the tables, in their columns. */
  ghost predicate ImportedInColumns(before: Db, after: Db, rooms: seq<NamedRoom>, slots: seq<Slot>) {
    && OnlyParsersChange(before.bookings, after.bookings, before.nextBooking)
    && EachRowHasSlot(after, slots) && EachSlotHasRow(before, after, slots) && RoomsThere(after, rooms)
  }

  lemma RowsHaveSlots(db: Db, after: Db, slots: seq<Slot>)
    requires Valid(db) && Valid(after) && View(after) == Greedy(Kept(View(db)), slots)
    ensures EachRowHasSlot(after, slots)
  {
    hide View, Greedy, Kept, BooksSlot, Valid;
    forall i | i in after.bookings && after.bookings[i].userId == 0 && after.bookings[i].creatorRole == Admin
      ensures exists k :: 0 <= k < |slots| && BooksSlot(after.rooms, after.bookings[i], slots[k])
    {
      RowFromSlot(db, after, slots, i);
    }
  }

  lemma SlotsHaveRows(db: Db, after: Db, slots: seq<Slot>)
    requires Valid(db) && Valid(after) && View(after) == Greedy(Kept(View(db)), slots)
    ensures EachSlotHasRow(db, after, slots)
  {
    hide View, Greedy, Kept, BooksSlot, InSlotsWay, Valid;
    forall k | 0 <= k < |slots|
      ensures exists i :: i in after.bookings && InSlotsWay(after.rooms, after.bookings[i], slots[k])
      ensures SlotFree(db, slots, k) ==>
                exists i :: i in after.bookings && BooksSlot(after.rooms, after.bookings[i], slots[k])
    {
      SlotStoredOrTaken(db, after, slots, k);
      if SlotFree(db, slots, k) { FreeSlotStored(db, after, slots, k); }
    }
  }

  lemma ImportInColumns(db: Db, rooms: seq<NamedRoom>, slots: seq<Slot>)
    requires Valid(db) && Replace(db, rooms, slots).Ok?
    ensures ImportedInColumns(db, Replace(db, rooms, slots).value.db, rooms, slots)
  {
    hide Replace, View, Greedy, Kept, Valid, OnlyParsersChange, EachRowHasSlot, EachSlotHasRow, HasRoom;
    var after := Replace(db, rooms, slots).value.db;
    ImportIsGreedy(db, rooms, slots);
    OthersUntouched(db, rooms, slots);
    RowsHaveSlots(db, after, slots);
    SlotsHaveRows(db, after, slots);
    forall k | 0 <= k < |rooms| ensures HasRoom(after.rooms, rooms[k].name, rooms[k].building) {
      RoomsListed(db, rooms, slots, k);
    }
  }
}
