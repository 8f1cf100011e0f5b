/** Requests as interleaved steps: every statement sent to the database is one atomic step, and any
    number of requests and imports take their steps in any order. A run is a sequence of actions. */
module BookingService {
  import opened BookingDomain
  import opened BookingStore
  import opened ScheduleImport

  datatype Caller = Caller(userId: int, role: Role)

  datatype Request =
    | CreateRequest(caller: Caller, roomId: int, start: int, end: int)
    | CancelRequest(caller: Caller, bookingId: int)

  datatype Answer = Created(id: int) | Cancelled | Failed(error: Error)

  /** Where a request is, with the local variables that are live there. */
  datatype Pc =
    | Arrived
    // creating
    | RoomSeen
    | Listed(existing: map<int, Booking>)
    | NoConflictSeen
    | Stored(id: int, row: Booking)
    // cancelling
    | Read(row: Booking)
    | Authorised(row: Booking)
    | Deleted(row: Booking)
    // either
    | Done(answer: Answer)

  datatype Proc = Proc(req: Request, pc: Pc)

  datatype Event =
    | BookingCreated(id: int, row: Booking)
    | BookingCancelled(id: int, row: Booking, cancelledBy: Caller, selfCancel: bool)

  datatype State = State(db: Db, procs: map<int, Proc>, events: seq<Event>)

  datatype Action =
    | Arrive(pid: int, req: Request)
    | Step(pid: int)
    | StatementFails(pid: int)
    | ReplyLost(pid: int)
    | Import(rooms: seq<NamedRoom>, slots: seq<Slot>)
    | ImportRolledBack(usedRooms: nat, usedBookings: nat)

  function Wanted(req: Request): Booking
    requires req.CreateRequest?
  {
    Booking(req.roomId, req.caller.userId, req.caller.role, req.start, req.end, NO_DETAILS)
  }

  predicate MayCancel(caller: Caller, row: Booking) {
    row.userId == caller.userId || caller.role.CanCancelOther(row.creatorRole)
  }

  function InRoom(bookings: map<int, Booking>, roomId: int): map<int, Booking> {
    map i | i in bookings && bookings[i].roomId == roomId :: bookings[i]
  }

  function Goto(s: State, pid: int, pc: Pc): State
    requires pid in s.procs
  {
    s.(procs := s.procs[pid := s.procs[pid].(pc := pc)])
  }

  /** The next step of a create request. */
  function CreateStep(s: State, pid: int): State
    requires pid in s.procs && s.procs[pid].req.CreateRequest?
  {
    var req := s.procs[pid].req;
    match s.procs[pid].pc
    case Arrived =>
      Goto(s, pid, if !req.caller.role.IsKnown() then Done(Failed(Forbidden))
                   else if req.start >= req.end then Done(Failed(InvalidTimeRange))
                   else if req.roomId !in s.db.rooms then Done(Failed(RoomNotFound))
                   else RoomSeen)
    case RoomSeen =>
      Goto(s, pid, Listed(InRoom(s.db.bookings, req.roomId)))
    case Listed(existing) =>
      Goto(s, pid, if Taken(existing, req.roomId, req.start, req.end) then Done(Failed(ScheduleConflict))
                   else NoConflictSeen)
    case NoConflictSeen =>
      var (db, outcome) := InsertBooking(s.db, Wanted(req));
      Goto(s.(db := db), pid, match outcome
                              case Inserted(id) => Stored(id, Wanted(req))
                              case Rejected(e) => Done(Failed(e)))
    case Stored(id, row) =>
      Goto(s.(events := s.events + [BookingCreated(id, row)]), pid, Done(Created(id)))
    case _ => s
  }

  /** The next step of a cancel request. */
  function CancelStep(s: State, pid: int): State
    requires pid in s.procs && s.procs[pid].req.CancelRequest?
  {
    var req := s.procs[pid].req;
    match s.procs[pid].pc
    case Arrived =>
      Goto(s, pid, if !req.caller.role.IsKnown() then Done(Failed(Forbidden))
                   else if req.bookingId !in s.db.bookings then Done(Failed(BookingNotFound))
                   else Read(s.db.bookings[req.bookingId]))
    case Read(row) =>
      Goto(s, pid, if MayCancel(req.caller, row) then Authorised(row) else Done(Failed(Forbidden)))
    case Authorised(row) =>
      Goto(s.(db := DeleteBooking(s.db, req.bookingId)), pid,
           if req.bookingId in s.db.bookings then Deleted(row) else Done(Failed(BookingNotFound)))
    case Deleted(row) =>
      var event := BookingCancelled(req.bookingId, row, req.caller, row.userId == req.caller.userId);
      Goto(s.(events := s.events + [event]), pid, Done(Cancelled))
    case _ => s
  }

  function ProcStep(s: State, pid: int): State
    requires pid in s.procs
  {
    if s.procs[pid].req.CreateRequest? then CreateStep(s, pid) else CancelStep(s, pid)
  }

  predicate AwaitsStatement(pc: Pc) { pc.Arrived? || pc.RoomSeen? || pc.NoConflictSeen? || pc.Authorised? }

  predicate AwaitsWrite(pc: Pc) { pc.NoConflictSeen? || pc.Authorised? }

  /** One action; one that is not possible here leaves the state alone. */
  ghost function Do(s: State, a: Action): State {
    match a
    case Arrive(pid, req) => if pid in s.procs then s else s.(procs := s.procs[pid := Proc(req, Arrived)])
    case Step(pid) => if pid in s.procs then ProcStep(s, pid) else s
    case StatementFails(pid) =>
      if pid in s.procs && AwaitsStatement(s.procs[pid].pc) then Goto(s, pid, Done(Failed(StorageFailure))) else s
    case ReplyLost(pid) =>
      if pid in s.procs && AwaitsWrite(s.procs[pid].pc)
      then Goto(ProcStep(s, pid), pid, Done(Failed(StorageFailure)))
      else s
    case Import(rooms, slots) =>
      var r := Replace(s.db, rooms, slots);
      if r.Ok? then s.(db := r.value.db) else s
    case ImportRolledBack(usedRooms, usedBookings) =>
      s.(db := s.db.(nextRoom := s.db.nextRoom + usedRooms, nextBooking := s.db.nextBooking + usedBookings))
  }

  ghost function Run(s: State, acts: seq<Action>): State {
    if acts == [] then s else Do(Run(s, acts[..|acts| - 1]), acts[|acts| - 1])
  }

  lemma RunStep(s: State, acts: seq<Action>, n: nat)
    requires n < |acts|
    ensures Run(s, acts[..n + 1]) == Do(Run(s, acts[..n]), acts[n])
  {
    assert acts[..n + 1][..n] == acts[..n];
  }

  // ---- the invariant of every interleaving

  /** Rows are never updated and ids never come back. */
  ghost predicate Grows(before: Db, after: Db) {
    && before.nextBooking <= after.nextBooking
    && forall i | i in after.bookings ::
         i >= before.nextBooking || (i in before.bookings && before.bookings[i] == after.bookings[i])
  }

  /** The id is used up, and if its row is still there it is this one. */
  ghost predicate Remembers(db: Db, id: int, row: Booking) {
    id < db.nextBooking && (id in db.bookings ==> db.bookings[id] == row)
  }

  ghost predicate ProcOk(db: Db, p: Proc) {
    match p.pc
    case Arrived => true
    case Done(_) => true
    case RoomSeen => p.req.CreateRequest?
    case Listed(_) => p.req.CreateRequest?
    case NoConflictSeen => p.req.CreateRequest?
    case Stored(id, row) => p.req.CreateRequest? && row == Wanted(p.req) && Remembers(db, id, row)
    case Read(row) => p.req.CancelRequest? && p.req.caller.role.IsKnown() && Remembers(db, p.req.bookingId, row)
    case Authorised(row) =>
      && p.req.CancelRequest? && p.req.caller.role.IsKnown()
      && MayCancel(p.req.caller, row) && Remembers(db, p.req.bookingId, row)
    case Deleted(row) => p.req.CancelRequest? && Remembers(db, p.req.bookingId, row)
  }

  ghost predicate Inv(s: State) {
    Valid(s.db) && forall pid | pid in s.procs :: ProcOk(s.db, s.procs[pid])
  }

  lemma ImportGrows(db: Db, rooms: seq<NamedRoom>, slots: seq<Slot>)
    requires Valid(db) && Replace(db, rooms, slots).Ok?
    ensures Valid(Replace(db, rooms, slots).value.db) && Grows(db, Replace(db, rooms, slots).value.db)
  {
    ReplaceOk(db, rooms, slots);
    ImportKeepsOthers(db, rooms, slots);
  }

  lemma DbGrows(s: State, a: Action)
    requires Valid(s.db)
    ensures Valid(Do(s, a).db) && Grows(s.db, Do(s, a).db)
  {
    if a.Import? && Replace(s.db, a.rooms, a.slots).Ok? {
      ImportGrows(s.db, a.rooms, a.slots);
    }
  }

  lemma ProcOkFrame(before: Db, after: Db, p: Proc)
    requires Grows(before, after) && ProcOk(before, p)
    ensures ProcOk(after, p)
  {
  }

  /** The request that has taken the step. */
  lemma ActorStaysOk(s: State, a: Action, pid: int)
    requires Inv(s) && pid in Do(s, a).procs && !(pid in s.procs && Do(s, a).procs[pid] == s.procs[pid])
    ensures ProcOk(Do(s, a).db, Do(s, a).procs[pid])
  {
  }

  lemma StepKeepsInv(s: State, a: Action)
    requires Inv(s)
    ensures Inv(Do(s, a))
  {
    DbGrows(s, a);
    var s' := Do(s, a);
    forall pid | pid in s'.procs ensures ProcOk(s'.db, s'.procs[pid]) {
      if pid in s.procs && s'.procs[pid] == s.procs[pid] {
        ProcOkFrame(s.db, s'.db, s.procs[pid]);
      } else {
        ActorStaysOk(s, a, pid);
      }
    }
  }

  /** In every state of every interleaving the schema's constraints hold, overlap included. */
  lemma {:induction false} RunKeepsInv(s: State, acts: seq<Action>)
    requires Inv(s)
    ensures Inv(Run(s, acts))
  {
    if acts != [] {
      RunKeepsInv(s, acts[..|acts| - 1]);
      StepKeepsInv(Run(s, acts[..|acts| - 1]), acts[|acts| - 1]);
    }
  }

  /** The same in the columns themselves. */
  lemma RunKeepsSchema(s: State, acts: seq<Action>)
    requires Inv(s)
    ensures var db := Run(s, acts).db;
            && (forall i, j | i in db.bookings && j in db.bookings && i != j ::
                  var a, b := db.bookings[i], db.bookings[j];
                  a.roomId == b.roomId ==> a.end <= b.start || b.end <= a.start)
            && forall i | i in db.bookings ::
                 var b := db.bookings[i];
                 && b.start < b.end && b.roomId in db.rooms
                 && b.creatorRole in {StudentB, StudentM, StudentA, Teacher, Admin}
  {
    RunKeepsInv(s, acts);
    ValidInColumns(Run(s, acts).db);
  }

  lemma GrowsTransitive(a: Db, b: Db, c: Db)
    requires Grows(a, b) && Grows(b, c)
    ensures Grows(a, c)
  {
  }

  /** Over a whole run a booking keeps its row for as long as it is there, and an id that has been
      handed out never names another row. */
  lemma {:induction false} IdsNeverReused(s: State, acts: seq<Action>)
    requires Inv(s)
    ensures Grows(s.db, Run(s, acts).db)
  {
    if acts != [] {
      var before := Run(s, acts[..|acts| - 1]);
      IdsNeverReused(s, acts[..|acts| - 1]);
      RunKeepsInv(s, acts[..|acts| - 1]);
      DbGrows(before, acts[|acts| - 1]);
      GrowsTransitive(s.db, before.db, Run(s, acts).db);
    }
  }

  // ---- who can make a booking disappear

  /** The step at which a cancel request deletes the row it has authorised. */
  ghost predicate DeletesAuthorised(s: State, a: Action, id: int, row: Booking) {
    && (a.Step? || a.ReplyLost?) && a.pid in s.procs
    && var p := s.procs[a.pid];
       p.req.CancelRequest? && p.req.bookingId == id && p.pc == Authorised(row)
  }

  /** The owner, an admin, or a known role of higher rank than the creator's. */
  predicate Entitled(caller: Caller, row: Booking) {
    && caller.role.IsKnown()
    && (caller.userId == row.userId || caller.role == Admin || caller.role.Rank() > row.creatorRole.Rank())
  }

  lemma ImportKeepsRow(db: Db, rooms: seq<NamedRoom>, slots: seq<Slot>, id: int)
    requires Valid(db) && Replace(db, rooms, slots).Ok? && id in db.bookings && !ByParser(db.bookings[id])
    ensures id in Replace(db, rooms, slots).value.db.bookings
  {
    ImportKeepsOthers(db, rooms, slots);
    assert id in WithoutParsed(db.bookings);
  }

  lemma StepDisappearance(s: State, a: Action, id: int)
    requires Inv(s)
    requires id in s.db.bookings && !ByParser(s.db.bookings[id]) && id !in Do(s, a).db.bookings
    ensures DeletesAuthorised(s, a, id, s.db.bookings[id])
    ensures Entitled(s.procs[a.pid].req.caller, s.db.bookings[id])
  {
    if a.Import? && Replace(s.db, a.rooms, a.slots).Ok? {
      ImportKeepsRow(s.db, a.rooms, a.slots, id);
    }
  }

  /** A booking that is not the parser's disappears in a run only because some request, entitled to
      cancel exactly this row, deleted it. */
  lemma {:induction false} DisappearsOnlyByCancel(s: State, acts: seq<Action>, id: int)
    requires Inv(s) && id in s.db.bookings && !ByParser(s.db.bookings[id])
    requires id !in Run(s, acts).db.bookings
    ensures exists k :: 0 <= k < |acts|
              && DeletesAuthorised(Run(s, acts[..k]), acts[k], id, s.db.bookings[id])
              && id in Run(s, acts[..k]).db.bookings && Run(s, acts[..k]).db.bookings[id] == s.db.bookings[id]
              && Entitled(Run(s, acts[..k]).procs[acts[k].pid].req.caller, s.db.bookings[id])
  {
    var n := |acts| - 1;
    var init := acts[..n];
    var before := Run(s, init);
    RunKeepsInv(s, init);
    IdsNeverReused(s, init);
    if id in before.db.bookings {
      StepDisappearance(before, acts[n], id);
    } else {
      DisappearsOnlyByCancel(s, init, id);
      var k :| 0 <= k < n && DeletesAuthorised(Run(s, init[..k]), init[k], id, s.db.bookings[id])
        && id in Run(s, init[..k]).db.bookings && Run(s, init[..k]).db.bookings[id] == s.db.bookings[id]
        && Entitled(Run(s, init[..k]).procs[init[k].pid].req.caller, s.db.bookings[id]);
      assert init[..k] == acts[..k] && init[k] == acts[k];
    }
  }
}
