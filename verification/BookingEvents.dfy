/** The published events and the bookings held: what was created and not cancelled is there, but for writes
    that the database has carried out and whose reply was lost, which the service takes for failed. */
module BookingEvents {
  import opened BookingDomain
  import opened BookingStore
  import opened ScheduleImport
  import opened BookingService

  ghost predicate CreatedEvent(events: seq<Event>, id: int) {
    exists k :: 0 <= k < |events| && events[k].BookingCreated? && events[k].id == id && !ByParser(events[k].row)
  }

  ghost predicate CancelledEvent(events: seq<Event>, id: int) {
    exists k :: 0 <= k < |events| && events[k].BookingCancelled? && events[k].id == id
  }

  /** A request between its write and its publication. */
  predicate Bears(p: Proc, id: int) { p.pc.Stored? && p.pc.id == id && !ByParser(p.pc.row) }

  predicate Buries(p: Proc, id: int) { p.pc.Deleted? && p.req.CancelRequest? && p.req.bookingId == id }

  ghost predicate Born(s: State, id: int) {
    CreatedEvent(s.events, id) || exists pid :: pid in s.procs && Bears(s.procs[pid], id)
  }

  ghost predicate Buried(s: State, id: int) {
    CancelledEvent(s.events, id) || exists pid :: pid in s.procs && Buries(s.procs[pid], id)
  }

  predicate Held(db: Db, id: int) { id in db.bookings && !ByParser(db.bookings[id]) }

  /** Each cancelled event has an id of its own, which no request is about to publish again. */
  ghost predicate CancelledOnce(s: State) {
    && (forall i, j :: 0 <= i < j < |s.events| && s.events[i].BookingCancelled? && s.events[j].BookingCancelled?
                       ==> s.events[i].id != s.events[j].id)
    && (forall pid, id :: pid in s.procs && Buries(s.procs[pid], id) ==> !CancelledEvent(s.events, id))
    && forall p, q, id :: p in s.procs && q in s.procs && Buries(s.procs[p], id) && Buries(s.procs[q], id) ==> p == q
  }

  /** The bookings written or deleted by a statement whose reply was lost. */
  datatype Lost = Lost(inserts: set<int>, deletes: set<int>)

  const NOTHING_LOST := Lost({}, {})

  function LostBy(s: State, a: Action): Lost {
    if !(a.ReplyLost? && a.pid in s.procs) then NOTHING_LOST
    else
      var p := s.procs[a.pid];
      if p.req.CreateRequest? && p.pc.NoConflictSeen? && InsertBooking(s.db, Wanted(p.req)).1.Inserted?
         && !ByParser(Wanted(p.req))
      then Lost({s.db.nextBooking}, {})
      else if p.req.CancelRequest? && p.pc.Authorised? && p.req.bookingId in s.db.bookings
      then Lost({}, {p.req.bookingId})
      else NOTHING_LOST
  }

  function Join(a: Lost, b: Lost): Lost { Lost(a.inserts + b.inserts, a.deletes + b.deletes) }

  /** Over a run. */
  ghost function LostWrites(s: State, acts: seq<Action>): Lost {
    if acts == [] then NOTHING_LOST
    else Join(LostWrites(s, acts[..|acts| - 1]), LostBy(Run(s, acts[..|acts| - 1]), acts[|acts| - 1]))
  }

  /** What is published, or about to be, has been published of no lost write. */
  ghost predicate Apart(s: State, lost: Lost) {
    && (forall id | id in lost.inserts :: !Born(s, id))
    && (forall id | id in lost.deletes :: !Buried(s, id))
  }

  ghost predicate Books(s: State, lost: Lost) {
    && (forall id :: Held(s.db, id) <==> (Born(s, id) || id in lost.inserts) && !(Buried(s, id) || id in lost.deletes))
    && (forall id :: Born(s, id) || id in lost.inserts || Buried(s, id) || id in lost.deletes ==> id < s.db.nextBooking)
    && (forall id :: Buried(s, id) || id in lost.deletes ==> id !in s.db.bookings)
    && Apart(s, lost)
    && CancelledOnce(s)
  }

  lemma EventAppended(events: seq<Event>, e: Event, id: int)
    ensures CreatedEvent(events + [e], id) <==>
            CreatedEvent(events, id) || (e.BookingCreated? && e.id == id && !ByParser(e.row))
    ensures CancelledEvent(events + [e], id) <==> CancelledEvent(events, id) || (e.BookingCancelled? && e.id == id)
  {
    var all := events + [e];
    assert all[|events|] == e;
    assert forall k :: 0 <= k < |events| ==> all[k] == events[k];
  }

  /** Replacing one request by another that carries the same unpublished write. */
  lemma SameInFlight(s: State, s': State, pid: int)
    requires s'.events == s.events && pid in s'.procs && s'.procs == s.procs[pid := s'.procs[pid]]
    requires forall id :: Bears(s'.procs[pid], id) <==> pid in s.procs && Bears(s.procs[pid], id)
    requires forall id :: Buries(s'.procs[pid], id) <==> pid in s.procs && Buries(s.procs[pid], id)
    ensures forall id :: Born(s', id) <==> Born(s, id)
    ensures forall id :: Buried(s', id) <==> Buried(s, id)
    ensures CancelledOnce(s) ==> CancelledOnce(s')
  {
    forall id ensures Born(s', id) <==> Born(s, id) {
      if p :| p in s.procs && Bears(s.procs[p], id) { assert Bears(s'.procs[p], id); }
    }
    forall id ensures Buried(s', id) <==> Buried(s, id) {
      if p :| p in s.procs && Buries(s.procs[p], id) { assert Buries(s'.procs[p], id); }
    }
  }

  /** Actions that neither write nor publish a booking that is not the parser's. */
  lemma QuietStep(s: State, s': State, pid: int, lost: Lost)
    requires Books(s, lost) && s'.events == s.events && pid in s'.procs && s'.procs == s.procs[pid := s'.procs[pid]]
    requires !s'.procs[pid].pc.Stored? && !s'.procs[pid].pc.Deleted?
    requires pid in s.procs ==> !s.procs[pid].pc.Stored? && !s.procs[pid].pc.Deleted?
    requires s'.db.bookings == s.db.bookings && s.db.nextBooking <= s'.db.nextBooking
    ensures Books(s', lost)
  {
    SameInFlight(s, s', pid);
    assert forall id :: Held(s'.db, id) <==> Held(s.db, id);
  }

  lemma ImportStep(s: State, s': State, lost: Lost)
    requires Books(s, lost) && s' == s.(db := s'.db) && Valid(s.db)
    requires WithoutParsed(s'.db.bookings) == WithoutParsed(s.db.bookings) && Grows(s.db, s'.db)
    ensures Books(s', lost)
  {
    assert forall id :: Born(s', id) <==> Born(s, id);
    assert forall id :: Buried(s', id) <==> Buried(s, id);
    forall id ensures Held(s'.db, id) <==> Held(s.db, id) {
      assert Held(s'.db, id) <==> id in WithoutParsed(s'.db.bookings);
      assert Held(s.db, id) <==> id in WithoutParsed(s.db.bookings);
    }
  }

  lemma InsertStep(s: State, pid: int, lost: Lost)
    requires Inv(s) && Books(s, lost) && pid in s.procs && s.procs[pid].req.CreateRequest?
    requires s.procs[pid].pc.NoConflictSeen?
    ensures Books(CreateStep(s, pid), lost)
  {
    var s' := CreateStep(s, pid);
    var row := Wanted(s.procs[pid].req);
    var outcome := InsertBooking(s.db, row).1;
    if outcome.Rejected? {
      QuietStep(s, s', pid, lost);
    } else {
      var newId := outcome.id;
      forall id ensures Born(s', id) <==> Born(s, id) || (id == newId && !ByParser(row)) {
        if p :| p in s.procs && Bears(s.procs[p], id) { assert Bears(s'.procs[p], id); }
        if id == newId && !ByParser(row) { assert Bears(s'.procs[pid], id); }
      }
      forall id ensures Buried(s', id) <==> Buried(s, id) {
        if p :| p in s.procs && Buries(s.procs[p], id) { assert Buries(s'.procs[p], id); }
      }
      forall id ensures Held(s'.db, id) <==> Held(s.db, id) || (id == newId && !ByParser(row)) {}
    }
  }

  lemma PublishCreated(s: State, pid: int, lost: Lost)
    requires Books(s, lost) && pid in s.procs && s.procs[pid].req.CreateRequest? && s.procs[pid].pc.Stored?
    ensures Books(CreateStep(s, pid), lost)
  {
    var s' := CreateStep(s, pid);
    var e := BookingCreated(s.procs[pid].pc.id, s.procs[pid].pc.row);
    forall id
      ensures CreatedEvent(s'.events, id) <==> CreatedEvent(s.events, id) || Bears(s.procs[pid], id)
      ensures CancelledEvent(s'.events, id) <==> CancelledEvent(s.events, id)
    {
      EventAppended(s.events, e, id);
    }
    forall id ensures Born(s', id) <==> Born(s, id) {
      if p :| p in s.procs && Bears(s.procs[p], id) { assert p == pid || Bears(s'.procs[p], id); }
    }
    forall id ensures Buried(s', id) <==> Buried(s, id) {
      if p :| p in s.procs && Buries(s.procs[p], id) { assert Buries(s'.procs[p], id); }
    }
  }

  lemma DeleteStep(s: State, pid: int, lost: Lost)
    requires Inv(s) && Books(s, lost) && pid in s.procs && s.procs[pid].req.CancelRequest?
    requires s.procs[pid].pc.Authorised?
    ensures Books(CancelStep(s, pid), lost)
  {
    var s' := CancelStep(s, pid);
    var gone := s.procs[pid].req.bookingId;
    if gone !in s.db.bookings {
      assert s'.db.bookings == s.db.bookings;
      QuietStep(s, s', pid, lost);
    } else {
      forall id ensures Born(s', id) <==> Born(s, id) {
        if p :| p in s.procs && Bears(s.procs[p], id) { assert Bears(s'.procs[p], id); }
      }
      forall id ensures Buried(s', id) <==> Buried(s, id) || id == gone {
        if p :| p in s.procs && Buries(s.procs[p], id) { assert Buries(s'.procs[p], id); }
        if id == gone { assert Buries(s'.procs[pid], id); }
      }
      assert !Buried(s, gone);
    }
  }

  lemma OnceAfterPublish(s: State, s': State, id: int)
    requires CancelledOnce(s) && !CancelledEvent(s.events, id)
    requires |s'.events| == |s.events| + 1 && s'.events[..|s.events|] == s.events
    requires s'.events[|s.events|].BookingCancelled? && s'.events[|s.events|].id == id
    requires forall i :: CancelledEvent(s'.events, i) <==> CancelledEvent(s.events, i) || i == id
    requires forall p | p in s'.procs ::
               p in s.procs && !Buries(s'.procs[p], id) && forall i :: Buries(s'.procs[p], i) ==> Buries(s.procs[p], i)
    ensures CancelledOnce(s')
  {
    assert forall i :: 0 <= i < |s.events| ==> s'.events[i] == s.events[i];
  }

  lemma PublishCancelled(s: State, pid: int, lost: Lost)
    requires Books(s, lost) && pid in s.procs && s.procs[pid].req.CancelRequest? && s.procs[pid].pc.Deleted?
    ensures Books(CancelStep(s, pid), lost)
  {
    var s' := CancelStep(s, pid);
    var req, row := s.procs[pid].req, s.procs[pid].pc.row;
    var e := BookingCancelled(req.bookingId, row, req.caller, row.userId == req.caller.userId);
    forall id
      ensures CreatedEvent(s'.events, id) <==> CreatedEvent(s.events, id)
      ensures CancelledEvent(s'.events, id) <==> CancelledEvent(s.events, id) || id == req.bookingId
    {
      EventAppended(s.events, e, id);
    }
    assert Buries(s.procs[pid], req.bookingId);
    forall id ensures Born(s', id) <==> Born(s, id) {
      if p :| p in s.procs && Bears(s.procs[p], id) { assert Bears(s'.procs[p], id); }
    }
    forall id ensures Buried(s', id) <==> Buried(s, id) {
      if p :| p in s.procs && Buries(s.procs[p], id) { assert p == pid || Buries(s'.procs[p], id); }
    }
    OnceAfterPublish(s, s', req.bookingId);
  }

  lemma ProcKeepsBooks(s: State, pid: int, lost: Lost)
    requires Inv(s) && Books(s, lost) && pid in s.procs && !s.procs[pid].pc.Done?
    ensures Books(ProcStep(s, pid), lost)
  {
    var p := s.procs[pid];
    assert ProcOk(s.db, p);
    match p.pc
    case NoConflictSeen => InsertStep(s, pid, lost);
    case Stored(_, _) => PublishCreated(s, pid, lost);
    case Authorised(_) => DeleteStep(s, pid, lost);
    case Deleted(_) => PublishCancelled(s, pid, lost);
    case Arrived => QuietStep(s, ProcStep(s, pid), pid, lost);
    case RoomSeen => QuietStep(s, ProcStep(s, pid), pid, lost);
    case Listed(_) => QuietStep(s, ProcStep(s, pid), pid, lost);
    case Read(_) => QuietStep(s, ProcStep(s, pid), pid, lost);
    case Done(_) =>
  }

  lemma OtherStepKeepsBooks(s: State, a: Action, lost: Lost)
    requires Inv(s) && Books(s, lost)
    requires a.ReplyLost? ==> a.pid !in s.procs || !AwaitsWrite(s.procs[a.pid].pc)
    ensures Books(Do(s, a), lost)
  {
    var s' := Do(s, a);
    match a
    case Arrive(pid, _) => if pid !in s.procs { QuietStep(s, s', pid, lost); }
    case Step(pid) =>
      if pid in s.procs && !s.procs[pid].pc.Done? { ProcKeepsBooks(s, pid, lost); }
    case StatementFails(pid) =>
      if pid in s.procs && AwaitsStatement(s.procs[pid].pc) { QuietStep(s, s', pid, lost); }
    case ReplyLost(_) =>
    case Import(rooms, slots) =>
      if Replace(s.db, rooms, slots).Ok? {
        ImportGrows(s.db, rooms, slots);
        ImportKeepsOthers(s.db, rooms, slots);
        ImportStep(s, s', lost);
      }
    case ImportRolledBack(_, _) => ImportStep(s, s', lost);
  }

  /** The INSERT is carried out and the service is told that it failed. */
  lemma LostInsert(s: State, pid: int, lost: Lost)
    requires Inv(s) && Books(s, lost) && pid in s.procs && s.procs[pid].req.CreateRequest?
    requires s.procs[pid].pc.NoConflictSeen?
    ensures Books(Do(s, ReplyLost(pid)), Join(lost, LostBy(s, ReplyLost(pid))))
  {
    var s' := Do(s, ReplyLost(pid));
    var row := Wanted(s.procs[pid].req);
    var outcome := InsertBooking(s.db, row).1;
    if outcome.Rejected? {
      QuietStep(s, s', pid, lost);
      assert Join(lost, LostBy(s, ReplyLost(pid))) == lost;
    } else {
      SameInFlight(s, s', pid);
      forall id ensures Held(s'.db, id) <==> Held(s.db, id) || (id == outcome.id && !ByParser(row)) {}
    }
  }

  lemma LostDelete(s: State, pid: int, lost: Lost)
    requires Inv(s) && Books(s, lost) && pid in s.procs && s.procs[pid].req.CancelRequest?
    requires s.procs[pid].pc.Authorised?
    ensures Books(Do(s, ReplyLost(pid)), Join(lost, LostBy(s, ReplyLost(pid))))
  {
    var s' := Do(s, ReplyLost(pid));
    var gone := s.procs[pid].req.bookingId;
    if gone !in s.db.bookings {
      assert s'.db.bookings == s.db.bookings;
      QuietStep(s, s', pid, lost);
      assert Join(lost, LostBy(s, ReplyLost(pid))) == lost;
    } else {
      SameInFlight(s, s', pid);
      forall id ensures Held(s'.db, id) <==> Held(s.db, id) && id != gone {}
    }
  }

  lemma StepKeepsBooks(s: State, a: Action, lost: Lost)
    requires Inv(s) && Books(s, lost)
    ensures Books(Do(s, a), Join(lost, LostBy(s, a)))
  {
    var s' := Do(s, a);
    if a.ReplyLost? && a.pid in s.procs && AwaitsWrite(s.procs[a.pid].pc) {
      assert ProcOk(s.db, s.procs[a.pid]);
      if s.procs[a.pid].pc.NoConflictSeen? { LostInsert(s, a.pid, lost); } else { LostDelete(s, a.pid, lost); }
    } else {
      assert Join(lost, LostBy(s, a)) == lost;
      OtherStepKeepsBooks(s, a, lost);
    }
  }

  /** In every run, lost replies included, the bookings held are those written and not deleted, and every write
      and deletion is published, about to be, or one whose reply was lost. */
  lemma {:induction false} RunKeepsBooks(s: State, acts: seq<Action>)
    requires Inv(s) && Books(s, NOTHING_LOST)
    ensures Books(Run(s, acts), LostWrites(s, acts))
  {
    if acts != [] {
      RunKeepsBooks(s, acts[..|acts| - 1]);
      RunKeepsInv(s, acts[..|acts| - 1]);
      StepKeepsBooks(Run(s, acts[..|acts| - 1]), acts[|acts| - 1], LostWrites(s, acts[..|acts| - 1]));
    }
  }

  // ---- what the history says, from an empty table on

  predicate Fresh(s: State) { s.db.bookings == map[] && s.procs == map[] && s.events == [] }

  lemma FreshBooks(s: State)
    requires Fresh(s)
    ensures Books(s, NOTHING_LOST)
  {
    assert forall id :: !Born(s, id) && !Buried(s, id);
  }

  /** In every run whatsoever no booking is reported cancelled twice. */
  lemma CancelledAtMostOnce(s: State, acts: seq<Action>, i: nat, j: nat)
    requires Valid(s.db) && Fresh(s) && i < j < |Run(s, acts).events|
    requires Run(s, acts).events[i].BookingCancelled? && Run(s, acts).events[j].BookingCancelled?
    ensures Run(s, acts).events[i].id != Run(s, acts).events[j].id
  {
    FreshBooks(s);
    RunKeepsBooks(s, acts);
  }

  predicate Quiescent(s: State) { forall pid | pid in s.procs :: s.procs[pid].pc.Done? }

  lemma NothingInFlight(s: State, id: int)
    requires Quiescent(s)
    ensures Born(s, id) <==> CreatedEvent(s.events, id)
    ensures Buried(s, id) <==> CancelledEvent(s.events, id)
  {
  }

  /** Once nothing is in flight, the bookings held that are not the parser's are exactly those created, by
      their event or by an INSERT whose reply was lost, and not cancelled, likewise. */
  lemma HistoryAccountsForBookings(s: State, acts: seq<Action>)
    requires Valid(s.db) && Fresh(s) && Quiescent(Run(s, acts))
    ensures var end, lost := Run(s, acts), LostWrites(s, acts);
            && (forall id :: Held(end.db, id) <==>
                  && (CreatedEvent(end.events, id) || id in lost.inserts)
                  && !(CancelledEvent(end.events, id) || id in lost.deletes))
            && (forall id | id in lost.inserts :: !CreatedEvent(end.events, id))
            && (forall id | id in lost.deletes :: !CancelledEvent(end.events, id))
  {
    FreshBooks(s);
    RunKeepsBooks(s, acts);
    var end := Run(s, acts);
    forall id
      ensures Born(end, id) <==> CreatedEvent(end.events, id)
      ensures Buried(end, id) <==> CancelledEvent(end.events, id)
    {
      NothingInFlight(end, id);
    }
  }

  ghost predicate EventsTell(s: State) {
    forall id :: Held(s.db, id) <==> CreatedEvent(s.events, id) && !CancelledEvent(s.events, id)
  }

  /** The events alone account for the bookings held exactly when each booking whose INSERT lost its reply is
      gone again, and each whose DELETE lost its reply had lost that of its INSERT, too. */
  lemma EventsTellIff(s: State, acts: seq<Action>)
    requires Valid(s.db) && Fresh(s) && Quiescent(Run(s, acts))
    ensures var end, lost := Run(s, acts), LostWrites(s, acts);
            EventsTell(end) <==>
            && (forall id | id in lost.inserts :: CancelledEvent(end.events, id) || id in lost.deletes)
            && (forall id | id in lost.deletes :: !CreatedEvent(end.events, id))
  {
    HistoryAccountsForBookings(s, acts);
  }

  predicate OfAUser(b: Booking) { b.userId != 0 || b.creatorRole != Admin }

  /** A user's booking is held exactly when its creation is published and its cancellation is not. */
  ghost predicate EventsTellInWords(s: State) {
    forall id ::
      id in s.db.bookings && OfAUser(s.db.bookings[id]) <==>
      && (exists k :: 0 <= k < |s.events| && s.events[k].BookingCreated? && s.events[k].id == id
                      && OfAUser(s.events[k].row))
      && !exists k :: 0 <= k < |s.events| && s.events[k].BookingCancelled? && s.events[k].id == id
  }

  lemma TellsInWords(s: State)
    ensures EventsTell(s) <==> EventsTellInWords(s)
  {
    forall id
      ensures Held(s.db, id) <==> id in s.db.bookings && OfAUser(s.db.bookings[id])
      ensures CreatedEvent(s.events, id) <==>
              exists k :: 0 <= k < |s.events| && s.events[k].BookingCreated? && s.events[k].id == id
                          && OfAUser(s.events[k].row)
      ensures CancelledEvent(s.events, id) <==>
              exists k :: 0 <= k < |s.events| && s.events[k].BookingCancelled? && s.events[k].id == id
    {
    }
  }

  lemma {:induction false} NoReplyLost(s: State, acts: seq<Action>)
    requires forall i | 0 <= i < |acts| :: !acts[i].ReplyLost?
    ensures LostWrites(s, acts) == NOTHING_LOST
  {
    if acts != [] { NoReplyLost(s, acts[..|acts| - 1]); }
  }

  /** With no reply lost they always do. */
  lemma EventsAccountForBookings(s: State, acts: seq<Action>)
    requires Valid(s.db) && Fresh(s) && Quiescent(Run(s, acts))
    requires forall i | 0 <= i < |acts| :: !acts[i].ReplyLost?
    ensures EventsTell(Run(s, acts)) && EventsTellInWords(Run(s, acts))
  {
    NoReplyLost(s, acts);
    EventsTellIff(s, acts);
    TellsInWords(Run(s, acts));
  }

  // ---- the failing input

  /** A request for a free interval on its own gets as far as its INSERT. */
  lemma ReachesInsert(s: State, req: Request, acts: seq<Action>)
    requires Valid(s.db) && Fresh(s) && req.CreateRequest? && req.caller.role.IsKnown() && req.start < req.end
    requires req.roomId in s.db.rooms && |acts| >= 4 && acts[..4] == [Arrive(0, req), Step(0), Step(0), Step(0)]
    ensures Run(s, acts[..4]) == s.(procs := map[0 := Proc(req, NoConflictSeen)])
  {
    assert acts[0] == acts[..4][0] && acts[1] == acts[..4][1] && acts[2] == acts[..4][2] && acts[3] == acts[..4][3];
    assert Run(s, acts[..0]) == s;
    RunStep(s, acts, 0);
    RunStep(s, acts, 1);
    RunStep(s, acts, 2);
    RunStep(s, acts, 3);
    var listed := Run(s, acts[..3]);
    assert listed.procs[0].pc == Listed(InRoom(s.db.bookings, req.roomId));
    assert !Taken(InRoom(s.db.bookings, req.roomId), req.roomId, req.start, req.end);
  }

  /** A request for a free interval whose INSERT loses its reply: the caller is told of a failure, nothing is
      published, and the booking is held. */
  lemma LostReplyHidesBooking(s: State, req: Request)
    requires Valid(s.db) && Fresh(s) && req.CreateRequest? && req.caller.role.IsKnown() && req.start < req.end
    requires req.roomId in s.db.rooms && !ByParser(Wanted(req))
    ensures var acts := [Arrive(0, req), Step(0), Step(0), Step(0), ReplyLost(0)];
            var end := Run(s, acts);
            && Quiescent(end) && 0 in end.procs && end.procs[0].pc == Done(Failed(StorageFailure)) && end.events == []
            && Held(end.db, s.db.nextBooking) && !EventsTell(end)
  {
    var acts := [Arrive(0, req), Step(0), Step(0), Step(0), ReplyLost(0)];
    ReachesInsert(s, req, acts);
    RunStep(s, acts, 4);
    assert acts[..5] == acts;
    assert InsertBooking(s.db, Wanted(req)).1 == Inserted(s.db.nextBooking);
    var end := Run(s, acts);
    assert Held(end.db, s.db.nextBooking) && !CreatedEvent(end.events, s.db.nextBooking);
  }
}
