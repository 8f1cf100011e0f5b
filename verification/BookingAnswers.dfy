/** What the answer to a request says, over every run: whose the booking is that a create is answered with, and
    when a cancel succeeds or is refused. Everything is said in the fields of the requests and the columns of the
    rows. */
module BookingAnswers {
  import opened BookingDomain
  import opened BookingStore
  import opened BookingService

  // ---- creating

  /** The row that a create request asks for: the room, the caller as owner with the caller's role, the times, and
      nothing of a lesson. */
  predicate OwnRow(req: Request, row: Booking) {
    && req.CreateRequest?
    && row.roomId == req.roomId && row.userId == req.caller.userId && row.creatorRole == req.caller.role
    && row.start == req.start && row.end == req.end && row.details == Details("", "", "", [], "")
  }

  ghost predicate Announced(events: seq<Event>, req: Request, id: int) {
    exists k :: 0 <= k < |events| && events[k].BookingCreated? && events[k].id == id && OwnRow(req, events[k].row)
  }

  ghost predicate OwnRowAt(db: Db, req: Request, id: int) {
    id < db.nextBooking && (id in db.bookings ==> OwnRow(req, db.bookings[id]))
  }

  ghost predicate CreateOk(s: State, p: Proc) {
    match p.pc
    case Stored(id, row) => OwnRow(p.req, row) && OwnRowAt(s.db, p.req, id)
    case Done(Created(id)) => OwnRowAt(s.db, p.req, id) && Announced(s.events, p.req, id)
    case _ => true
  }

  ghost predicate CreatesOk(s: State) { forall pid | pid in s.procs :: CreateOk(s, s.procs[pid]) }

  lemma EventsGrow(s: State, a: Action)
    ensures |s.events| <= |Do(s, a).events| && Do(s, a).events[..|s.events|] == s.events
  {
  }

  lemma CreateOkFrame(before: State, after: State, p: Proc)
    requires CreateOk(before, p) && Grows(before.db, after.db)
    requires |before.events| <= |after.events| && after.events[..|before.events|] == before.events
    ensures CreateOk(after, p)
  {
    assert forall k | 0 <= k < |before.events| :: after.events[k] == before.events[k];
  }

  /** The request that has taken the step. */
  lemma CreateOkActor(s: State, a: Action, pid: int)
    requires Inv(s) && CreatesOk(s)
    requires pid in Do(s, a).procs && !(pid in s.procs && Do(s, a).procs[pid] == s.procs[pid])
    ensures CreateOk(Do(s, a), Do(s, a).procs[pid])
  {
    var s' := Do(s, a);
    if a.Step? && pid in s.procs && s.procs[pid].pc.Stored? {
      assert CreateOk(s, s.procs[pid]) && ProcOk(s.db, s.procs[pid]);
      assert s'.events[|s.events|] == BookingCreated(s.procs[pid].pc.id, s.procs[pid].pc.row);
    }
  }

  lemma StepKeepsCreates(s: State, a: Action)
    requires Inv(s) && CreatesOk(s)
    ensures CreatesOk(Do(s, a))
  {
    var s' := Do(s, a);
    DbGrows(s, a);
    EventsGrow(s, a);
    forall pid | pid in s'.procs ensures CreateOk(s', s'.procs[pid]) {
      if pid in s.procs && s'.procs[pid] == s.procs[pid] {
        CreateOkFrame(s, s', s.procs[pid]);
      } else {
        CreateOkActor(s, a, pid);
      }
    }
  }

  lemma {:induction false} RunKeepsCreates(s: State, acts: seq<Action>)
    requires Inv(s) && CreatesOk(s)
    ensures CreatesOk(Run(s, acts))
  {
    if acts != [] {
      RunKeepsCreates(s, acts[..|acts| - 1]);
      RunKeepsInv(s, acts[..|acts| - 1]);
      StepKeepsCreates(Run(s, acts[..|acts| - 1]), acts[|acts| - 1]);
    }
  }

  /** In every run the booking that a create request is answered with is the caller's own: the row under that id,
      as long as it is there, and the created event carry the caller's id and role and what was asked for. */
  lemma CreatedIsOwn(s: State, acts: seq<Action>, pid: int, id: int)
    requires Valid(s.db) && s.procs == map[]
    requires pid in Run(s, acts).procs && Run(s, acts).procs[pid].pc == Done(Created(id))
    ensures var end, req := Run(s, acts), Run(s, acts).procs[pid].req;
            && (id in end.db.bookings ==> OwnRow(req, end.db.bookings[id]))
            && exists k :: 0 <= k < |end.events| && end.events[k].BookingCreated? && end.events[k].id == id
                           && OwnRow(req, end.events[k].row)
  {
    RunKeepsCreates(s, acts);
    assert CreateOk(Run(s, acts), Run(s, acts).procs[pid]);
  }

  // ---- cancelling

  /** The owner, an admin, or one whose role is above the creator's in the order of student_b, student_m, student_a,
      teacher, admin; all roles known. */
  predicate MayCancelRow(caller: Caller, row: Booking) {
    && caller.role in {StudentB, StudentM, StudentA, Teacher, Admin}
    && (|| caller.userId == row.userId
        || (caller.role == Admin && row.creatorRole in {StudentB, StudentM, StudentA, Teacher, Admin})
        || (caller.role == Teacher && row.creatorRole in {StudentB, StudentM, StudentA})
        || (caller.role == StudentA && row.creatorRole in {StudentB, StudentM})
        || (caller.role == StudentM && row.creatorRole == StudentB))
  }

  lemma MayCancelIff(caller: Caller, row: Booking)
    ensures MayCancelRow(caller, row) <==> caller.role.IsKnown() && MayCancel(caller, row)
  {
    CancelPowerTable(caller.role, row.creatorRole);
  }

  /** What is deleted was the caller's to cancel, in every run. */
  lemma DeletedWasCancellable(s: State, acts: seq<Action>, id: int)
    requires Inv(s) && id in s.db.bookings && !(s.db.bookings[id].userId == 0 && s.db.bookings[id].creatorRole == Admin)
    requires id !in Run(s, acts).db.bookings
    ensures exists k :: 0 <= k < |acts| && DeletesAuthorised(Run(s, acts[..k]), acts[k], id, s.db.bookings[id])
                        && MayCancelRow(Run(s, acts[..k]).procs[acts[k].pid].req.caller, s.db.bookings[id])
  {
    DisappearsOnlyByCancel(s, acts, id);
    var row := s.db.bookings[id];
    var k :| 0 <= k < |acts| && DeletesAuthorised(Run(s, acts[..k]), acts[k], id, row);
    RunKeepsInv(s, acts[..k]);
    var p := Run(s, acts[..k]).procs[acts[k].pid];
    assert ProcOk(Run(s, acts[..k]).db, p);
    MayCancelIff(p.req.caller, row);
  }

  lemma RunFive(s: State, acts: seq<Action>)
    requires |acts| == 5
    ensures Run(s, acts) == Do(Do(Do(Do(Do(s, acts[0]), acts[1]), acts[2]), acts[3]), acts[4])
  {
    hide Do;
    assert Run(s, acts[..0]) == s;
    RunStep(s, acts, 0);
    RunStep(s, acts, 1);
    RunStep(s, acts, 2);
    RunStep(s, acts, 3);
    RunStep(s, acts, 4);
    assert acts[..5] == acts;
  }

  lemma CancelAuthorised(s: State, pid: int, req: Request) returns (s3: State)
    requires pid !in s.procs && req.CancelRequest? && req.bookingId in s.db.bookings
    requires MayCancelRow(req.caller, s.db.bookings[req.bookingId])
    ensures s3 == Do(Do(Do(s, Arrive(pid, req)), Step(pid)), Step(pid))
    ensures s3 == s.(procs := s.procs[pid := Proc(req, Authorised(s.db.bookings[req.bookingId]))])
  {
    var row := s.db.bookings[req.bookingId];
    MayCancelIff(req.caller, row);
    var s1 := Do(s, Arrive(pid, req));
    var s2 := Do(s1, Step(pid));
    assert s2 == s.(procs := s.procs[pid := Proc(req, Read(row))]);
    s3 := Do(s2, Step(pid));
  }

  lemma CancelDone(s: State, s3: State, pid: int, req: Request)
    requires pid !in s.procs && req.CancelRequest? && req.bookingId in s.db.bookings
    requires s3 == s.(procs := s.procs[pid := Proc(req, Authorised(s.db.bookings[req.bookingId]))])
    ensures var end, row := Do(Do(s3, Step(pid)), Step(pid)), s.db.bookings[req.bookingId];
            && pid in end.procs && end.procs[pid].pc == Done(Cancelled)
            && end.db.bookings == s.db.bookings - {req.bookingId} && end.db.rooms == s.db.rooms
            && end.events == s.events
               + [BookingCancelled(req.bookingId, row, req.caller, row.userId == req.caller.userId)]
  {
  }

  /** From any state, so from every one of any run, a cancel that may cancel the row and is not interrupted ends in
      "cancelled", with that row gone, every other left, and its event published. */
  lemma CancelGoesThrough(s: State, pid: int, req: Request)
    requires pid !in s.procs && req.CancelRequest? && req.bookingId in s.db.bookings
    requires MayCancelRow(req.caller, s.db.bookings[req.bookingId])
    ensures var acts := [Arrive(pid, req), Step(pid), Step(pid), Step(pid), Step(pid)];
            var end, row := Run(s, acts), s.db.bookings[req.bookingId];
            && pid in end.procs && end.procs[pid].pc == Done(Cancelled)
            && end.db.bookings == s.db.bookings - {req.bookingId} && end.db.rooms == s.db.rooms
            && end.events == s.events
               + [BookingCancelled(req.bookingId, row, req.caller, row.userId == req.caller.userId)]
  {
    var acts := [Arrive(pid, req), Step(pid), Step(pid), Step(pid), Step(pid)];
    RunFive(s, acts);
    var s3 := CancelAuthorised(s, pid, req);
    CancelDone(s, s3, pid, req);
  }

  ghost predicate RowAt(s: State, id: int, row: Booking) { id in s.db.bookings && s.db.bookings[id] == row }

  /** The row that a cancel request holds was in the table at some moment. */
  lemma {:induction false} RowWasThere(s: State, acts: seq<Action>, pid: int)
    requires pid !in s.procs && pid in Run(s, acts).procs
    requires Run(s, acts).procs[pid].req.CancelRequest? && Run(s, acts).procs[pid].pc.Read?
    ensures var p := Run(s, acts).procs[pid];
            exists k :: 0 <= k <= |acts| && RowAt(Run(s, acts[..k]), p.req.bookingId, p.pc.row)
  {
    var n := |acts| - 1;
    var init := acts[..n];
    var before, p := Run(s, init), Run(s, acts).procs[pid];
    if pid in before.procs && before.procs[pid].pc == p.pc {
      assert before.procs[pid] == p;
      RowWasThere(s, init, pid);
      var k :| 0 <= k <= n && RowAt(Run(s, init[..k]), p.req.bookingId, p.pc.row);
      assert init[..k] == acts[..k];
    } else {
      assert RowAt(Run(s, acts[..n]), p.req.bookingId, p.pc.row);
    }
  }

  /** The step that answers "forbidden". */
  lemma ForbiddenStep(s: State, a: Action, pid: int)
    requires pid in Do(s, a).procs && Do(s, a).procs[pid].pc == Done(Failed(Forbidden))
    requires !(pid in s.procs && s.procs[pid].pc == Done(Failed(Forbidden)))
    requires Do(s, a).procs[pid].req.CancelRequest?
    ensures pid in s.procs && s.procs[pid].req == Do(s, a).procs[pid].req
    ensures var p := s.procs[pid];
            p.req.caller.role.IsKnown() ==> p.pc.Read? && !MayCancel(p.req.caller, p.pc.row)
  {
  }

  /** A cancel is answered "forbidden" only to a caller of unknown role or to one who may not cancel the row as it
      was in the table. */
  lemma {:induction false} ForbiddenIsReal(s: State, acts: seq<Action>, pid: int)
    requires pid !in s.procs && pid in Run(s, acts).procs
    requires Run(s, acts).procs[pid].req.CancelRequest? && Run(s, acts).procs[pid].pc == Done(Failed(Forbidden))
    ensures var req := Run(s, acts).procs[pid].req;
            || req.caller.role !in {StudentB, StudentM, StudentA, Teacher, Admin}
            || exists k, row :: 0 <= k <= |acts| && RowAt(Run(s, acts[..k]), req.bookingId, row)
                                && !MayCancelRow(req.caller, row)
  {
    var n := |acts| - 1;
    var init := acts[..n];
    var before, p := Run(s, init), Run(s, acts).procs[pid];
    CancelPowerTable(p.req.caller.role, Admin);
    if p.req.caller.role.IsKnown() {
      if pid in before.procs && before.procs[pid].pc == p.pc {
        assert before.procs[pid] == p;
        ForbiddenIsReal(s, init, pid);
        var k, row :| 0 <= k <= n && RowAt(Run(s, init[..k]), p.req.bookingId, row) && !MayCancelRow(p.req.caller, row);
        assert init[..k] == acts[..k];
        assert RowAt(Run(s, acts[..k]), p.req.bookingId, row);
      } else {
        ForbiddenStep(before, acts[n], pid);
        var row := before.procs[pid].pc.row;
        MayCancelIff(p.req.caller, row);
        RowWasThere(s, init, pid);
        var k :| 0 <= k <= n && RowAt(Run(s, init[..k]), p.req.bookingId, row);
        assert init[..k] == acts[..k];
        assert RowAt(Run(s, acts[..k]), p.req.bookingId, row);
      }
    }
  }
}
