/** What the answers of racing create requests say about the table. */
module BookingConflicts {
  import opened BookingDomain
  import opened BookingStore
  import opened BookingService

  // ---- a conflict answer is the truth about some moment of the request

  lemma TakenInRoom(bookings: map<int, Booking>, roomId: int, start: int, end: int)
    ensures Taken(InRoom(bookings, roomId), roomId, start, end) <==> Taken(bookings, roomId, start, end)
  {
    if i :| i in bookings && Conflicts(bookings[i], roomId, start, end) {
      assert i in InRoom(bookings, roomId);
    }
  }

  /** The request is under way and a booking in its room overlaps the wanted interval. */
  ghost predicate ConflictNow(s: State, pid: int, req: Request) {
    && req.CreateRequest? && pid in s.procs && s.procs[pid].req == req && !s.procs[pid].pc.Done?
    && Taken(s.db.bookings, req.roomId, req.start, req.end)
  }

  /** The list a request holds was the table's content at some state of the request. */
  ghost predicate ListedAt(s: State, pid: int, req: Request, existing: map<int, Booking>) {
    && req.CreateRequest? && pid in s.procs && s.procs[pid].req == req && s.procs[pid].pc.RoomSeen?
    && existing == InRoom(s.db.bookings, req.roomId)
  }

  lemma {:induction false} ListWasRead(s: State, acts: seq<Action>, pid: int)
    requires pid !in s.procs
    requires pid in Run(s, acts).procs && Run(s, acts).procs[pid].pc.Listed?
    requires Run(s, acts).procs[pid].req.CreateRequest?
    ensures var p := Run(s, acts).procs[pid];
            exists k :: 0 <= k <= |acts| && ListedAt(Run(s, acts[..k]), pid, p.req, p.pc.existing)
  {
    var n := |acts| - 1;
    var init := acts[..n];
    var before, p := Run(s, init), Run(s, acts).procs[pid];
    if pid in before.procs && before.procs[pid].pc == p.pc {
      assert before.procs[pid] == p;
      ListWasRead(s, init, pid);
      var k :| 0 <= k <= n && ListedAt(Run(s, init[..k]), pid, p.req, p.pc.existing);
      assert init[..k] == acts[..k];
    } else {
      assert ListedAt(Run(s, acts[..n]), pid, p.req, p.pc.existing);
    }
  }

  /** The step that answers "conflict": either the list held shows one, or the table does now. */
  lemma ConflictStep(s: State, a: Action, pid: int)
    requires pid in Do(s, a).procs && Do(s, a).procs[pid].pc == Done(Failed(ScheduleConflict))
    requires !(pid in s.procs && s.procs[pid].pc == Done(Failed(ScheduleConflict)))
    ensures pid in s.procs && s.procs[pid].req == Do(s, a).procs[pid].req
    ensures var p := s.procs[pid];
            || (p.req.CreateRequest? && p.pc.Listed? && Taken(p.pc.existing, p.req.roomId, p.req.start, p.req.end))
            || ConflictNow(s, pid, p.req)
  {
  }

  lemma ListConflictIsReal(s: State, acts: seq<Action>, pid: int)
    requires pid !in s.procs && pid in Run(s, acts).procs
    requires var p := Run(s, acts).procs[pid];
             p.req.CreateRequest? && p.pc.Listed? && Taken(p.pc.existing, p.req.roomId, p.req.start, p.req.end)
    ensures exists k :: 0 <= k <= |acts| && ConflictNow(Run(s, acts[..k]), pid, Run(s, acts).procs[pid].req)
  {
    var p := Run(s, acts).procs[pid];
    ListWasRead(s, acts, pid);
    var k :| 0 <= k <= |acts| && ListedAt(Run(s, acts[..k]), pid, p.req, p.pc.existing);
    TakenInRoom(Run(s, acts[..k]).db.bookings, p.req.roomId, p.req.start, p.req.end);
    assert ConflictNow(Run(s, acts[..k]), pid, p.req);
  }

  /** Whether the service's own check or the exclusion constraint refused it: a create request is
      answered "conflict" only if, in some state while it was under way, an overlapping booking was stored. */
  lemma {:induction false} ConflictIsReal(s: State, acts: seq<Action>, pid: int)
    requires pid !in s.procs
    requires pid in Run(s, acts).procs && Run(s, acts).procs[pid].pc == Done(Failed(ScheduleConflict))
    ensures exists k :: 0 <= k <= |acts| && ConflictNow(Run(s, acts[..k]), pid, Run(s, acts).procs[pid].req)
  {
    var n := |acts| - 1;
    var init := acts[..n];
    var before, p := Run(s, init), Run(s, acts).procs[pid];
    if pid in before.procs && before.procs[pid].pc == p.pc {
      assert before.procs[pid] == p;
      ConflictIsReal(s, init, pid);
      var k :| 0 <= k <= n && ConflictNow(Run(s, init[..k]), pid, p.req);
      assert init[..k] == acts[..k];
    } else {
      ConflictStep(before, acts[n], pid);
      if ConflictNow(before, pid, p.req) {
        assert ConflictNow(Run(s, acts[..n]), pid, p.req);
      } else {
        ListConflictIsReal(s, init, pid);
        var k :| 0 <= k <= n && ConflictNow(Run(s, init[..k]), pid, p.req);
        assert init[..k] == acts[..k];
      }
    }
  }

  // ---- a race for one interval has exactly one winner

  /** The interval that is raced for. */
  datatype Target = Target(roomId: int, start: int, end: int)

  predicate Aims(req: Request, t: Target) {
    && req.CreateRequest? && req.caller.role.IsKnown()
    && req.roomId == t.roomId && req.start == t.start && req.end == t.end
  }

  /** A create request that cannot get in the way. */
  predicate Harmless(req: Request, t: Target) {
    req.CreateRequest? &&
    (!req.caller.role.IsKnown() || req.roomId != t.roomId || !Overlaps(t.start, t.end, req.start, req.end))
  }

  predicate Racing(a: Action, t: Target) {
    a.Step? || (a.Arrive? && (Aims(a.req, t) || Harmless(a.req, t)))
  }

  predicate InTheWay(db: Db, t: Target, id: int) {
    id in db.bookings && Conflicts(db.bookings[id], t.roomId, t.start, t.end)
  }

  predicate Won(p: Proc, id: int) { (p.pc.Stored? && p.pc.id == id) || p.pc == Done(Created(id)) }

  /** What a racing request may claim, given the table. */
  ghost predicate RacerOk(db: Db, t: Target, p: Proc) {
    && (Aims(p.req, t) || Harmless(p.req, t))
    && (Aims(p.req, t) ==>
      match p.pc
      case Arrived => true
      case RoomSeen => true
      case NoConflictSeen => true
      case Listed(existing) => Taken(existing, t.roomId, t.start, t.end) ==> exists id :: InTheWay(db, t, id)
      case Stored(id, _) => InTheWay(db, t, id)
      case Done(Created(id)) => InTheWay(db, t, id)
      case Done(Failed(e)) => e == ScheduleConflict && exists id :: InTheWay(db, t, id)
      case _ => false)
  }

  ghost predicate Race(s: State, t: Target) {
    && Inv(s) && t.roomId in s.db.rooms && t.start < t.end
    && (forall pid | pid in s.procs :: RacerOk(s.db, t, s.procs[pid]))
    && (forall id | InTheWay(s.db, t, id) :: s.db.bookings[id].start == t.start && s.db.bookings[id].end == t.end)
    && (forall id | InTheWay(s.db, t, id) ::
          exists pid :: pid in s.procs && Aims(s.procs[pid].req, t) && Won(s.procs[pid], id))
    && forall p, q, id | p in s.procs && q in s.procs && Aims(s.procs[p].req, t) && Aims(s.procs[q].req, t)
                         && Won(s.procs[p], id) && Won(s.procs[q], id) :: p == q
  }

  lemma RacerOkGrows(before: Db, after: Db, t: Target, p: Proc)
    requires RacerOk(before, t, p)
    requires forall id | InTheWay(before, t, id) :: InTheWay(after, t, id)
    ensures RacerOk(after, t, p)
  {
  }

  /** Every step of the race except the INSERT. */
  lemma LocalStepKeepsRace(s: State, s': State, t: Target, pid: int)
    requires Race(s, t) && Inv(s') && s'.db == s.db
    requires pid in s'.procs && s'.procs == s.procs[pid := s'.procs[pid]] && RacerOk(s.db, t, s'.procs[pid])
    requires pid in s.procs ==> s'.procs[pid].req == s.procs[pid].req
    requires forall id :: Won(s'.procs[pid], id) <==> pid in s.procs && Won(s.procs[pid], id)
    ensures Race(s', t)
  {
    forall id | InTheWay(s'.db, t, id)
      ensures exists p :: p in s'.procs && Aims(s'.procs[p].req, t) && Won(s'.procs[p], id)
    {
      var p :| p in s.procs && Aims(s.procs[p].req, t) && Won(s.procs[p], id);
      assert Aims(s'.procs[p].req, t) && Won(s'.procs[p], id);
    }
  }

  lemma RejectedKeepsRace(s: State, s': State, t: Target, pid: int)
    requires Race(s, t) && Inv(s') && s'.db.bookings == s.db.bookings && s'.db.rooms == s.db.rooms
    requires pid in s.procs && pid in s'.procs
    requires s'.procs == s.procs[pid := s'.procs[pid]] && s'.procs[pid].req == s.procs[pid].req
    requires s.procs[pid].pc.NoConflictSeen? && s'.procs[pid].pc.Done? && s'.procs[pid].pc.answer.Failed?
    requires RacerOk(s'.db, t, s'.procs[pid])
    ensures Race(s', t)
  {
    assert forall id :: InTheWay(s'.db, t, id) <==> InTheWay(s.db, t, id);
    forall p | p in s'.procs && p != pid ensures RacerOk(s'.db, t, s'.procs[p]) {
      RacerOkGrows(s.db, s'.db, t, s.procs[p]);
    }
    forall id | InTheWay(s'.db, t, id)
      ensures exists p :: p in s'.procs && Aims(s'.procs[p].req, t) && Won(s'.procs[p], id)
    {
      var p :| p in s.procs && Aims(s.procs[p].req, t) && Won(s.procs[p], id);
      assert Aims(s'.procs[p].req, t) && Won(s'.procs[p], id);
    }
  }

  lemma InsertedKeepsRace(s: State, s': State, t: Target, pid: int, id: int)
    requires Race(s, t) && Inv(s') && pid in s.procs && s.procs[pid].pc.NoConflictSeen?
    requires var req := s.procs[pid].req;
             && req.CreateRequest? && s'.procs == s.procs[pid := Proc(req, Stored(id, Wanted(req)))]
             && s'.db.bookings == s.db.bookings[id := Wanted(req)] && s'.db.rooms == s.db.rooms
             && (InTheWay(s'.db, t, id) <==> Aims(req, t))
    requires id !in s.db.bookings
    ensures Race(s', t)
  {
    assert forall i | InTheWay(s.db, t, i) :: InTheWay(s'.db, t, i);
    forall p | p in s'.procs ensures RacerOk(s'.db, t, s'.procs[p]) {
      if p != pid { RacerOkGrows(s.db, s'.db, t, s.procs[p]); }
    }
    forall i | InTheWay(s'.db, t, i)
      ensures exists p :: p in s'.procs && Aims(s'.procs[p].req, t) && Won(s'.procs[p], i)
    {
      if i == id {
        assert Won(s'.procs[pid], i);
      } else {
        assert InTheWay(s.db, t, i);
        var p :| p in s.procs && Aims(s.procs[p].req, t) && Won(s.procs[p], i);
        assert Aims(s'.procs[p].req, t) && Won(s'.procs[p], i);
      }
    }
  }

  lemma InsertKeepsRace(s: State, t: Target, pid: int)
    requires Race(s, t) && pid in s.procs && s.procs[pid].pc.NoConflictSeen?
    ensures Race(CreateStep(s, pid), t)
  {
    var s' := CreateStep(s, pid);
    StepKeepsInv(s, Step(pid));
    var req := s.procs[pid].req;
    var outcome := InsertBooking(s.db, Wanted(req)).1;
    if outcome.Rejected? {
      if Aims(req, t) {
        assert outcome == Rejected(ScheduleConflict);
        var i :| i in s.db.bookings && Conflicts(s.db.bookings[i], t.roomId, t.start, t.end);
        assert InTheWay(s'.db, t, i);
      }
      RejectedKeepsRace(s, s', t, pid);
    } else {
      assert !InTheWay(s.db, t, outcome.id);
      assert InTheWay(s'.db, t, outcome.id) <==> Aims(req, t);
      InsertedKeepsRace(s, s', t, pid, outcome.id);
    }
  }

  lemma RaceStep(s: State, t: Target, a: Action)
    requires Race(s, t) && Racing(a, t)
    ensures Race(Do(s, a), t)
  {
    var s' := Do(s, a);
    StepKeepsInv(s, a);
    if a.Arrive? {
      if a.pid !in s.procs { LocalStepKeepsRace(s, s', t, a.pid); }
    } else if a.pid in s.procs {
      var p := s.procs[a.pid];
      assert RacerOk(s.db, t, p);
      if p.pc.NoConflictSeen? {
        InsertKeepsRace(s, t, a.pid);
      } else if p.pc.RoomSeen? && Aims(p.req, t) {
        TakenInRoom(s.db.bookings, t.roomId, t.start, t.end);
        LocalStepKeepsRace(s, s', t, a.pid);
      } else if !p.pc.Done? {
        LocalStepKeepsRace(s, s', t, a.pid);
      }
    }
  }

  lemma {:induction false} RunKeepsRace(s: State, t: Target, acts: seq<Action>)
    requires Race(s, t) && forall a | a in acts :: Racing(a, t)
    ensures Race(Run(s, acts), t)
  {
    if acts != [] {
      RunKeepsRace(s, t, acts[..|acts| - 1]);
      RaceStep(Run(s, acts[..|acts| - 1]), t, acts[|acts| - 1]);
    }
  }

  /** The winner's booking is the only one in the way, so there is no second winner. */
  lemma OneWinner(s: State, t: Target, p: int, q: int, i: int, j: int)
    requires Race(s, t) && p in s.procs && q in s.procs && Aims(s.procs[p].req, t) && Aims(s.procs[q].req, t)
    requires Won(s.procs[p], i) && Won(s.procs[q], j)
    ensures p == q
  {
    assert RacerOk(s.db, t, s.procs[p]) && RacerOk(s.db, t, s.procs[q]);
    assert InTheWay(s.db, t, i) && InTheWay(s.db, t, j);
    assert Conflicts(s.db.bookings[i], s.db.bookings[j].roomId, s.db.bookings[j].start, s.db.bookings[j].end);
    assert i == j;
  }

  lemma Loser(s: State, t: Target, winner: int, q: int, id: int)
    requires Race(s, t) && winner in s.procs && Aims(s.procs[winner].req, t) && Won(s.procs[winner], id)
    requires q in s.procs && Aims(s.procs[q].req, t) && q != winner && s.procs[q].pc.Done?
    ensures s.procs[q].pc == Done(Failed(ScheduleConflict))
  {
    assert RacerOk(s.db, t, s.procs[q]);
    if s.procs[q].pc.answer.Created? {
      OneWinner(s, t, q, winner, s.procs[q].pc.answer.id, id);
    }
  }

  /** Any number of requests for one free interval, in any interleaving, with any others that do not
      overlap it: exactly one is answered with its booking, which is stored, and all the rest "conflict". */
  lemma ExactlyOneWins(s: State, t: Target, acts: seq<Action>)
    requires Valid(s.db) && s.procs == map[] && t.roomId in s.db.rooms && t.start < t.end
    requires !Taken(s.db.bookings, t.roomId, t.start, t.end)
    requires forall a | a in acts :: Racing(a, t)
    requires var end := Run(s, acts);
             && (forall pid | pid in end.procs :: end.procs[pid].pc.Done?)
             && exists pid :: pid in end.procs && Aims(end.procs[pid].req, t)
    ensures var end := Run(s, acts);
            exists pid, id :: pid in end.procs && Aims(end.procs[pid].req, t) && end.procs[pid].pc == Done(Created(id))
              && InTheWay(end.db, t, id)
              && forall q | q in end.procs && Aims(end.procs[q].req, t) && q != pid ::
                   end.procs[q].pc == Done(Failed(ScheduleConflict))
  {
    RunKeepsRace(s, t, acts);
    var end := Run(s, acts);
    var p :| p in end.procs && Aims(end.procs[p].req, t);
    assert RacerOk(end.db, t, end.procs[p]);
    var id :| InTheWay(end.db, t, id);
    var winner :| winner in end.procs && Aims(end.procs[winner].req, t) && Won(end.procs[winner], id);
    forall q | q in end.procs && Aims(end.procs[q].req, t) && q != winner
      ensures end.procs[q].pc == Done(Failed(ScheduleConflict))
    {
      Loser(end, t, winner, q, id);
    }
  }
}
