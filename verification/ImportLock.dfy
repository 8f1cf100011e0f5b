/** Replicas that start together: each tries the schedule-import lock, waits and retries, and imports
    under it unless a schedule is already there. Requests go on meanwhile. */
module ImportLock {
  import opened BookingDomain
  import opened BookingStore
  import opened ScheduleImport
  import BS = BookingService

  datatype Phase =
    | Trying
    | Waiting
    | Checking
    | Importing
    | Releasing(succeeded: bool)
    | Finished(succeeded: bool)

  /** `lost`: the connection of the transaction that holds the lock has died. */
  datatype Replica = Replica(phase: Phase, lost: bool)

  datatype Holder = Free | HeldBy(replica: int)

  /** `commits`: how many rows each import that committed has stored, oldest first. */
  datatype Cluster = Cluster(sys: BS.State, holder: Holder, replicas: map<int, Replica>, commits: seq<int>)

  datatype Event =
    | Starts(r: int)
    | TriesLock(r: int)
    | LockStatementFails(r: int)
    | Wakes(r: int)
    | CancelledWaiting(r: int)
    | Checks(r: int)
    | CheckFails(r: int)
    | Imports(r: int, rooms: seq<NamedRoom>, slots: seq<Slot>, replyLost: bool)
    | ImportFails(r: int, usedRooms: nat, usedBookings: nat)
    | Releases(r: int, commitFails: bool)
    | Crashes(r: int)
    | LosesConnection(r: int)
    | Traffic(a: BS.Action)

  predicate Inside(p: Replica) { p.phase.Checking? || p.phase.Importing? || p.phase.Releasing? }

  predicate At(c: Cluster, r: int, phase: Phase) { r in c.replicas && c.replicas[r].phase == phase }

  function Goto(c: Cluster, r: int, phase: Phase): Cluster
    requires r in c.replicas
  {
    c.(replicas := c.replicas[r := c.replicas[r].(phase := phase)])
  }

  /** The transaction's end frees the lock, if it still had it. */
  function Freed(c: Cluster, r: int): Holder {
    if c.holder == HeldBy(r) then Free else c.holder
  }

  ghost function Do(c: Cluster, e: Event): Cluster {
    match e
    case Starts(r) => if r in c.replicas then c else c.(replicas := c.replicas[r := Replica(Trying, false)])
    case TriesLock(r) =>
      if !At(c, r, Trying) then c
      else if c.holder == Free then Goto(c, r, Checking).(holder := HeldBy(r))
      else Goto(c, r, Waiting)
    case LockStatementFails(r) => if At(c, r, Trying) then Goto(c, r, Finished(false)) else c
    case Wakes(r) => if At(c, r, Waiting) then Goto(c, r, Trying) else c
    case CancelledWaiting(r) => if At(c, r, Waiting) then Goto(c, r, Finished(false)) else c
    case Checks(r) =>
      if At(c, r, Checking) then Goto(c, r, if HasParsedSchedule(c.sys.db) then Releasing(true) else Importing) else c
    case CheckFails(r) => if At(c, r, Checking) then Goto(c, r, Releasing(false)) else c
    case Imports(r, rooms, slots, replyLost) =>
      var result := Replace(c.sys.db, rooms, slots);
      if !At(c, r, Importing) then c
      else if result.Err? then Goto(c, r, Releasing(false))
      else Goto(c, r, Releasing(!replyLost)).(sys := c.sys.(db := result.value.db),
                                              commits := c.commits + [result.value.stats.lessonsImported])
    case ImportFails(r, usedRooms, usedBookings) =>
      if At(c, r, Importing)
      then Goto(c, r, Releasing(false)).(sys := BS.Do(c.sys, BS.ImportRolledBack(usedRooms, usedBookings)))
      else c
    case Releases(r, commitFails) =>
      if r in c.replicas && c.replicas[r].phase.Releasing?
      then
        var succeeded := c.replicas[r].phase.succeeded && !commitFails && !c.replicas[r].lost;
        Goto(c, r, Finished(succeeded)).(holder := Freed(c, r))
      else c
    case Crashes(r) => if r in c.replicas then Goto(c, r, Finished(false)).(holder := Freed(c, r)) else c
    case LosesConnection(r) =>
      if r in c.replicas && Inside(c.replicas[r])
      then c.(replicas := c.replicas[r := c.replicas[r].(lost := true)], holder := Freed(c, r))
      else c
    case Traffic(a) => if a.Import? then c else c.(sys := BS.Do(c.sys, a))
  }

  ghost function Run(c: Cluster, events: seq<Event>): Cluster {
    if events == [] then c else Do(Run(c, events[..|events| - 1]), events[|events| - 1])
  }

  /** The lock is held by exactly the replica that is inside on a live connection. */
  ghost predicate LockOk(c: Cluster) {
    && (forall r | r in c.replicas && c.replicas[r].lost :: Inside(c.replicas[r]) || c.replicas[r].phase.Finished?)
    && forall r :: c.holder == HeldBy(r) <==> r in c.replicas && Inside(c.replicas[r]) && !c.replicas[r].lost
  }

  ghost predicate Inv(c: Cluster) { BS.Inv(c.sys) && LockOk(c) }

  ghost predicate Initial(c: Cluster) {
    BS.Inv(c.sys) && c.holder == Free && c.replicas == map[] && c.commits == []
  }

  lemma StepKeepsLock(c: Cluster, e: Event)
    requires LockOk(c)
    ensures LockOk(Do(c, e))
  {
  }

  lemma StepKeepsSys(c: Cluster, e: Event)
    requires BS.Inv(c.sys)
    ensures BS.Inv(Do(c, e).sys)
  {
    match e
    case Imports(r, rooms, slots, _) => BS.StepKeepsInv(c.sys, BS.Import(rooms, slots));
    case ImportFails(r, usedRooms, usedBookings) =>
      BS.StepKeepsInv(c.sys, BS.ImportRolledBack(usedRooms, usedBookings));
    case Traffic(a) => BS.StepKeepsInv(c.sys, a);
    case _ =>
  }

  lemma StepKeepsInv(c: Cluster, e: Event)
    requires Inv(c)
    ensures Inv(Do(c, e))
  {
    StepKeepsLock(c, e);
    StepKeepsSys(c, e);
  }

  lemma {:induction false} RunKeepsInv(c: Cluster, events: seq<Event>)
    requires Inv(c)
    ensures Inv(Run(c, events))
  {
    if events != [] {
      RunKeepsInv(c, events[..|events| - 1]);
      StepKeepsInv(Run(c, events[..|events| - 1]), events[|events| - 1]);
    }
  }

  /** In every run, of two replicas inside the lock at once at least one has lost its connection;
      and whatever the importers do, the booking table stays within its constraints. */
  lemma MutualExclusion(c: Cluster, events: seq<Event>, r1: int, r2: int)
    requires Initial(c)
    requires var end := Run(c, events);
             && r1 in end.replicas && r2 in end.replicas && r1 != r2
             && Inside(end.replicas[r1]) && Inside(end.replicas[r2])
    ensures Run(c, events).replicas[r1].lost || Run(c, events).replicas[r2].lost
    ensures Valid(Run(c, events).sys.db)
  {
    RunKeepsInv(c, events);
  }

  // ---- when two can be inside

  predicate InsideLost(c: Cluster, r: int) { r in c.replicas && Inside(c.replicas[r]) && c.replicas[r].lost }

  predicate BothInside(c: Cluster, r: int, q: int) {
    r != q && r in c.replicas && q in c.replicas && Inside(c.replicas[r]) && Inside(c.replicas[q])
  }

  /** From here on no further lock connection is lost. */
  predicate NoMoreLost(events: seq<Event>) { forall i | 0 <= i < |events| :: !events[i].LosesConnection? }

  lemma FreshReplica(replicas: map<int, Replica>) returns (q: int)
    ensures q !in replicas
  {
    q := 0;
    var left := replicas.Keys;
    while exists i :: i in left
      invariant left <= replicas.Keys && forall i | i in replicas.Keys && i !in left :: i < q
      decreases left
    {
      var i :| i in left;
      left := left - {i};
      if q <= i { q := i + 1; }
    }
  }

  /** In whatever state a replica that is inside has lost its connection, another one is inside already or
      can be, with the first still inside. */
  lemma LostConnectionAdmitsTwo(c: Cluster, r: int)
    requires LockOk(c) && InsideLost(c, r)
    ensures exists events, q :: NoMoreLost(events) && BothInside(Run(c, events), r, q)
  {
    assert Run(c, []) == c;
    if c.holder.HeldBy? {
      var q := c.holder.replica;
      assert c.holder == HeldBy(q);
      assert NoMoreLost([]) && BothInside(Run(c, []), r, q);
    } else {
      var q := FreshReplica(c.replicas);
      var events := [Starts(q), TriesLock(q)];
      assert events[..1] == [Starts(q)] && [Starts(q)][..0] == [];
      var d := Do(c, Starts(q));
      assert Run(c, [Starts(q)]) == d;
      assert d.holder == Free && At(d, q, Trying);
      assert Run(c, events) == Do(d, TriesLock(q));
      assert NoMoreLost(events) && BothInside(Run(c, events), r, q);
    }
  }

  lemma StepNoneLost(c: Cluster, e: Event)
    requires LockOk(c) && (forall r :: !InsideLost(c, r)) && !e.LosesConnection?
    ensures LockOk(Do(c, e)) && forall r :: !InsideLost(Do(c, e), r)
  {
    StepKeepsLock(c, e);
    forall r ensures !InsideLost(Do(c, e), r) {
      assert !InsideLost(c, r);
    }
  }

  lemma {:induction false} NoneLostStays(c: Cluster, events: seq<Event>)
    requires LockOk(c) && (forall r :: !InsideLost(c, r)) && NoMoreLost(events)
    ensures LockOk(Run(c, events)) && forall r :: !InsideLost(Run(c, events), r)
  {
    if events != [] {
      var init := events[..|events| - 1];
      NoneLostStays(c, init);
      StepNoneLost(Run(c, init), events[|events| - 1]);
    }
  }

  /** Exactly when mutual exclusion is gone: unless a further connection is lost, two replicas can come to be
      inside at once if and only if some replica is inside now on a lost connection. */
  lemma TwoInsideIffLost(c: Cluster)
    requires LockOk(c)
    ensures (exists events, r, q :: NoMoreLost(events) && BothInside(Run(c, events), r, q)) <==>
            exists r :: InsideLost(c, r)
  {
    if r :| InsideLost(c, r) {
      LostConnectionAdmitsTwo(c, r);
      var events, q :| NoMoreLost(events) && BothInside(Run(c, events), r, q);
    } else {
      forall events, r, q | NoMoreLost(events) ensures !BothInside(Run(c, events), r, q) {
        NoneLostStays(c, events);
        var end := Run(c, events);
        assert !InsideLost(end, r) && !InsideLost(end, q);
        assert BothInside(end, r, q) ==> end.holder == HeldBy(r) && end.holder == HeldBy(q);
      }
    }
  }

  ghost predicate Reaches(c: Cluster, d: Cluster) { exists events :: Run(c, events) == d }

  lemma ReachesStep(c: Cluster, d: Cluster, e: Event)
    requires Reaches(c, d)
    ensures Reaches(c, Do(d, e))
  {
    var events :| Run(c, events) == d;
    assert (events + [e])[..|events|] == events;
    assert Run(c, events + [e]) == Do(d, e);
  }

  /** A state that can be reached, with the first two replicas and the lock as given. */
  ghost predicate Stage(c: Cluster, d: Cluster, holder: Holder, first: Replica, second: Replica) {
    && Reaches(c, d) && d.sys == c.sys && d.holder == holder
    && 1 in d.replicas && d.replicas[1] == first && 2 in d.replicas && d.replicas[2] == second
  }

  lemma TwoTry(c: Cluster) returns (d: Cluster)
    requires Initial(c)
    ensures Stage(c, d, Free, Replica(Trying, false), Replica(Trying, false))
  {
    assert Run(c, []) == c;
    ReachesStep(c, c, Starts(1));
    var e := Do(c, Starts(1));
    ReachesStep(c, e, Starts(2));
    d := Do(e, Starts(2));
  }

  lemma Acquires(c: Cluster, d: Cluster, r: int) returns (e: Cluster)
    requires Reaches(c, d) && d.holder == Free && r in d.replicas && d.replicas[r] == Replica(Trying, false)
    requires !HasParsedSchedule(d.sys.db)
    ensures Reaches(c, e) && e.sys == d.sys && e.holder == HeldBy(r)
    ensures e.replicas == d.replicas[r := Replica(Importing, false)]
  {
    ReachesStep(c, d, TriesLock(r));
    var m := Do(d, TriesLock(r));
    assert m.replicas == d.replicas[r := Replica(Checking, false)];
    ReachesStep(c, m, Checks(r));
    e := Do(m, Checks(r));
  }

  /** It reaches as far as the import: one lost connection is enough for two replicas to be importing at once. */
  lemma TwoCanImport(c: Cluster)
    requires Initial(c) && !HasParsedSchedule(c.sys.db)
    ensures exists d :: Reaches(c, d) && At(d, 1, Importing) && At(d, 2, Importing)
  {
    var d := TwoTry(c);
    d := Acquires(c, d, 1);
    ReachesStep(c, d, LosesConnection(1));
    d := Do(d, LosesConnection(1));
    d := Acquires(c, d, 2);
  }

  // ---- the schedule is imported once

  lemma {:induction false} StoredRowsAreParsed(st: Load, slots: seq<Slot>)
    requires LoadOk(st) && LoadSlots(st, slots).Ok?
    requires LoadSlots(st, slots).value.stats.lessonsImported > st.stats.lessonsImported
    ensures HasParsedSchedule(LoadSlots(st, slots).value.db)
  {
    var init, slot := slots[..|slots| - 1], slots[|slots| - 1];
    var before := LoadSlots(st, init).value;
    LoadSlotsOk(st, init);
    SlotRoomOk(before, slot.room);
    var after := LoadSlots(st, slots).value;
    if after.stats.lessonsImported > before.stats.lessonsImported {
      assert before.db.nextBooking in after.db.bookings && ByParser(after.db.bookings[before.db.nextBooking]);
    } else {
      StoredRowsAreParsed(st, init);
      var i :| i in before.db.bookings && ByParser(before.db.bookings[i]);
      assert i in after.db.bookings && ByParser(after.db.bookings[i]);
    }
  }

  lemma ImportedRowsAreParsed(db: Db, rooms: seq<NamedRoom>, slots: seq<Slot>)
    requires Valid(db) && Replace(db, rooms, slots).Ok?
    requires Replace(db, rooms, slots).value.stats.lessonsImported > 0
    ensures HasParsedSchedule(Replace(db, rooms, slots).value.db)
  {
    var start := Load(Cleared(db), map[], StartStats(rooms, slots));
    LoadRoomsOk(start, rooms);
    LoadRoomsStats(start, rooms);
    StoredRowsAreParsed(LoadRooms(start, rooms).value, slots);
  }

  ghost predicate NonEmptyCommit(c: Cluster) { exists i :: 0 <= i < |c.commits| && c.commits[i] > 0 }

  /** Once rows have been imported they are there, and nobody is about to import. */
  ghost predicate Settled(c: Cluster) {
    && Inv(c)
    && (forall r | r in c.replicas :: !c.replicas[r].lost)
    && (NonEmptyCommit(c) ==>
       HasParsedSchedule(c.sys.db) && forall r | r in c.replicas :: !c.replicas[r].phase.Importing?)
  }

  lemma StepSettles(c: Cluster, e: Event)
    requires Settled(c) && !e.LosesConnection?
    requires HasParsedSchedule(c.sys.db) ==> HasParsedSchedule(Do(c, e).sys.db)
    ensures Settled(Do(c, e))
    ensures NonEmptyCommit(c) ==> Do(c, e).commits == c.commits
  {
    StepKeepsInv(c, e);
    if e.Imports? && At(c, e.r, Importing) && Replace(c.sys.db, e.rooms, e.slots).Ok? {
      var result := Replace(c.sys.db, e.rooms, e.slots).value;
      if result.stats.lessonsImported > 0 {
        ImportedRowsAreParsed(c.sys.db, e.rooms, e.slots);
      }
      forall r | r in c.replicas && c.replicas[r].phase.Importing? ensures r == e.r {
        assert c.holder == HeldBy(r) && c.holder == HeldBy(e.r);
      }
    }
  }

  /** No step of the run takes the last parsed row away. */
  ghost predicate NeverEmptied(c: Cluster, events: seq<Event>) {
    events == [] ||
    (NeverEmptied(c, events[..|events| - 1]) &&
     (HasParsedSchedule(Run(c, events[..|events| - 1]).sys.db) ==> HasParsedSchedule(Run(c, events).sys.db)))
  }

  lemma {:induction false} RunSettles(c: Cluster, events: seq<Event>)
    requires Initial(c) && NeverEmptied(c, events) && forall e | e in events :: !e.LosesConnection?
    ensures Settled(Run(c, events))
  {
    if events != [] {
      RunSettles(c, events[..|events| - 1]);
      StepSettles(Run(c, events[..|events| - 1]), events[|events| - 1]);
    }
  }

  /** With any number of replicas starting, waiting, failing, crashing or being cancelled, but no lock
      connection lost: once an import has stored a row, and while some parsed row is left, nobody
      imports again, in however many further events. */
  lemma {:induction false} ImportedOnce(c: Cluster, events: seq<Event>, k: nat)
    requires Initial(c) && NeverEmptied(c, events) && forall e | e in events :: !e.LosesConnection?
    requires k <= |events| && NonEmptyCommit(Run(c, events[..k]))
    ensures Run(c, events).commits == Run(c, events[..k]).commits
    decreases |events|
  {
    if k == |events| {
      assert events[..k] == events;
    } else {
      var init, last := events[..|events| - 1], events[|events| - 1];
      assert init[..k] == events[..k];
      ImportedOnce(c, init, k);
      RunSettles(c, init);
      StepSettles(Run(c, init), last);
    }
  }
}
