/** One replica's side of the import: the retry loop around the lock and the status it reports. What the
    database and the clock answer is a script. */
module StartupImport {
  import opened BookingStore

  /** Errors are told apart only as far as the program does: cancellation or anything else. */
  datatype Outcome = Nil | Canceled | Failure

  /** One attempt at the lock: an error, the lock, or a refusal and what ended the wait. */
  datatype Attempt = LockError(error: Outcome) | Acquired | Refused(canceledWaiting: bool)

  datatype Check = CheckFailed(error: Outcome) | AlreadyThere | NothingThere

  /** What happens to a replica that gets inside. */
  datatype Script = Script(attempts: seq<Attempt>, check: Check, imported: Outcome, stats: ImportStats, commit: Outcome)

  predicate WellFormed(s: Script) {
    && (s.check.CheckFailed? ==> s.check.error != Nil)
    && forall k | 0 <= k < |s.attempts| :: s.attempts[k].LockError? ==> s.attempts[k].error != Nil
  }

  /** Every attempt before k was refused and waited out. */
  predicate WaitsUntil(attempts: seq<Attempt>, k: nat)
    requires k <= |attempts|
  {
    forall j | 0 <= j < k :: attempts[j] == Refused(false)
  }

  /** The loop gets to an attempt that ends it, and this is how. */
  predicate EndsWith(attempts: seq<Attempt>, last: Attempt) {
    exists k :: 0 <= k < |attempts| && WaitsUntil(attempts, k) && attempts[k] == last
  }

  predicate StaysOutside(attempts: seq<Attempt>) { WaitsUntil(attempts, |attempts|) }

  /** Cancelled before it gets inside: while it waits, or while the statement for the lock is under way. */
  predicate CancelledOutside(attempts: seq<Attempt>) {
    EndsWith(attempts, Refused(true)) || EndsWith(attempts, LockError(Canceled))
  }

  /** A loop ends in one way. */
  lemma EndsOnce(attempts: seq<Attempt>, a: Attempt, b: Attempt)
    requires EndsWith(attempts, a) && a != Refused(false) && b != Refused(false)
    ensures EndsWith(attempts, b) <==> a == b
    ensures !StaysOutside(attempts)
  {
    var i :| 0 <= i < |attempts| && WaitsUntil(attempts, i) && attempts[i] == a;
    if EndsWith(attempts, b) {
      var j :| 0 <= j < |attempts| && WaitsUntil(attempts, j) && attempts[j] == b;
      assert i == j;
    }
  }

  /** How the retry loop ends. */
  datatype Lock = Entered | GaveUp(error: Outcome) | StillWaiting

  /** `WithScheduleImportLock` up to the call of its argument. */
  method AwaitLock(attempts: seq<Attempt>) returns (r: Lock)
    ensures r == Entered <==> EndsWith(attempts, Acquired)
    ensures r == StillWaiting <==> StaysOutside(attempts)
    ensures forall e :: r == GaveUp(e) <==>
            EndsWith(attempts, LockError(e)) || (e == Canceled && EndsWith(attempts, Refused(true)))
  {
    for k := 0 to |attempts|
      invariant WaitsUntil(attempts, k)
    {
      if attempts[k] != Refused(false) {
        assert EndsWith(attempts, attempts[k]);
        forall b | b != Refused(false) ensures EndsWith(attempts, b) <==> attempts[k] == b {
          EndsOnce(attempts, attempts[k], b);
        }
      }
      match attempts[k] {
        case LockError(e) => return GaveUp(e);
        case Acquired => return Entered;
        case Refused(canceled) => if canceled { return GaveUp(Canceled); }
      }
    }
    return StillWaiting;
  }

  /** Inside, the replica finds a schedule or loads one. */
  predicate ScheduleThere(s: Script) { s.check == AlreadyThere || (s.check == NothingThere && s.imported == Nil) }

  function InsideError(s: Script): Outcome { if s.check.CheckFailed? then s.check.error else s.imported }

  datatype Status = Pending | Running | Ready | Failed

  const NO_STATS := ImportStats(0, 0, 0, 0, 0, 0)

  class ImportStatusTracker {
    var status: Status
    var err: Outcome
    var stats: ImportStats
    var completed: bool
    var skipped: bool

    /** What the status page can show in one reading. */
    predicate Consistent()
      reads this
    {
      && (completed <==> status == Ready || status == Failed)
      && (err != Nil ==> status == Failed)
      && (skipped ==> status == Ready && stats == NO_STATS)
    }

    constructor ()
      ensures status == Pending && Consistent()
    {
      status, err, stats, completed, skipped := Pending, Nil, NO_STATS, false, false;
    }

    method MarkRunning()
      modifies this
      ensures Consistent() && status == Running && stats == NO_STATS
    {
      status, err, stats, completed, skipped := Running, Nil, NO_STATS, false, false;
    }

    method MarkReady(imported: ImportStats)
      modifies this
      ensures Consistent() && status == Ready && stats == imported && !skipped
    {
      status, err, stats, completed, skipped := Ready, Nil, imported, true, false;
    }

    method MarkSkipped()
      modifies this
      ensures Consistent() && status == Ready && stats == NO_STATS && skipped
    {
      status, err, stats, completed, skipped := Ready, Nil, NO_STATS, true, true;
    }

    method MarkFailed(e: Outcome)
      modifies this`status, this`err, this`completed, this`skipped
      ensures Consistent() && status == Failed && err == e
    {
      status, err, completed, skipped := Failed, e, true, false;
    }

    /** The closure run under the lock. */
    method Inside(s: Script) returns (r: Outcome)
      requires status == Running && Consistent() && WellFormed(s)
      modifies this
      ensures Consistent()
      ensures r == Nil <==> status == Ready
      ensures r == Nil <==> ScheduleThere(s)
      ensures r != Nil ==> status == Failed && err == r == InsideError(s) && stats == old(stats)
      ensures r == Nil ==> skipped == (s.check == AlreadyThere) && stats == if skipped then NO_STATS else s.stats
    {
      match s.check {
        case CheckFailed(e) =>
          MarkFailed(e);
          return e;
        case AlreadyThere =>
          MarkSkipped();
          return Nil;
        case NothingThere =>
          if s.imported != Nil {
            MarkFailed(s.imported);
            return s.imported;
          }
          MarkReady(s.stats);
          return Nil;
      }
    }

    /** The background goroutine, with the exact condition of each status it can leave. "Ready": inside, a
        schedule was found or loaded, and the lock's own transaction did not fail other than by cancellation.
        "Running": still waiting, or cancelled before it got inside, which nothing reports. "Failed": the rest. */
    method Start(s: Script)
      requires WellFormed(s)
      modifies this
      ensures Consistent()
      ensures var entered, done := EndsWith(s.attempts, Acquired), ScheduleThere(s);
              && (status == Ready <==> entered && done && s.commit != Failure)
              && (status == Running <==> StaysOutside(s.attempts) || CancelledOutside(s.attempts))
              && (status == Failed <==>
                 EndsWith(s.attempts, LockError(Failure)) || (entered && !(done && s.commit != Failure)))
              && (status == Ready ==> skipped == (s.check == AlreadyThere))
              && (status == Failed ==> err == if entered && !done then InsideError(s) else Failure)
              && stats == if entered && s.check == NothingThere && s.imported == Nil then s.stats else NO_STATS
    {
      MarkRunning();
      var lock := AwaitLock(s.attempts);
      if lock.Entered? {
        var r := Inside(s);
        if r == Nil { r := s.commit; }
        if r == Failure { MarkFailed(r); }
      } else if lock.GaveUp? && lock.error != Canceled {
        MarkFailed(lock.error);
      }
    }
  }

  /** Both ways of being cancelled outside leave "running", whatever would have happened inside. */
  method CancelledKeepsRunning(tracker: ImportStatusTracker, s: Script, refusals: nat, waiting: bool)
    requires WellFormed(s)
    requires s.attempts == seq(refusals, _ => Refused(false)) + [if waiting then Refused(true) else LockError(Canceled)]
    modifies tracker
    ensures tracker.status == Running && !tracker.completed && tracker.err == Nil
  {
    assert s.attempts[refusals] == if waiting then Refused(true) else LockError(Canceled);
    assert WaitsUntil(s.attempts, refusals);
    tracker.Start(s);
  }
}
