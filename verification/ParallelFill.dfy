/** The worker pool at work on the tables: every save runs as one step, since all saves hold one mutex, in
    whatever order the workers come to it, on the tables as they are then. Whether the fill succeeds, and what
    it leaves, is the same for every order. Saves fail by a teacher's made-up id being taken, by text that is no
    time, or by cancellation; a database that fails by itself is not part of this model. */
module ParallelFill {
  import opened TimetableView
  import opened TimetableFill
  import opened WorkerPool

  datatype Job = Job(group: string, items: seq<Item>)

  /** The pool, the names in the tables, and the entries committed so far, in the order of their commits. */
  datatype State = State(pool: Pool, view: View, log: seq<Entry>)

  /** A step of the pool; for a save that fails, how many lessons it has committed before. */
  datatype Step = Step(action: Action, done: nat)

  function EntriesOf(j: Job): seq<Entry> { NamedAll(j.group, j.items) }

  function Entries(jobs: seq<Job>): seq<Entry> {
    if jobs == [] then [] else Entries(jobs[..|jobs| - 1]) + EntriesOf(jobs[|jobs| - 1])
  }

  /** A save succeeds when every lesson can be added; it fails at one that cannot be, or, once the context is
      cancelled, at any. */
  predicate SaveCan(hash: string -> nat, s: State, es: seq<Entry>, ok: bool, done: nat) {
    if ok then FillAll(hash, s.view, es).ok
    else
      && done < |es| && FillAll(hash, s.view, es[..done]).ok
      && (s.pool.cancelled || s.pool.parentCancelled || !CanAdd(hash, FillAll(hash, s.view, es[..done]).view, es[done]))
  }

  predicate Possible(hash: string -> nat, jobs: seq<Job>, s: State, step: Step) {
    && Enabled(s.pool, step.action)
    && (step.action.Save? ==>
          var job := s.pool.workers[step.action.w].job;
          job < |jobs| && SaveCan(hash, s, EntriesOf(jobs[job]), step.action.ok, step.done))
  }

  function Committed(jobs: seq<Job>, s: State, step: Step): seq<Entry>
    requires Enabled(s.pool, step.action)
    requires step.action.Save? ==> s.pool.workers[step.action.w].job < |jobs|
  {
    if step.action.Save? then
      var es := EntriesOf(jobs[s.pool.workers[step.action.w].job]);
      if step.action.ok || step.done > |es| then es else es[..step.done]
    else []
  }

  function DoStep(hash: string -> nat, jobs: seq<Job>, s: State, step: Step): State {
    if !Possible(hash, jobs, s, step) then s
    else
      var more := Committed(jobs, s, step);
      State(Do(s.pool, step.action), FillAll(hash, s.view, more).view, s.log + more)
  }

  function Begin(jobs: seq<Job>, v: View): State { State(Start(|jobs|, WORKERS), v, []) }

  function Ending(hash: string -> nat, jobs: seq<Job>, v: View, steps: seq<Step>): State {
    if steps == [] then Begin(jobs, v)
    else DoStep(hash, jobs, Ending(hash, jobs, v, steps[..|steps| - 1]), steps[|steps| - 1])
  }

  // ---- entries of jobs

  lemma {:induction false} EntriesHas(jobs: seq<Job>, j: nat, e: Entry)
    requires j < |jobs| && e in EntriesOf(jobs[j])
    ensures e in Entries(jobs)
  {
    if j < |jobs| - 1 { EntriesHas(jobs[..|jobs| - 1], j, e); }
  }

  lemma {:induction false} EntriesFrom(jobs: seq<Job>, e: Entry) returns (j: nat)
    requires e in Entries(jobs)
    ensures j < |jobs| && e in EntriesOf(jobs[j])
  {
    if e in EntriesOf(jobs[|jobs| - 1]) {
      j := |jobs| - 1;
    } else {
      j := EntriesFrom(jobs[..|jobs| - 1], e);
    }
  }

  // ---- the invariant

  ghost predicate SavedIn(jobs: seq<Job>, job: nat, log: seq<Entry>)
    requires job < |jobs|
  {
    forall e | e in EntriesOf(jobs[job]) :: e in log
  }

  ghost predicate LogOk(jobs: seq<Job>, s: State) {
    && (forall e | e in s.log :: e in Entries(jobs))
    && (forall k | 0 <= k < |s.pool.saved| :: s.pool.saved[k] < |jobs| && SavedIn(jobs, s.pool.saved[k], s.log))
  }

  ghost predicate FillInv(hash: string -> nat, jobs: seq<Job>, v: View, s: State) {
    && Inv(s.pool) && s.pool.groups == |jobs|
    && FillAll(hash, v, s.log) == Fill(true, s.view)
    && LogOk(jobs, s)
    && (NoCollision(hash, v, Entries(jobs)) && !s.pool.parentCancelled ==> s.pool.failed == [])
  }

  lemma StepLog(hash: string -> nat, jobs: seq<Job>, s: State, step: Step)
    requires LogOk(jobs, s) && Possible(hash, jobs, s, step)
    ensures LogOk(jobs, DoStep(hash, jobs, s, step))
  {
    var s', more := DoStep(hash, jobs, s, step), Committed(jobs, s, step);
    if step.action.Save? {
      var job := s.pool.workers[step.action.w].job;
      forall e | e in more ensures e in Entries(jobs) { EntriesHas(jobs, job, e); }
    }
    forall k | 0 <= k < |s'.pool.saved| ensures s'.pool.saved[k] < |jobs| && SavedIn(jobs, s'.pool.saved[k], s'.log) {
      if k < |s.pool.saved| { assert s'.pool.saved[k] == s.pool.saved[k] && SavedIn(jobs, s.pool.saved[k], s.log); }
    }
  }

  lemma StepView(hash: string -> nat, jobs: seq<Job>, v: View, s: State, step: Step)
    requires FillAll(hash, v, s.log) == Fill(true, s.view) && Possible(hash, jobs, s, step)
    ensures var s' := DoStep(hash, jobs, s, step); FillAll(hash, v, s'.log) == Fill(true, s'.view)
  {
    FillAppend(hash, v, s.log, Committed(jobs, s, step));
  }

  /** Fewer entries collide less. */
  lemma Fewer(hash: string -> nat, v: View, es: seq<Entry>, fs: seq<Entry>)
    requires NoCollision(hash, v, es) && forall e | e in fs :: e in es
    ensures NoCollision(hash, v, fs)
  {
  }

  /** Without collisions no lesson of any job is ever refused. */
  lemma NeverRefused(hash: string -> nat, jobs: seq<Job>, v: View, s: State, job: nat, done: nat)
    requires FillAll(hash, v, s.log) == Fill(true, s.view) && LogOk(jobs, s) && NoCollision(hash, v, Entries(jobs))
    requires job < |jobs| && done < |EntriesOf(jobs[job])| && FillAll(hash, s.view, EntriesOf(jobs[job])[..done]).ok
    ensures CanAdd(hash, FillAll(hash, s.view, EntriesOf(jobs[job])[..done]).view, EntriesOf(jobs[job])[done])
  {
    var es := EntriesOf(jobs[job]);
    var first := es[..done + 1];
    forall e | e in s.log + first ensures e in Entries(jobs) {
      if e in first { EntriesHas(jobs, job, e); }
    }
    Fewer(hash, v, Entries(jobs), s.log + first);
    FillOutcome(hash, v, s.log + first);
    FillAppend(hash, v, s.log, first);
    FillStep(hash, s.view, es, done);
  }

  lemma NothingCancelled(p: Pool)
    requires Inv(p) && p.failed == []
    ensures !p.cancelled
  {
  }

  lemma StepFailed(hash: string -> nat, jobs: seq<Job>, v: View, s: State, step: Step)
    requires FillInv(hash, jobs, v, s) && Possible(hash, jobs, s, step)
    ensures var p' := DoStep(hash, jobs, s, step).pool;
            NoCollision(hash, v, Entries(jobs)) && !p'.parentCancelled ==> p'.failed == []
  {
    if NoCollision(hash, v, Entries(jobs)) && step.action.Save? && !step.action.ok && !s.pool.parentCancelled {
      NothingCancelled(s.pool);
      NeverRefused(hash, jobs, v, s, s.pool.workers[step.action.w].job, step.done);
    }
  }

  lemma {:induction false} RunFill(hash: string -> nat, jobs: seq<Job>, v: View, steps: seq<Step>)
    ensures FillInv(hash, jobs, v, Ending(hash, jobs, v, steps))
  {
    if steps == [] {
      StartInv(|jobs|, WORKERS);
    } else {
      RunFill(hash, jobs, v, steps[..|steps| - 1]);
      var s, step := Ending(hash, jobs, v, steps[..|steps| - 1]), steps[|steps| - 1];
      if Possible(hash, jobs, s, step) {
        StepInv(s.pool, step.action);
        StepLog(hash, jobs, s, step);
        StepView(hash, jobs, v, s, step);
        StepFailed(hash, jobs, v, s, step);
      }
    }
  }

  // ---- the result does not depend on the schedule

  lemma AllSaved(hash: string -> nat, jobs: seq<Job>, v: View, s: State)
    requires FillInv(hash, jobs, v, s) && multiset(s.pool.saved) == FirstJobs(|jobs|)
    ensures forall e :: e in s.log <==> e in Entries(jobs)
  {
    forall e | e in Entries(jobs) ensures e in s.log {
      var j := EntriesFrom(jobs, e);
      FirstJobsOnce(|jobs|, j);
      assert j in multiset(s.pool.saved);
      var k :| 0 <= k < |s.pool.saved| && s.pool.saved[k] == j;
      assert SavedIn(jobs, s.pool.saved[k], s.log);
    }
  }

  /** Every run that returns nil has left what a fill of one group after the other leaves, which succeeds too. */
  lemma NilIsSequential(hash: string -> nat, jobs: seq<Job>, v: View, steps: seq<Step>)
    requires Ending(hash, jobs, v, steps).pool.producer == Returned(Nil)
    ensures FillAll(hash, v, Entries(jobs)) == Fill(true, Ending(hash, jobs, v, steps).view)
  {
    var s := Ending(hash, jobs, v, steps);
    RunFill(hash, jobs, v, steps);
    ReturnedState(s.pool);
    AllSaved(hash, jobs, v, s);
    OrderIndependent(hash, v, s.log, Entries(jobs));
  }

  lemma FillHas(hash: string -> nat, v: View, es: seq<Entry>, e: Entry)
    requires FillAll(hash, v, es).ok && e in es
    ensures e in FillAll(hash, v, es).view.links
  {
    FillOutcome(hash, v, es);
  }

  /** After nil, each lesson of each group has rows behind it that say what it says. */
  lemma NilSavesAll(hash: string -> nat, jobs: seq<Job>, v: View, steps: seq<Step>, t: Tables, j: nat, k: nat)
    requires Ending(hash, jobs, v, steps).pool.producer == Returned(Nil)
    requires References(t) && ViewOf(t) == Ending(hash, jobs, v, steps).view
    requires j < |jobs| && k < |jobs[j].items|
    ensures ItemThere(t, jobs[j].group, jobs[j].items[k])
  {
    hide ViewOf, Named, ItemThere, FillAll, Ending;
    var job := jobs[j];
    assert EntriesOf(job)[k] == Named(job.group, job.items[k]);
    EntriesHas(jobs, j, Named(job.group, job.items[k]));
    NilIsSequential(hash, jobs, v, steps);
    FillHas(hash, v, Entries(jobs), Named(job.group, job.items[k]));
    ItemThereIff(t, job.group, job.items[k]);
  }

  /** The link was there by its names, or a lesson of one of the groups is behind it. */
  ghost predicate OldOrOfJob(v: View, t: Tables, l: Link, jobs: seq<Job>)
    requires References(t) && l in t.links
  {
    LinkOf(t, l) in v.links
    || exists j, k :: 0 <= j < |jobs| && 0 <= k < |jobs[j].items| && RowsSay(t, l, jobs[j].group, jobs[j].items[k])
  }

  /** At every moment of every run, whatever is there was there or is of the lessons given. */
  lemma NothingElseSaved(hash: string -> nat, jobs: seq<Job>, v: View, steps: seq<Step>, t: Tables, l: Link)
    requires References(t) && ViewOf(t) == Ending(hash, jobs, v, steps).view && l in t.links
    ensures OldOrOfJob(v, t, l, jobs)
  {
    hide Named, RowsSay, FillAll, Ending;
    var s := Ending(hash, jobs, v, steps);
    RunFill(hash, jobs, v, steps);
    assert LinkOf(t, l) in ViewOf(t).links;
    LinksFrom(hash, v, s.log, LinkOf(t, l));
    if LinkOf(t, l) !in v.links {
      var j := EntriesFrom(jobs, LinkOf(t, l));
      var k :| 0 <= k < |jobs[j].items| && EntriesOf(jobs[j])[k] == LinkOf(t, l);
      LinkSays(t, l, jobs[j].group, jobs[j].items[k]);
    }
  }

  /** When the caller does not cancel, every run that returns gives the same answer as every other: nil if
      filling one group after the other succeeds, the error of a save if it does not. */
  lemma AnswerIsScheduleFree(hash: string -> nat, jobs: seq<Job>, v: View, steps: seq<Step>)
    requires Ending(hash, jobs, v, steps).pool.producer.Returned? && !Ending(hash, jobs, v, steps).pool.parentCancelled
    ensures var outcome := Ending(hash, jobs, v, steps).pool.producer.outcome;
            && (outcome == Nil <==> FillAll(hash, v, Entries(jobs)).ok)
            && (outcome.SaveError? <==> !FillAll(hash, v, Entries(jobs)).ok)
  {
    var s := Ending(hash, jobs, v, steps);
    RunFill(hash, jobs, v, steps);
    ReturnedState(s.pool);
    FillOutcome(hash, v, Entries(jobs));
    if s.pool.producer.outcome == Nil { NilIsSequential(hash, jobs, v, steps); }
  }

  // ---- progress

  lemma {:induction false} HeldHas(workers: seq<Worker>, w: nat)
    requires w < |workers| && workers[w].Saving?
    ensures workers[w].job in Held(workers)
  {
    if w < |workers| - 1 { HeldHas(workers[..|workers| - 1], w); }
  }

  lemma InHandBound(p: Pool, w: nat)
    requires Inv(p) && w < |p.workers| && p.workers[w].Saving?
    ensures p.workers[w].job < p.groups
  {
    HeldHas(p.workers, w);
    FirstJobsOnce(p.next, p.workers[w].job);
    assert Everywhere(p)[p.workers[w].job] >= 1;
  }

  /** The first entry a fill stops at. */
  lemma {:induction false} FirstRefused(hash: string -> nat, v: View, es: seq<Entry>) returns (n: nat)
    requires !FillAll(hash, v, es).ok
    ensures n < |es| && FillAll(hash, v, es[..n]).ok && !CanAdd(hash, FillAll(hash, v, es[..n]).view, es[n])
  {
    var init := es[..|es| - 1];
    if FillAll(hash, v, init).ok {
      n := |es| - 1;
    } else {
      n := FirstRefused(hash, v, init);
      assert init[..n] == es[..n];
    }
  }

  lemma SaveGoesOn(hash: string -> nat, jobs: seq<Job>, s: State, w: nat)
    requires Inv(s.pool) && s.pool.groups == |jobs| && w < |s.pool.workers| && s.pool.workers[w].Saving?
    ensures exists step :: Possible(hash, jobs, s, step) && step.action.Save?
  {
    InHandBound(s.pool, w);
    var es := EntriesOf(jobs[s.pool.workers[w].job]);
    if FillAll(hash, s.view, es).ok {
      assert Possible(hash, jobs, s, Step(Save(w, true), 0));
    } else {
      var done := FirstRefused(hash, s.view, es);
      assert Possible(hash, jobs, s, Step(Save(w, false), done));
    }
  }

  lemma ActionGoesOn(hash: string -> nat, jobs: seq<Job>, s: State, a: Action)
    requires Inv(s.pool) && s.pool.groups == |jobs| && Enabled(s.pool, a) && a != ParentCancels
    ensures exists step :: Possible(hash, jobs, s, step) && step.action != ParentCancels
  {
    if a.Save? {
      SaveGoesOn(hash, jobs, s, a.w);
    } else {
      assert Possible(hash, jobs, s, Step(a, 0));
    }
  }

  /** With the tables in the picture, too, every reachable state before the return has a possible step. */
  lemma FillNeverStuck(hash: string -> nat, jobs: seq<Job>, v: View, steps: seq<Step>)
    requires !Ending(hash, jobs, v, steps).pool.producer.Returned?
    ensures exists step :: Possible(hash, jobs, Ending(hash, jobs, v, steps), step) && step.action != ParentCancels
  {
    var s := Ending(hash, jobs, v, steps);
    RunFill(hash, jobs, v, steps);
    NeverStuck(s.pool);
    var a :| Enabled(s.pool, a) && a != ParentCancels;
    ActionGoesOn(hash, jobs, s, a);
  }

  predicate AllPossible(hash: string -> nat, jobs: seq<Job>, v: View, steps: seq<Step>) {
    steps == []
    || (AllPossible(hash, jobs, v, steps[..|steps| - 1])
        && Possible(hash, jobs, Ending(hash, jobs, v, steps[..|steps| - 1]), steps[|steps| - 1]))
  }

  lemma {:induction false} FillUsesWork(hash: string -> nat, jobs: seq<Job>, v: View, steps: seq<Step>)
    requires AllPossible(hash, jobs, v, steps)
    ensures |steps| + Left(Ending(hash, jobs, v, steps).pool) <= Left(Start(|jobs|, WORKERS))
  {
    if steps != [] {
      FillUsesWork(hash, jobs, v, steps[..|steps| - 1]);
      RunFill(hash, jobs, v, steps[..|steps| - 1]);
      StepUsesWork(Ending(hash, jobs, v, steps[..|steps| - 1]).pool, steps[|steps| - 1].action);
    }
  }

  lemma LeftPositive(p: Pool)
    requires Inv(p)
    ensures Left(p) >= 0
  {
  }

  /** Every fill ends: no run has more steps than this, and until it returns there is always a next one. */
  lemma FillEnds(hash: string -> nat, jobs: seq<Job>, v: View, steps: seq<Step>)
    requires AllPossible(hash, jobs, v, steps)
    ensures |steps| <= 4 * |jobs| + WORKERS + 3
  {
    FillUsesWork(hash, jobs, v, steps);
    RunFill(hash, jobs, v, steps);
    IdleWeight(WORKERS);
    LeftPositive(Ending(hash, jobs, v, steps).pool);
  }
}
