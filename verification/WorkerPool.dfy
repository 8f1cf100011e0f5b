/** The parallel filler: one producer, a bounded job channel, a pool of workers, a one-slot error channel
    that drops what does not fit, cancellation and a wait group. Jobs are the positions of the groups. */
module WorkerPool {

  /** The pool size of the program; everything below holds for any positive size. */
  const WORKERS: nat := 20

  datatype Worker =
    | Idle
    | Saving(job: nat)
    | Reporting(job: nat)   // the save has failed; about to offer the error
    | Cancelling            // about to cancel the context and return
    | Gone

  datatype Leaving = ByError(job: nat) | ByDone | ByEnd

  datatype Outcome = Nil | SaveError(job: nat) | ContextError

  datatype Producer = Sending | Joining(why: Leaving) | Returned(outcome: Outcome)

  datatype ErrorSlot = NoError | Pending(job: nat)

  datatype Pool = Pool(
    groups: nat, size: nat, next: nat, queue: seq<nat>, closed: bool, errCh: ErrorSlot,
    cancelled: bool, parentCancelled: bool, workers: seq<Worker>, saved: seq<nat>, failed: seq<nat>, producer: Producer)

  datatype Action =
    | Send
    | TakeError
    | SeeDone
    | Finish
    | Join
    | Take(w: nat)
    | Quit(w: nat)
    | Save(w: nat, ok: bool)
    | Report(w: nat)
    | Cancel(w: nat)
    | ParentCancels

  predicate AllGone(workers: seq<Worker>) { forall w | 0 <= w < |workers| :: workers[w].Gone? }

  predicate Enabled(p: Pool, a: Action) {
    match a
    case Send => p.producer.Sending? && p.next < p.groups && |p.queue| < p.size
    case TakeError => p.producer.Sending? && p.next < p.groups && p.errCh.Pending?
    case SeeDone => p.producer.Sending? && p.next < p.groups && (p.cancelled || p.parentCancelled)
    case Finish => p.producer.Sending? && p.next == p.groups
    case Join => p.producer.Joining? && AllGone(p.workers)
    case Take(w) => w < |p.workers| && p.workers[w].Idle? && p.queue != []
    case Quit(w) => w < |p.workers| && p.workers[w].Idle? && p.queue == [] && p.closed
    case Save(w, _) => w < |p.workers| && p.workers[w].Saving?
    case Report(w) => w < |p.workers| && p.workers[w].Reporting?
    case Cancel(w) => w < |p.workers| && p.workers[w].Cancelling?
    case ParentCancels => !p.parentCancelled
  }

  function SetWorker(p: Pool, w: nat, x: Worker): Pool
    requires w < |p.workers|
  {
    p.(workers := p.workers[w := x])
  }

  /** The select after wg.Wait. */
  function Answer(why: Leaving, errCh: ErrorSlot): Outcome {
    match why
    case ByError(job) => SaveError(job)
    case ByDone => if errCh.Pending? then SaveError(errCh.job) else ContextError
    case ByEnd => if errCh.Pending? then SaveError(errCh.job) else Nil
  }

  /** One step of the producer, of a worker or of the caller; an action that is not possible changes nothing. */
  function Do(p: Pool, a: Action): Pool {
    if !Enabled(p, a) then p else
    match a
    case Send => p.(queue := p.queue + [p.next], next := p.next + 1)
    case TakeError => p.(errCh := NoError, cancelled := true, closed := true, producer := Joining(ByError(p.errCh.job)))
    case SeeDone => p.(closed := true, producer := Joining(ByDone))
    case Finish => p.(closed := true, producer := Joining(ByEnd))
    case Join =>
      p.(errCh := if p.producer.why.ByError? then p.errCh else NoError,
         producer := Returned(Answer(p.producer.why, p.errCh)))
    case Take(w) => SetWorker(p, w, Saving(p.queue[0])).(queue := p.queue[1..])
    case Quit(w) => SetWorker(p, w, Gone)
    case Save(w, ok) =>
      var job := p.workers[w].job;
      if ok then SetWorker(p, w, Idle).(saved := p.saved + [job])
      else SetWorker(p, w, Reporting(job)).(failed := p.failed + [job])
    case Report(w) =>
      SetWorker(p, w, Cancelling).(errCh := if p.errCh.Pending? then p.errCh else Pending(p.workers[w].job))
    case Cancel(w) => SetWorker(p, w, Gone).(cancelled := true)
    case ParentCancels => p.(parentCancelled := true)
  }

  function Start(groups: nat, size: nat): Pool {
    Pool(groups, size, 0, [], false, NoError, false, false, seq(size, _ => Idle), [], [], Sending)
  }

  function End(p: Pool, acts: seq<Action>): Pool {
    if acts == [] then p else Do(End(p, acts[..|acts| - 1]), acts[|acts| - 1])
  }

  /** A run: each action is possible where it is taken. */
  predicate IsRun(p: Pool, acts: seq<Action>) {
    acts == [] || (IsRun(p, acts[..|acts| - 1]) && Enabled(End(p, acts[..|acts| - 1]), acts[|acts| - 1]))
  }

  // ---- where the jobs are

  /** What a worker has in hand. */
  function InHand(x: Worker): multiset<nat> { if x.Saving? then multiset{x.job} else multiset{} }

  function Held(workers: seq<Worker>): multiset<nat> {
    if workers == [] then multiset{} else Held(workers[..|workers| - 1]) + InHand(workers[|workers| - 1])
  }

  lemma Swapped(a: multiset<nat>, b: multiset<nat>, x: multiset<nat>, y: multiset<nat>, z: multiset<nat>)
    requires a + x == b + y
    ensures (a + z) + x == (b + z) + y
  {
    assert (a + z) + x == (a + x) + z == (b + y) + z == (b + z) + y;
  }

  lemma {:induction false} HeldUpdate(workers: seq<Worker>, w: nat, x: Worker)
    requires w < |workers|
    ensures Held(workers[w := x]) + InHand(workers[w]) == Held(workers) + InHand(x)
  {
    var n := |workers| - 1;
    var updated := workers[w := x];
    if w < n {
      HeldUpdate(workers[..n], w, x);
      assert updated[..n] == workers[..n][w := x] && updated[n] == workers[n];
      Swapped(Held(updated[..n]), Held(workers[..n]), InHand(workers[w]), InHand(x), InHand(workers[n]));
    } else {
      assert updated[..n] == workers[..n];
      assert Held(updated) == Held(workers[..n]) + InHand(x);
    }
  }

  lemma {:induction false} HeldNothing(workers: seq<Worker>)
    requires forall w | 0 <= w < |workers| :: !workers[w].Saving?
    ensures Held(workers) == multiset{}
  {
    if workers != [] { HeldNothing(workers[..|workers| - 1]); }
  }

  function FirstJobs(n: nat): multiset<nat> { if n == 0 then multiset{} else FirstJobs(n - 1) + multiset{n - 1} }

  lemma {:induction false} FirstJobsOnce(n: nat, job: nat)
    ensures FirstJobs(n)[job] == if job < n then 1 else 0
  {
    if n > 0 { FirstJobsOnce(n - 1, job); }
  }

  // ---- the invariant

  /** All the jobs, wherever they are. */
  function Everywhere(p: Pool): multiset<nat> {
    multiset(p.queue) + Held(p.workers) + multiset(p.saved) + multiset(p.failed)
  }

  /** Every job handed out is in exactly one place. */
  ghost predicate JobsOk(p: Pool) {
    && p.next <= p.groups && |p.queue| <= p.size && |p.workers| == p.size >= 1
    && Everywhere(p) == FirstJobs(p.next)
  }

  /** Somebody has reported an error, and it has not been lost. */
  predicate ErrorKnown(p: Pool) {
    || p.errCh.Pending?
    || (p.producer.Joining? && p.producer.why.ByError?)
    || (p.producer.Returned? && p.producer.outcome.SaveError?)
  }

  predicate AllIn(xs: seq<Worker>, failed: seq<nat>) {
    forall w | 0 <= w < |xs| && xs[w].Reporting? :: xs[w].job in failed
  }

  /** An error always names a group whose save failed. */
  predicate ErrorsNamed(p: Pool) {
    && (p.errCh.Pending? ==> p.errCh.job in p.failed)
    && (p.producer.Joining? && p.producer.why.ByError? ==> p.producer.why.job in p.failed)
    && (p.producer.Returned? && p.producer.outcome.SaveError? ==> p.producer.outcome.job in p.failed)
    && AllIn(p.workers, p.failed)
  }

  predicate SomeoneReporting(p: Pool) { exists w :: 0 <= w < |p.workers| && p.workers[w].Reporting? }

  /** A failure is never forgotten, and the pool cancels only after a failure is known. */
  predicate ErrorsKept(p: Pool) {
    && (forall w | 0 <= w < |p.workers| && p.workers[w].Cancelling? :: ErrorKnown(p))
    && (p.cancelled ==> ErrorKnown(p))
    && (p.failed != [] ==> ErrorKnown(p) || SomeoneReporting(p))
  }

  ghost predicate EndingOk(p: Pool) {
    && (p.closed <==> !p.producer.Sending?)
    && (p.producer == Joining(ByEnd) || p.producer == Returned(Nil) ==> p.next == p.groups)
    && (p.producer == Joining(ByDone) ==> p.cancelled || p.parentCancelled)
    && (p.producer.Returned? ==> AllGone(p.workers))
    && (p.producer == Returned(Nil) ==> !ErrorKnown(p))
    && (p.producer == Returned(ContextError) ==> p.parentCancelled && !ErrorKnown(p))
    && (forall w | 0 <= w < |p.workers| && p.workers[w].Gone? :: (p.closed && p.queue == []) || p.failed != [])
  }

  ghost predicate Inv(p: Pool) { JobsOk(p) && ErrorsNamed(p) && ErrorsKept(p) && EndingOk(p) }

  lemma {:induction false} StartHeld(n: nat)
    ensures Held(seq(n, _ => Idle)) == multiset{}
  {
    HeldNothing(seq(n, _ => Idle));
  }

  lemma StartInv(groups: nat, size: nat)
    requires size >= 1
    ensures Inv(Start(groups, size))
  {
    StartHeld(size);
  }

  lemma SendJobs(p: Pool)
    requires Enabled(p, Send)
    ensures Everywhere(Do(p, Send)) == Everywhere(p) + multiset{p.next}
  {
    assert multiset(p.queue + [p.next]) == multiset(p.queue) + multiset{p.next};
  }

  /** One element moves from one multiset to another. */
  lemma Moved(from: multiset<nat>, to: multiset<nat>, from': multiset<nat>, to': multiset<nat>, job: nat,
              rest: multiset<nat>)
    requires from == from' + multiset{job} && to' == to + multiset{job}
    ensures from' + to' + rest == from + to + rest
  {
  }

  lemma Taken(q: multiset<nat>, q': multiset<nat>, h: multiset<nat>, h': multiset<nat>, job: nat,
              s: multiset<nat>, f: multiset<nat>)
    requires q == q' + multiset{job} && h' + multiset{} == h + multiset{job}
    ensures q' + h' + s + f == q + h + s + f
  {
    Moved(q, h, q', h', job, multiset{});
    assert q' + h' == q + h;
  }

  lemma TakeJobs(p: Pool, w: nat)
    requires Enabled(p, Take(w))
    ensures Everywhere(Do(p, Take(w))) == Everywhere(p)
  {
    var job := p.queue[0];
    HeldUpdate(p.workers, w, Saving(job));
    assert p.queue == [job] + p.queue[1..];
    Taken(multiset(p.queue), multiset(p.queue[1..]), Held(p.workers), Held(p.workers[w := Saving(job)]), job,
      multiset(p.saved), multiset(p.failed));
  }

  lemma Stored(q: multiset<nat>, h: multiset<nat>, h': multiset<nat>, job: nat, s: multiset<nat>, s': multiset<nat>)
    requires h' + multiset{job} == h + multiset{} && s' == s + multiset{job}
    ensures q + h' + s' == q + h + s
  {
    Moved(h, s, h', s', job, multiset{});
    assert q + h' + s' == q + (h' + s') && q + h + s == q + (h + s);
    assert h' + s' == h + s;
  }

  lemma Dropped(q: multiset<nat>, h: multiset<nat>, h': multiset<nat>, job: nat,
                s: multiset<nat>, f: multiset<nat>, f': multiset<nat>)
    requires h' + multiset{job} == h + multiset{} && f' == f + multiset{job}
    ensures q + h' + s + f' == q + h + s + f
  {
    Stored(q + s, h, h', job, f, f');
    assert q + h' + s == q + s + h' && q + h + s == q + s + h;
  }

  lemma SaveJobs(p: Pool, w: nat, ok: bool)
    requires Enabled(p, Save(w, ok))
    ensures Everywhere(Do(p, Save(w, ok))) == Everywhere(p)
  {
    var job := p.workers[w].job;
    var x := if ok then Idle else Reporting(job);
    HeldUpdate(p.workers, w, x);
    assert multiset(p.saved + [job]) == multiset(p.saved) + multiset{job};
    assert multiset(p.failed + [job]) == multiset(p.failed) + multiset{job};
    if ok {
      Stored(multiset(p.queue), Held(p.workers), Held(p.workers[w := x]), job, multiset(p.saved),
        multiset(p.saved + [job]));
    } else {
      Dropped(multiset(p.queue), Held(p.workers), Held(p.workers[w := x]), job, multiset(p.saved),
        multiset(p.failed), multiset(p.failed + [job]));
    }
  }

  lemma SameRest(a: multiset<nat>, b: multiset<nat>, x: multiset<nat>)
    requires a + x == b + x
    ensures a == b
  {
    assert a == (a + x) - x == (b + x) - x == b;
  }

  lemma OtherJobs(p: Pool, w: nat, x: Worker)
    requires w < |p.workers| && InHand(p.workers[w]) == InHand(x)
    ensures Held(p.workers[w := x]) == Held(p.workers)
  {
    HeldUpdate(p.workers, w, x);
    SameRest(Held(p.workers[w := x]), Held(p.workers), InHand(x));
  }

  /** Sending hands out one more job; no other step loses, doubles or invents one. */
  lemma StepJobs(p: Pool, a: Action)
    requires Enabled(p, a)
    ensures a.Send? ==> Everywhere(Do(p, a)) == Everywhere(p) + multiset{p.next}
    ensures !a.Send? ==> Everywhere(Do(p, a)) == Everywhere(p)
  {
    match a
    case Send => SendJobs(p);
    case Take(w) => TakeJobs(p, w);
    case Save(w, ok) => SaveJobs(p, w, ok);
    case Quit(w) => OtherJobs(p, w, Gone);
    case Report(w) => OtherJobs(p, w, Cancelling);
    case Cancel(w) => OtherJobs(p, w, Gone);
    case TakeError =>
    case SeeDone =>
    case Finish =>
    case Join =>
    case ParentCancels =>
  }

  lemma InLonger(xs: seq<Worker>, failed: seq<nat>, job: nat)
    requires AllIn(xs, failed)
    ensures AllIn(xs, failed + [job]) && job in failed + [job]
    ensures forall j | j in failed :: j in failed + [job]
  {
    assert (failed + [job])[|failed|] == job;
  }

  lemma SaveNamed(p: Pool, w: nat, ok: bool)
    requires ErrorsNamed(p) && Enabled(p, Save(w, ok))
    ensures ErrorsNamed(Do(p, Save(w, ok)))
  {
    if !ok { InLonger(p.workers, p.failed, p.workers[w].job); }
  }

  lemma StepNamed(p: Pool, a: Action)
    requires ErrorsNamed(p) && Enabled(p, a)
    ensures ErrorsNamed(Do(p, a))
  {
    if a.Save? {
      SaveNamed(p, a.w, a.ok);
    } else {
      assert Do(p, a).failed == p.failed;
    }
  }

  lemma KnownStays(p: Pool, a: Action)
    requires Enabled(p, a) && ErrorKnown(p)
    ensures ErrorKnown(Do(p, a))
  {
  }

  lemma StepKept(p: Pool, a: Action)
    requires ErrorsKept(p) && EndingOk(p) && Enabled(p, a)
    ensures ErrorsKept(Do(p, a))
  {
    var p' := Do(p, a);
    if ErrorKnown(p) {
      KnownStays(p, a);
    } else if a.Save? && !a.ok {
      assert p'.workers[a.w].Reporting?;
    } else if SomeoneReporting(p) && !ErrorKnown(p') {
      var w :| 0 <= w < |p.workers| && p.workers[w].Reporting?;
      assert p'.workers[w].Reporting?;
    }
  }

  lemma StepEnding(p: Pool, a: Action)
    requires ErrorsNamed(p) && ErrorsKept(p) && EndingOk(p) && |p.workers| >= 1 && Enabled(p, a)
    ensures EndingOk(Do(p, a))
  {
    assert ErrorKnown(p) ==> p.failed != [];
  }

  lemma NextJobs(next: nat, next': nat)
    requires next' == next + 1
    ensures FirstJobs(next') == FirstJobs(next) + multiset{next}
  {
  }

  lemma HandedOut(next: nat, next': nat, jobs: multiset<nat>, jobs': multiset<nat>)
    requires jobs == FirstJobs(next)
    requires (next' == next && jobs' == jobs) || (next' == next + 1 && jobs' == jobs + multiset{next})
    ensures jobs' == FirstJobs(next')
  {
    if next' == next + 1 { NextJobs(next, next'); }
  }

  lemma StepBounds(p: Pool, a: Action)
    requires p.next <= p.groups && |p.queue| <= p.size && |p.workers| == p.size && Enabled(p, a)
    ensures var p' := Do(p, a);
            && p'.groups == p.groups && p'.size == p.size && |p'.workers| == p.size
            && p'.next <= p.groups && |p'.queue| <= p.size && p'.next == p.next + if a.Send? then 1 else 0
  {
  }

  lemma StepJobsOk(p: Pool, a: Action)
    requires JobsOk(p) && Enabled(p, a)
    ensures JobsOk(Do(p, a)) && Do(p, a).groups == p.groups && Do(p, a).size == p.size
  {
    StepBounds(p, a);
    StepJobs(p, a);
    HandedOut(p.next, Do(p, a).next, Everywhere(p), Everywhere(Do(p, a)));
  }

  lemma StepInv(p: Pool, a: Action)
    requires Inv(p) && Enabled(p, a)
    ensures Inv(Do(p, a)) && Do(p, a).groups == p.groups && Do(p, a).size == p.size
  {
    StepJobsOk(p, a);
    StepNamed(p, a);
    StepKept(p, a);
    StepEnding(p, a);
  }

  lemma {:induction false} RunInv(groups: nat, size: nat, acts: seq<Action>)
    requires size >= 1 && IsRun(Start(groups, size), acts)
    ensures Inv(End(Start(groups, size), acts))
    ensures End(Start(groups, size), acts).groups == groups && End(Start(groups, size), acts).size == size
  {
    if acts == [] {
      StartInv(groups, size);
    } else {
      RunInv(groups, size, acts[..|acts| - 1]);
      var p, a := End(Start(groups, size), acts[..|acts| - 1]), acts[|acts| - 1];
      StepInv(p, a);
    }
  }

  /** In every reachable state each job handed out is waiting, in hand, saved or failed, in one of these and
      once; no job is saved twice, and no job still unsent is anywhere. */
  lemma EachJobOnce(groups: nat, size: nat, acts: seq<Action>, job: nat)
    requires size >= 1 && IsRun(Start(groups, size), acts)
    ensures var p := End(Start(groups, size), acts);
            multiset(p.queue)[job] + Held(p.workers)[job] + multiset(p.saved)[job] + multiset(p.failed)[job]
            == if job < p.next then 1 else 0
    ensures var p := End(Start(groups, size), acts); p.next <= groups && |p.queue| <= size && |p.workers| == size
  {
    RunInv(groups, size, acts);
    FirstJobsOnce(End(Start(groups, size), acts).next, job);
  }

  predicate InTurn(p: Pool) {
    |p.queue| <= p.next && forall k | 0 <= k < |p.queue| :: p.queue[k] == p.next - |p.queue| + k
  }

  lemma StartInTurn(groups: nat, size: nat)
    ensures InTurn(Start(groups, size))
  {
  }

  lemma StepInTurn(p: Pool, a: Action)
    requires InTurn(p)
    ensures InTurn(Do(p, a))
  {
    var p' := Do(p, a);
    if !a.Send? && !a.Take? { assert p'.queue == p.queue && p'.next == p.next; }
  }

  /** The channel keeps the order: what waits is the last few jobs handed out, the oldest in front. */
  lemma {:induction false} QueueInTurn(groups: nat, size: nat, acts: seq<Action>)
    ensures InTurn(End(Start(groups, size), acts))
  {
    hide InTurn, Do;
    if acts == [] {
      StartInTurn(groups, size);
    } else {
      QueueInTurn(groups, size, acts[..|acts| - 1]);
      StepInTurn(End(Start(groups, size), acts[..|acts| - 1]), acts[|acts| - 1]);
    }
  }

  // ---- what the return value says

  lemma ReturnedState(p: Pool)
    requires Inv(p) && p.producer.Returned?
    ensures var outcome := p.producer.outcome;
            && (outcome.SaveError? <==> p.failed != [])
            && (outcome.SaveError? ==> outcome.job in p.failed)
            && (outcome == Nil ==> multiset(p.saved) == FirstJobs(p.groups))
            && (outcome == ContextError ==> p.parentCancelled)
  {
    HeldNothing(p.workers);
    if p.producer.outcome == Nil {
      assert p.workers[0].Gone?;
      assert multiset(p.queue) == multiset{} && multiset(p.failed) == multiset{};
    }
  }

  /** In every run that returns: an error is returned exactly when some save failed, and it is the error of
      such a save; nil means that every group was saved exactly once; the context's own error is returned
      only when the caller's context was cancelled and no save failed. */
  lemma ReturnIsTruthful(groups: nat, size: nat, acts: seq<Action>)
    requires size >= 1 && IsRun(Start(groups, size), acts) && End(Start(groups, size), acts).producer.Returned?
    ensures var p := End(Start(groups, size), acts);
            var outcome := p.producer.outcome;
            && (outcome.SaveError? <==> p.failed != [])
            && (outcome.SaveError? ==> outcome.job in p.failed)
            && (outcome == Nil ==> multiset(p.saved) == FirstJobs(groups))
            && (outcome == ContextError ==> p.parentCancelled)
  {
    RunInv(groups, size, acts);
    ReturnedState(End(Start(groups, size), acts));
  }

  /** As the program calls it, with a context nobody cancels: nil exactly when no save failed. */
  lemma NilIffNothingFailed(groups: nat, acts: seq<Action>)
    requires IsRun(Start(groups, WORKERS), acts) && End(Start(groups, WORKERS), acts).producer.Returned?
    requires !End(Start(groups, WORKERS), acts).parentCancelled
    ensures var p := End(Start(groups, WORKERS), acts);
            && (p.producer.outcome == Nil <==> p.failed == [])
            && (p.producer.outcome == Nil ==>
                  forall job: nat :: multiset(p.saved)[job] == if job < groups then 1 else 0)
  {
    ReturnIsTruthful(groups, WORKERS, acts);
    forall job: nat ensures FirstJobs(groups)[job] == if job < groups then 1 else 0 { FirstJobsOnce(groups, job); }
  }

  // ---- progress

  lemma WorkerCanStep(p: Pool, w: nat)
    requires Inv(p) && w < |p.workers| && (p.queue != [] || p.closed)
    requires p.workers[w].Gone? ==> !p.closed && !p.errCh.Pending? && p.producer.Sending?
    ensures exists a :: Enabled(p, a) && a != ParentCancels
  {
    match p.workers[w]
    case Idle => assert Enabled(p, Take(w)) || Enabled(p, Quit(w));
    case Saving(_) => assert Enabled(p, Save(w, true));
    case Reporting(_) => assert Enabled(p, Report(w));
    case Cancelling => assert Enabled(p, Cancel(w));
    case Gone =>
      var v :| 0 <= v < |p.workers| && p.workers[v].Reporting?;
      assert Enabled(p, Report(v));
  }

  /** No reachable state is stuck before the return, however many workers have failed and however full
      the job channel is. */
  lemma NeverStuck(p: Pool)
    requires Inv(p) && !p.producer.Returned?
    ensures exists a :: Enabled(p, a) && a != ParentCancels
  {
    if p.producer.Sending? {
      if p.next == p.groups { assert Enabled(p, Finish); }
      else if p.errCh.Pending? { assert Enabled(p, TakeError); }
      else if |p.queue| < p.size { assert Enabled(p, Send); }
      else { WorkerCanStep(p, 0); }
    } else if AllGone(p.workers) {
      assert Enabled(p, Join);
    } else {
      var w :| 0 <= w < |p.workers| && !p.workers[w].Gone?;
      WorkerCanStep(p, w);
    }
  }

  function Weight(x: Worker): nat {
    match x case Idle => 1 case Saving(_) => 3 case Reporting(_) => 2 case Cancelling => 1 case Gone => 0
  }

  function TotalWeight(workers: seq<Worker>): nat {
    if workers == [] then 0 else TotalWeight(workers[..|workers| - 1]) + Weight(workers[|workers| - 1])
  }

  lemma {:induction false} WeightUpdate(workers: seq<Worker>, w: nat, x: Worker)
    requires w < |workers|
    ensures TotalWeight(workers[w := x]) == TotalWeight(workers) - Weight(workers[w]) + Weight(x)
  {
    var n := |workers| - 1;
    if w < n {
      WeightUpdate(workers[..n], w, x);
      assert workers[w := x][..n] == workers[..n][w := x];
    } else {
      assert workers[w := x][..n] == workers[..n];
    }
  }

  /** Work left: jobs unsent, queued and in hand, workers still there, and the producer's way home. */
  function Left(p: Pool): int {
    4 * (p.groups - p.next) + 3 * |p.queue| + TotalWeight(p.workers)
    + (match p.producer case Sending => 2 case Joining(_) => 1 case Returned(_) => 0)
    + if p.parentCancelled then 0 else 1
  }

  lemma StepUsesWork(p: Pool, a: Action)
    requires Enabled(p, a) && p.next <= p.groups
    ensures Left(Do(p, a)) < Left(p)
  {
    match a
    case Take(w) => WeightUpdate(p.workers, w, Saving(p.queue[0]));
    case Quit(w) => WeightUpdate(p.workers, w, Gone);
    case Save(w, ok) => WeightUpdate(p.workers, w, if ok then Idle else Reporting(p.workers[w].job));
    case Report(w) => WeightUpdate(p.workers, w, Cancelling);
    case Cancel(w) => WeightUpdate(p.workers, w, Gone);
    case _ =>
  }

  lemma {:induction false} IdleWeight(n: nat)
    ensures TotalWeight(seq(n, _ => Idle)) == n
  {
    if n > 0 {
      assert seq(n, _ => Idle)[..n - 1] == seq(n - 1, _ => Idle);
      IdleWeight(n - 1);
    }
  }

  lemma {:induction false} RunUsesWork(groups: nat, size: nat, acts: seq<Action>)
    requires size >= 1 && IsRun(Start(groups, size), acts)
    ensures |acts| + Left(End(Start(groups, size), acts)) <= Left(Start(groups, size))
  {
    if acts != [] {
      RunUsesWork(groups, size, acts[..|acts| - 1]);
      RunInv(groups, size, acts[..|acts| - 1]);
      StepUsesWork(End(Start(groups, size), acts[..|acts| - 1]), acts[|acts| - 1]);
    }
  }

  /** Every run is at most this long, so every run that goes on as long as it can ends by returning. */
  lemma RunsEnd(groups: nat, size: nat, acts: seq<Action>)
    requires size >= 1 && IsRun(Start(groups, size), acts)
    ensures |acts| <= 4 * groups + size + 3
    ensures (forall a :: Enabled(End(Start(groups, size), acts), a) ==> a == ParentCancels) ==>
            End(Start(groups, size), acts).producer.Returned?
  {
    RunUsesWork(groups, size, acts);
    RunInv(groups, size, acts);
    IdleWeight(size);
    if !End(Start(groups, size), acts).producer.Returned? {
      NeverStuck(End(Start(groups, size), acts));
    }
  }
}
