/** Why a job ended as it did: over any run of operations each final state has one of the causes the design gives it. */
module JobEnds {
  import opened Graphs
  import opened Options
  import opened Scheduler

  /** Operation `op` on the stored jobs brings the job to the end of an attempt with the given answer of the dispatch. */
  ghost predicate Attempts(jobs: Jobs, op: Op, id: Id, attempt: Attempt)
    requires id in jobs
  {
    match op
    case Tick(now, quiet, outcomes) => !quiet && Runnable(jobs, id, now) && outcomes(id) == attempt
    case Crash(now, quiet, outcomes, done, cut) =>
      !quiet && Runnable(jobs, id, now) && id in done && outcomes(id) == attempt
    case _ => false
  }

  /** Operation `op` comes to the job after its deadline. */
  ghost predicate Misses(jobs: Jobs, op: Op, id: Id)
    requires id in jobs
  {
    match op
    case Tick(now, _, _) => Overdue(jobs[id], now)
    case Crash(now, _, _, _, _) => Overdue(jobs[id], now)
    case CrashListing(now, seen) => id in seen && Overdue(jobs[id], now)
    case _ => false
  }

  ghost predicate Completes(jobs: Jobs, op: Op, id: Id) {
    id in jobs && Attempts(jobs, op, id, Completed)
  }

  ghost predicate Fails(jobs: Jobs, op: Op, id: Id) {
    && id in jobs
    && (|| Misses(jobs, op, id)
        || Attempts(jobs, op, id, NoDispatcher) || Attempts(jobs, op, id, RoutingFailed)
        || (Attempts(jobs, op, id, Raised) && jobs[id].attempts + 1 >= jobs[id].maxAttempts))
  }

  ghost predicate Cancels(jobs: Jobs, op: Op, id: Id) {
    id in jobs && jobs[id].status == Queued && op == Cancel(id)
  }

  /** What one operation makes of a job that has not ended. */
  lemma EndsByCause(s: State, op: Op, id: Id)
    requires id in s.jobs && !Settled(s.jobs[id])
    requires op.Crash? ==> op.done !! op.cut
    ensures id in Apply(s, op).jobs
    ensures Apply(s, op).jobs[id].status == Succeeded <==> Completes(s.jobs, op, id)
    ensures Apply(s, op).jobs[id].status == Failed <==> Fails(s.jobs, op, id)
    ensures Apply(s, op).jobs[id].status == Cancelled <==> Cancels(s.jobs, op, id)
  {
    match op
    case Tick(now, quiet, outcomes) =>
      TickExact(s, now, quiet, outcomes, id);
      hide Apply;
    case Crash(now, quiet, outcomes, done, cut) =>
      CrashExact(s, now, quiet, outcomes, done, cut, id);
      StoredStay(s, op);
      hide Apply;
    case _ =>
  }

  /** A job comes into the store unsettled. */
  lemma ArrivesQueued(s: State, op: Op, id: Id)
    requires Legal(op) && id !in s.jobs && id in Apply(s, op).jobs
    ensures Apply(s, op).jobs[id].status == Queued
    ensures !Completes(s.jobs, op, id) && !Fails(s.jobs, op, id) && !Cancels(s.jobs, op, id)
  {
    if !op.Submit? { SameGraph(s, op); }
  }

  /** The operations of a run; the jobs a crash cut off are not those it let end. */
  ghost predicate LegalRun(ops: seq<Op>) {
    forall op :: op in ops ==> Legal(op) && (op.Crash? ==> op.done !! op.cut)
  }

  ghost predicate EverCompletes(ops: seq<Op>, id: Id) {
    exists n :: 0 <= n < |ops| && Completes(Run(EMPTY, ops[..n]).jobs, ops[n], id)
  }

  ghost predicate EverFails(ops: seq<Op>, id: Id) {
    exists n :: 0 <= n < |ops| && Fails(Run(EMPTY, ops[..n]).jobs, ops[n], id)
  }

  ghost predicate EverCancels(ops: seq<Op>, id: Id) {
    exists n :: 0 <= n < |ops| && Cancels(Run(EMPTY, ops[..n]).jobs, ops[n], id)
  }

  /** Over any run: a job has succeeded exactly if some attempt of it completed after its dependencies had succeeded and
      in time; it has failed exactly if it missed its deadline or an attempt used up what it had; it is cancelled exactly
      if it was cancelled while queued. */
  lemma {:induction false} EndsIffCause(ops: seq<Op>, id: Id)
    requires LegalRun(ops)
    ensures var jobs := Run(EMPTY, ops).jobs;
      && (id in jobs && jobs[id].status == Succeeded <==> EverCompletes(ops, id))
      && (id in jobs && jobs[id].status == Failed <==> EverFails(ops, id))
      && (id in jobs && jobs[id].status == Cancelled <==> EverCancels(ops, id))
  {
    if ops != [] {
      var front, op := ops[..|ops| - 1], ops[|ops| - 1];
      assert ops == front + [op];
      assert op in ops && forall x :: x in front ==> x in ops;
      EndsIffCause(front, id);
      CompletesNext(front, op, id);
      FailsNext(front, op, id);
      CancelsNext(front, op, id);
      var s := Run(EMPTY, front);
      hide Run, Apply, EverCompletes, EverFails, EverCancels, Completes, Fails, Cancels;
      OneMore(s, op, id);
    }
  }

  lemma OneMore(s: State, op: Op, id: Id)
    requires Legal(op) && (op.Crash? ==> op.done !! op.cut)
    ensures var jobs := Apply(s, op).jobs;
      && (id in jobs && jobs[id].status == Succeeded <==>
          (id in s.jobs && s.jobs[id].status == Succeeded) || Completes(s.jobs, op, id))
      && (id in jobs && jobs[id].status == Failed <==>
          (id in s.jobs && s.jobs[id].status == Failed) || Fails(s.jobs, op, id))
      && (id in jobs && jobs[id].status == Cancelled <==>
          (id in s.jobs && s.jobs[id].status == Cancelled) || Cancels(s.jobs, op, id))
  {
    StoredStay(s, op);
    if id in s.jobs && Settled(s.jobs[id]) {
      SettledAbsorbs(s, op, id);
      hide Apply;
    } else if id in s.jobs {
      hide Completes, Fails, Cancels, Apply;
      EndsByCause(s, op, id);
    } else if id in Apply(s, op).jobs {
      hide Completes, Fails, Cancels, Apply;
      ArrivesQueued(s, op, id);
    }
  }

  lemma CompletesNext(front: seq<Op>, op: Op, id: Id)
    ensures EverCompletes(front + [op], id) <==> EverCompletes(front, id) || Completes(Run(EMPTY, front).jobs, op, id)
  {
    hide Run, Completes;
    var ops, m := front + [op], |front|;
    assert ops[..m] == front && ops[m] == op;
    assert forall n :: 0 <= n < m ==> ops[..n] == front[..n] && ops[n] == front[n];
  }

  lemma FailsNext(front: seq<Op>, op: Op, id: Id)
    ensures EverFails(front + [op], id) <==> EverFails(front, id) || Fails(Run(EMPTY, front).jobs, op, id)
  {
    hide Run, Fails;
    var ops, m := front + [op], |front|;
    assert ops[..m] == front && ops[m] == op;
    assert forall n :: 0 <= n < m ==> ops[..n] == front[..n] && ops[n] == front[n];
  }

  lemma CancelsNext(front: seq<Op>, op: Op, id: Id)
    ensures EverCancels(front + [op], id) <==> EverCancels(front, id) || Cancels(Run(EMPTY, front).jobs, op, id)
  {
    hide Run, Cancels;
    var ops, m := front + [op], |front|;
    assert ops[..m] == front && ops[m] == op;
    assert forall n :: 0 <= n < m ==> ops[..n] == front[..n] && ops[n] == front[n];
  }
}
