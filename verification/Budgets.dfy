/** When the attempts left to the queued jobs, counted plainly, go down over a tick. */
module Budgets {
  import opened Graphs
  import opened Scheduler

  // ---- sums ---------------------------------------------------------------------------------

  ghost function Sum(ids: set<Id>, f: Id -> int): int {
    if ids == {} then 0
    else
      var x :| x in ids;
      f(x) + Sum(ids - {x}, f)
  }

  /** Any element may be taken first. */
  lemma {:induction false} SumPick(ids: set<Id>, f: Id -> int, x: Id)
    requires x in ids
    ensures Sum(ids, f) == f(x) + Sum(ids - {x}, f)
    decreases |ids|
  {
    var y :| y in ids && Sum(ids, f) == f(y) + Sum(ids - {y}, f);
    if y != x {
      SumPick(ids - {y}, f, x);
      SumPick(ids - {x}, f, y);
      assert ids - {y} - {x} == ids - {x} - {y};
    }
  }

  lemma {:induction false} SumSame(ids: set<Id>, f: Id -> int, g: Id -> int)
    requires forall x :: x in ids ==> f(x) == g(x)
    ensures Sum(ids, f) == Sum(ids, g)
    decreases |ids|
  {
    if ids != {} {
      var x :| x in ids;
      SumPick(ids, f, x);
      SumPick(ids, g, x);
      SumSame(ids - {x}, f, g);
    }
  }

  lemma {:induction false} SumAtMost(ids: set<Id>, f: Id -> int, g: Id -> int)
    requires forall x :: x in ids ==> f(x) <= g(x)
    ensures Sum(ids, f) <= Sum(ids, g)
    decreases |ids|
  {
    if ids != {} {
      var x :| x in ids;
      SumPick(ids, f, x);
      SumPick(ids, g, x);
      SumAtMost(ids - {x}, f, g);
    }
  }

  lemma {:induction false} SumPlus(ids: set<Id>, f: Id -> int, g: Id -> int, h: Id -> int)
    requires forall x :: x in ids ==> h(x) == f(x) + g(x)
    ensures Sum(ids, h) == Sum(ids, f) + Sum(ids, g)
    decreases |ids|
  {
    if ids != {} {
      var x :| x in ids;
      SumPick(ids, f, x);
      SumPick(ids, g, x);
      SumPick(ids, h, x);
      SumPlus(ids - {x}, f, g, h);
    }
  }

  /** Only the elements with a contribution matter. */
  lemma {:induction false} SumWithin(ids: set<Id>, part: set<Id>, f: Id -> int)
    requires part <= ids && forall x :: x in ids && x !in part ==> f(x) == 0
    ensures Sum(ids, f) == Sum(part, f)
    decreases |ids|
  {
    if x :| x in ids && x !in part {
      SumPick(ids, f, x);
      SumWithin(ids - {x}, part, f);
    } else {
      assert ids == part;
    }
  }

  lemma {:induction false} SumOnes(ids: set<Id>)
    ensures Sum(ids, _ => 1) == |ids|
    decreases |ids|
  {
    if ids != {} {
      var x :| x in ids;
      SumPick(ids, _ => 1, x);
      SumOnes(ids - {x});
    }
  }

  // ---- one job ----------------------------------------------------------------------------------

  /** What the attempt limit leaves a queued job; below zero once a requeued job has gone beyond it. */
  function Plain(job: Job): int {
    if job.status == Queued then job.maxAttempts - job.attempts else 0
  }

  function Overdraw(job: Job): nat {
    if job.attempts > job.maxAttempts then job.attempts - job.maxAttempts else 0
  }

  predicate WithinBudget(job: Job) {
    job.attempts < job.maxAttempts
  }

  /** The least an attempt takes off. */
  function WorstChange(job: Job): int {
    if WithinBudget(job) then -1 else Overdraw(job)
  }

  /** One attempt: never better than the worst change, which a raising dispatch brings about. */
  lemma AttemptChanges(job: Job, a: Attempt)
    requires job.status == Queued
    ensures Plain(Ran(job, a)) - Plain(job) <= WorstChange(job)
    ensures Plain(Ran(job, Raised)) - Plain(job) == WorstChange(job)
  {
  }

  /** Every attempt takes something off exactly while the job is within its limit. */
  lemma JobDropsIff(job: Job)
    requires job.status == Queued
    ensures (forall a :: Plain(Ran(job, a)) < Plain(job)) <==> WithinBudget(job)
  {
    AttemptChanges(job, Raised);
    forall a ensures Plain(Ran(job, a)) - Plain(job) <= WorstChange(job) { AttemptChanges(job, a); }
    if !WithinBudget(job) { assert !(Plain(Ran(job, Raised)) < Plain(job)); }
  }

  // ---- one tick ------------------------------------------------------------------------------------

  ghost function PlainSum(jobs: Jobs): int {
    Sum(jobs.Keys, id => if id in jobs then Plain(jobs[id]) else 0)
  }

  ghost function Missed(jobs: Jobs, now: int): set<Id> {
    set id | id in jobs && MissDeadline(jobs[id], now) != jobs[id]
  }

  ghost function Inside(jobs: Jobs): set<Id> {
    set id | id in ReadySet(jobs) && WithinBudget(jobs[id])
  }

  ghost function TotalOverdraw(jobs: Jobs): int {
    Sum(ReadySet(jobs), id => if id in jobs then Overdraw(jobs[id]) else 0)
  }

  ghost function WorstTotal(jobs: Jobs): int {
    Sum(ReadySet(jobs), id => if id in jobs then WorstChange(jobs[id]) else 0)
  }

  /** The worst total is what the overdrawn ready jobs give back less one for each that is within its limit. */
  lemma WorstIs(jobs: Jobs)
    ensures WorstTotal(jobs) == TotalOverdraw(jobs) - |Inside(jobs)|
  {
    var ready, inside := ReadySet(jobs), Inside(jobs);
    var worst := (id: Id) => if id in jobs then WorstChange(jobs[id]) else 0;
    var over := (id: Id) => if id in jobs then Overdraw(jobs[id]) else 0 as int;
    var minus := (id: Id) => if id in inside then -1 else 0;
    hide ReadySet;
    SumPlus(ready, over, minus, worst);
    SumWithin(ready, inside, minus);
    SumPlus(inside, minus, _ => 1, _ => 0);
    SumOnes(inside);
    SumWithin(inside, {}, _ => 0);
    SumSame(ready, over, id => if id in jobs then Overdraw(jobs[id]) else 0);
    SumSame(ready, worst, id => if id in jobs then WorstChange(jobs[id]) else 0);
  }

  /** The change of the sum, job by job. */
  lemma SumChange(before: Jobs, after: Jobs, touched: set<Id>)
    requires before.Keys == after.Keys && touched <= before.Keys
    requires forall id :: id in before && id !in touched ==> after[id] == before[id]
    ensures PlainSum(after) ==
      PlainSum(before) + Sum(touched, id => if id in before && id in after then Plain(after[id]) - Plain(before[id]) else 0)
  {
    var f := (id: Id) => if id in before then Plain(before[id]) else 0;
    var h := (id: Id) => if id in after then Plain(after[id]) else 0;
    var g := (id: Id) => if id in before && id in after then Plain(after[id]) - Plain(before[id]) else 0;
    SumPlus(before.Keys, f, g, h);
    SumWithin(before.Keys, touched, g);
    SumSame(before.Keys, f, id => if id in before then Plain(before[id]) else 0);
    SumSame(after.Keys, h, id => if id in after then Plain(after[id]) else 0);
    SumSame(touched, g, id => if id in before && id in after then Plain(after[id]) - Plain(before[id]) else 0);
  }

  /** Failing the overdue jobs takes off what was left to them. */
  lemma MissingTakes(jobs: Jobs, now: int)
    ensures PlainSum(MissDeadlines(jobs, now)) ==
      PlainSum(jobs) - Sum(Missed(jobs, now), id => if id in jobs then Plain(jobs[id]) else 0)
  {
    var due, missed := MissDeadlines(jobs, now), Missed(jobs, now);
    var left := (id: Id) => if id in jobs then Plain(jobs[id]) else 0;
    var change := (id: Id) => if id in jobs && id in due then Plain(due[id]) - Plain(jobs[id]) else 0;
    SumChange(jobs, due, missed);
    SumSame(missed, change, id => if id in jobs && id in due then Plain(due[id]) - Plain(jobs[id]) else 0);
    SumPlus(missed, left, change, _ => 0);
    SumWithin(missed, {}, _ => 0);
    SumSame(missed, left, id => if id in jobs then Plain(jobs[id]) else 0);
  }

  /** Running the ready jobs changes the sum by at most the worst total, and by that if all dispatches raise. */
  lemma RunningChanges(jobs: Jobs, outcomes: Outcomes)
    ensures PlainSum(AfterRuns(jobs, ReadySet(jobs), {}, outcomes)) <= PlainSum(jobs) + WorstTotal(jobs)
    ensures (forall id :: outcomes(id) == Raised) ==>
      PlainSum(AfterRuns(jobs, ReadySet(jobs), {}, outcomes)) == PlainSum(jobs) + WorstTotal(jobs)
  {
    var ready := ReadySet(jobs);
    var after := AfterRuns(jobs, ready, {}, outcomes);
    forall id | id in ready
      ensures id in jobs && after[id] == Ran(jobs[id], outcomes(id))
      ensures Plain(after[id]) - Plain(jobs[id]) <= WorstChange(jobs[id])
      ensures outcomes(id) == Raised ==> Plain(after[id]) - Plain(jobs[id]) == WorstChange(jobs[id])
    {
      AttemptChanges(jobs[id], outcomes(id));
    }
    hide ReadySet, AfterRuns, Plain, WorstChange;
    var change := (id: Id) => if id in jobs && id in after then Plain(after[id]) - Plain(jobs[id]) else 0;
    var worst := (id: Id) => if id in jobs then WorstChange(jobs[id]) else 0;
    SumChange(jobs, after, ready);
    SumSame(ready, change, id => if id in jobs && id in after then Plain(after[id]) - Plain(jobs[id]) else 0);
    SumSame(ready, worst, id => if id in jobs then WorstChange(jobs[id]) else 0);
    SumAtMost(ready, change, worst);
    if forall id :: outcomes(id) == Raised { SumSame(ready, change, worst); }
  }

  /** Over a tick the plain sum drops, whatever the dispatches do, exactly when the ready jobs within their limit,
      together with what the overdue jobs still had, outweigh the total overdraw of the ready jobs. */
  lemma PlainDropsIff(s: State, now: int)
    ensures
      var due := MissDeadlines(s.jobs, now);
      (forall outcomes :: PlainSum(Apply(s, Tick(now, false, outcomes)).jobs) < PlainSum(s.jobs)) <==>
        |Inside(due)| + Sum(Missed(s.jobs, now), id => if id in s.jobs then Plain(s.jobs[id]) else 0) > TotalOverdraw(due)
  {
    var due := MissDeadlines(s.jobs, now);
    hide PlainSum, Inside, Missed, TotalOverdraw, WorstTotal, AfterRuns, ReadySet, MissDeadlines;
    MissingTakes(s.jobs, now);
    WorstIs(due);
    forall outcomes
      ensures PlainSum(Apply(s, Tick(now, false, outcomes)).jobs) <= PlainSum(due) + WorstTotal(due)
    {
      RunningChanges(due, outcomes);
    }
    var raising: Outcomes := _ => Raised;
    RunningChanges(due, raising);
    assert PlainSum(Apply(s, Tick(now, false, raising)).jobs) == PlainSum(due) + WorstTotal(due);
  }

  /** In a reachable store only a requeued job is beyond its limit. */
  lemma OverdrawnWasRequeued(s: State, id: Id)
    requires Inv(s) && id in s.jobs && s.jobs[id].status == Queued && !WithinBudget(s.jobs[id])
    ensures Requeues(s, id) > 0
  {
    assert JobInv(s, id);
  }

  lemma NoneOverdrawn(jobs: Jobs)
    requires forall id :: id in ReadySet(jobs) ==> WithinBudget(jobs[id])
    ensures TotalOverdraw(jobs) == 0 && Inside(jobs) == ReadySet(jobs)
  {
    hide ReadySet;
    var over := (id: Id) => if id in jobs then Overdraw(jobs[id]) else 0 as int;
    SumWithin(ReadySet(jobs), {}, over);
    SumSame(ReadySet(jobs), over, id => if id in jobs then Overdraw(jobs[id]) else 0);
  }

  lemma MissedHadSomething(jobs: Jobs, now: int)
    requires forall id :: id in jobs && jobs[id].status == Queued ==> WithinBudget(jobs[id])
    ensures Sum(Missed(jobs, now), id => if id in jobs then Plain(jobs[id]) else 0) >= 0
  {
    var left := (id: Id) => if id in jobs then Plain(jobs[id]) else 0;
    SumAtMost(Missed(jobs, now), _ => 0, left);
    SumWithin(Missed(jobs, now), {}, _ => 0);
    SumSame(Missed(jobs, now), left, id => if id in jobs then Plain(jobs[id]) else 0);
  }

  /** So without requeues the plain sum is a measure after all: every tick with a ready job lowers it. */
  lemma PlainDropsWithoutRequeues(s: State, now: int, outcomes: Outcomes)
    requires Inv(s) && (forall id :: id in s.jobs && s.jobs[id].status == Queued ==> Requeues(s, id) == 0)
    requires ReadySet(MissDeadlines(s.jobs, now)) != {}
    ensures PlainSum(Apply(s, Tick(now, false, outcomes)).jobs) < PlainSum(s.jobs)
  {
    hide Apply, Inside, ReadySet, PlainSum, Inv, WithinBudget, TotalOverdraw, Requeues, MissDeadlines;
    var due := MissDeadlines(s.jobs, now);
    forall id | id in s.jobs && s.jobs[id].status == Queued ensures WithinBudget(s.jobs[id]) {
      if !WithinBudget(s.jobs[id]) { OverdrawnWasRequeued(s, id); }
    }
    forall id | id in ReadySet(due) ensures WithinBudget(due[id]) { DueMeans(s.jobs, now, id); }
    NoneOverdrawn(due);
    MissedHadSomething(s.jobs, now);
    PlainDropsIff(s, now);
  }
}
