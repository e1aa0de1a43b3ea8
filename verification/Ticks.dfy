/** A tick as the store sees it: one listing, then attempt after attempt on the copies listed.  No lock is held, so
    cancellations may come in between. */
module Ticks {
  import opened Graphs
  import opened Options
  import opened Scheduler

  /** The stored jobs, and the copies still to be attempted. */
  datatype Ticking = Ticking(jobs: Jobs, listed: seq<Job>)

  datatype Beat = RunNext(attempt: Attempt) | CancelOne(id: Id)

  /** An attempt stores what it makes of its copy, whatever was stored meanwhile. */
  function Beaten(t: Ticking, b: Beat): Ticking {
    match b
    case RunNext(attempt) =>
      if t.listed == [] then t
      else Ticking(t.jobs[t.listed[0].id := Ran(t.listed[0], attempt)], t.listed[1..])
    case CancelOne(id) =>
      if id in t.jobs && t.jobs[id].status == Queued
      then t.(jobs := t.jobs[id := t.jobs[id].(status := Cancelled)])
      else t
  }

  function Beats(t: Ticking, beats: seq<Beat>): Ticking
    decreases |beats|
  {
    if beats == [] then t else Beats(Beaten(t, beats[0]), beats[1..])
  }

  function RunsIn(beats: seq<Beat>): nat {
    if beats == [] then 0 else RunsIn(beats[1..]) + if beats[0].RunNext? then 1 else 0
  }

  /** The copies are of different jobs. */
  ghost predicate Listing(listed: seq<Job>) {
    forall i, j :: 0 <= i < j < |listed| ==> listed[i].id != listed[j].id
  }

  ghost predicate Listed(listed: seq<Job>, id: Id) {
    exists j :: j in listed && j.id == id
  }

  /** A job that is neither listed nor cancelled in between stays as it is. */
  lemma {:induction false} UnlistedStays(t: Ticking, beats: seq<Beat>, id: Id)
    requires id in t.jobs && !Listed(t.listed, id) && CancelOne(id) !in beats
    ensures id in Beats(t, beats).jobs && Beats(t, beats).jobs[id] == t.jobs[id]
    decreases |beats|
  {
    if beats != [] {
      var t' := Beaten(t, beats[0]);
      assert beats[0] in beats && forall b :: b in beats[1..] ==> b in beats;
      forall j | j in t'.listed ensures j.id != id { assert j in t.listed; }
      assert t'.jobs[id] == t.jobs[id] by {
        if t.listed != [] { assert t.listed[0] in t.listed; }
      }
      UnlistedStays(t', beats[1..], id);
    }
  }

  /** A listed job ends the tick as its attempt left it, unless it is cancelled afterwards. */
  lemma {:induction false} ListedIsRun(t: Ticking, beats: seq<Beat>, k: nat)
    requires Listing(t.listed) && k < |t.listed| && t.listed[k].id in t.jobs && RunsIn(beats) > k
    requires CancelOne(t.listed[k].id) !in beats
    ensures t.listed[k].id in Beats(t, beats).jobs
    ensures exists a :: Beats(t, beats).jobs[t.listed[k].id] == Ran(t.listed[k], a)
    decreases |beats|
  {
    var job, rest := t.listed[k], beats[1..];
    var t' := Beaten(t, beats[0]);
    assert beats[0] in beats && forall b :: b in rest ==> b in beats;
    if beats[0].CancelOne? {
      ListedIsRun(t', rest, k);
    } else if k == 0 {
      assert t'.jobs[job.id] == Ran(job, beats[0].attempt);
      forall j | j in t'.listed ensures j.id != job.id {
        var i :| 0 <= i < |t'.listed| && t'.listed[i] == j;
        assert t.listed[i + 1] == j;
      }
      UnlistedStays(t', rest, job.id);
    } else {
      assert t'.listed[k - 1] == job;
      ListedIsRun(t', rest, k - 1);
    }
  }

  /** A cancellation during a tick is final exactly if the tick has not listed the job, or is done with it: the attempt
      on a listed copy stores over it. */
  lemma CancelHoldsIff(t: Ticking, beats: seq<Beat>, id: Id)
    requires Listing(t.listed) && id in t.jobs && t.jobs[id].status == Cancelled
    requires CancelOne(id) !in beats && RunsIn(beats) >= |t.listed|
    ensures id in Beats(t, beats).jobs
    ensures Beats(t, beats).jobs[id].status == Cancelled <==> !Listed(t.listed, id)
  {
    if Listed(t.listed, id) {
      var j :| j in t.listed && j.id == id;
      var k :| 0 <= k < |t.listed| && t.listed[k] == j;
      ListedIsRun(t, beats, k);
    } else {
      UnlistedStays(t, beats, id);
    }
  }

  /** A job cancelled after it was listed runs and succeeds. */
  lemma CancelLost() returns (t: Ticking, beats: seq<Beat>)
    ensures Listing(t.listed) && "j" in t.jobs && t.listed == [t.jobs["j"]] && t.jobs["j"].status == Queued
    ensures beats == [CancelOne("j"), RunNext(Completed)]
    ensures Beaten(t, beats[0]).jobs["j"].status == Cancelled
    ensures "j" in Beats(t, beats).jobs && Beats(t, beats).jobs["j"].status == Succeeded
  {
    var job := Job("j", [], 0, 0, None, "", Queued, 0, 1);
    t, beats := Ticking(map["j" := job], [job]), [CancelOne("j"), RunNext(Completed)];
    assert beats[1..] == [RunNext(Completed)] && beats[1..][1..] == [];
    var t1 := Beaten(t, beats[0]);
    assert Beats(t, beats) == Beats(t1, beats[1..]) == Beats(Beaten(t1, RunNext(Completed)), []);
  }

  // ---- undisturbed, it is one operation -----------------------------------------------------------

  function Copies(jobs: Jobs, ids: seq<Id>): seq<Job>
    requires forall id :: id in ids ==> id in jobs
  {
    if ids == [] then [] else [jobs[ids[0]]] + Copies(jobs, ids[1..])
  }

  function AttemptsOn(ids: seq<Id>, outcomes: Outcomes): seq<Beat> {
    if ids == [] then [] else [RunNext(outcomes(ids[0]))] + AttemptsOn(ids[1..], outcomes)
  }

  lemma {:induction false} AttemptsInTurn(listed: Jobs, jobs: Jobs, ids: seq<Id>, outcomes: Outcomes)
    requires NoDuplicates(ids) && jobs.Keys == listed.Keys
    requires forall id :: id in ids ==> id in listed && listed[id].id == id && jobs[id] == listed[id]
    ensures Beats(Ticking(jobs, Copies(listed, ids)), AttemptsOn(ids, outcomes)).jobs
         == AfterRuns(jobs, Members(ids), {}, outcomes)
  {
    if ids == [] {
      assert Members(ids) == {};
      NothingRan(jobs, outcomes);
    } else {
      var id, rest := ids[0], ids[1..];
      var t := Ticking(jobs, Copies(listed, ids));
      var beat := RunNext(outcomes(id));
      var jobs' := jobs[id := Ran(listed[id], outcomes(id))];
      assert id in ids && forall x :: x in rest ==> x in ids;
      assert id !in rest;
      assert Copies(listed, ids)[1..] == Copies(listed, rest);
      assert AttemptsOn(ids, outcomes)[1..] == AttemptsOn(rest, outcomes);
      assert Beaten(t, beat) == Ticking(jobs', Copies(listed, rest));
      AttemptsInTurn(listed, jobs', rest, outcomes);
      assert Members(ids) == Members(rest) + {id};
      assert AfterRuns(jobs', Members(rest), {}, outcomes) == AfterRuns(jobs, Members(ids), {}, outcomes);
    }
  }

  /** A tick nobody interferes with, in whatever order it lists the ready jobs, is the tick operation. */
  lemma UndisturbedIsTick(s: State, now: int, outcomes: Outcomes, ids: seq<Id>)
    requires Inv(s) && NoDuplicates(ids) && Members(ids) == ReadySet(MissDeadlines(s.jobs, now))
    ensures
      var due := MissDeadlines(s.jobs, now);
      && (forall id :: id in ids ==> id in due)
      && Beats(Ticking(due, Copies(due, ids)), AttemptsOn(ids, outcomes)).jobs
         == Apply(s, Tick(now, false, outcomes)).jobs
  {
    var due := MissDeadlines(s.jobs, now);
    forall id | id in ids ensures id in due && due[id].id == id {
      assert id in Members(ids);
      assert JobInv(s, id);
    }
    hide Inv, ReadySet, MissDeadlines;
    AttemptsInTurn(due, due, ids, outcomes);
  }
}
