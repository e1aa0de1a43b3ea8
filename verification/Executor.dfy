/** The parallel executor's scheduling loop.

    Worker threads are the environment: each wait returns any set of running steps, possibly none
    for any finite number of polls in a row, and the cancellation token may turn on at any reading. */
module Executors {
  import opened Graphs
  import opened Options
  import opened Validator
  import opened StepStates
  import opened TaskGraphs

  datatype FailurePolicy = FailFast | ContinueIndependent

  datatype OverallStatus = AllCompleted | SomeFailed | RunCancelled

  const ALL_STATES: set<StepState> := {Pending, Ready, Running, Succeeded, Failed, TimedOut, Cancelled, Skipped}

  datatype ExecutionResult = ExecutionResult(
    status: OverallStatus,
    states: Marking,
    succeeded: seq<Id>,
    failed: seq<Id>,
    cancelled: seq<Id>,
    timedOut: seq<Id>,
    skipped: seq<Id>)

  // ---- effects of the phases on the state map ---------------------------------------------

  ghost function Moved(m: Marking, ids: set<Id>, to: StepState): (m': Marking)
    ensures m'.Keys == m.Keys
  {
    map x | x in m :: if x in ids then to else m[x]
  }

  ghost function AfterCollect(m: Marking, done: set<Id>, outcome: Outcome): (m': Marking)
    ensures m'.Keys == m.Keys
  {
    map x | x in m :: if x in done then Collected(outcome(x)) else m[x]
  }

  /** What restore makes of a snapshot taken at `m`. */
  ghost function AfterCrash(m: Marking): (m': Marking)
    ensures m'.Keys == m.Keys
  {
    map x | x in m :: if m[x] == Running then Pending else m[x]
  }

  ghost predicate NoneIn(m: Marking, s: StepState) {
    InState(m, s) == {}
  }

  /** States a run may start from: those a plan or a restore produces. */
  ghost predicate AtRest(m: Marking) {
    NoneIn(m, Ready) && NoneIn(m, Running)
  }

  /** Twice the pending steps plus the running ones. */
  ghost function Work(m: Marking): nat {
    2 * |InState(m, Pending)| + |InState(m, Running)|
  }

  /** The log continues legally from `m0` to `m`. */
  ghost predicate Logged(g: Graph, limit: int, m0: Marking, log: seq<Event>, m: Marking) {
    LegalLog(g, limit, m0, log) && Replay(m0, log) == m
  }

  /** Everything added to the log enters one of the states `to`. */
  ghost predicate Added(log: seq<Event>, log': seq<Event>, to: set<StepState>) {
    log <= log' && forall k :: |log| <= k < |log'| ==> log'[k].to in to
  }

  // ---- facts about the phases -----------------------------------------------------------------

  lemma StartKeeps(g: Graph, outcome: Outcome, m: Marking, ids: set<Id>)
    requires Covers(g, m) && Consistent(g, outcome, m)
    requires forall id :: id in ids ==> id in g && m[id] == Pending && DepsSucceeded(g, m, id)
    ensures Consistent(g, outcome, Moved(m, ids, Running))
  {
    var m' := Moved(m, ids, Running);
    forall id | id in g && m'[id] != m[id] ensures ConsistentAt(g, outcome, m', id) {
      forall d | Edge(g, id, d) ensures m'[d] == Succeeded { assert m[d] == Succeeded; }
    }
    ConsistentStep(g, outcome, m, m');
  }

  lemma CollectKeeps(g: Graph, outcome: Outcome, m: Marking, done: set<Id>)
    requires Covers(g, m) && Consistent(g, outcome, m)
    requires forall id :: id in done ==> id in g && m[id] == Running
    ensures Consistent(g, outcome, AfterCollect(m, done, outcome))
  {
    var m' := AfterCollect(m, done, outcome);
    forall id | id in g && m'[id] != m[id] ensures ConsistentAt(g, outcome, m', id) {
      assert ConsistentAt(g, outcome, m, id);
      forall d | Edge(g, id, d) ensures m'[d] == Succeeded { assert m[d] == Succeeded; }
    }
    ConsistentStep(g, outcome, m, m');
  }

  lemma StopKeeps(g: Graph, outcome: Outcome, m: Marking)
    requires Covers(g, m) && Consistent(g, outcome, m)
    ensures Consistent(g, outcome, Moved(m, InState(m, Pending), Cancelled))
  {
    ConsistentStep(g, outcome, m, Moved(m, InState(m, Pending), Cancelled));
  }

  /** With nothing running, the drain is harmless exactly when no pending step could still run. */
  lemma DrainKeeps(g: Graph, outcome: Outcome, m: Marking)
    requires Covers(g, m) && Consistent(g, outcome, m) && AtRest(m)
    ensures Consistent(g, outcome, Moved(m, InState(m, Pending), Skipped))
       <==> forall id :: id in g && m[id] == Pending ==> !DepsSucceeded(g, m, id)
  {
    var m' := Moved(m, InState(m, Pending), Skipped);
    if forall id :: id in g && m[id] == Pending ==> !DepsSucceeded(g, m, id) {
      forall id | id in g && m'[id] != m[id] ensures ConsistentAt(g, outcome, m', id) {
        var d :| Edge(g, id, d) && m[d] != Succeeded;
        assert d !in InState(m, Ready) && d !in InState(m, Running);
        assert Bad(m'[d]);
      }
      ConsistentStep(g, outcome, m, m');
    } else {
      var id :| id in g && m[id] == Pending && DepsSucceeded(g, m, id);
      assert !SomeDepBad(g, m', id);
      assert !ConsistentAt(g, outcome, m', id);
    }
  }

  lemma CrashKeeps(g: Graph, outcome: Outcome, m: Marking)
    requires Covers(g, m) && Consistent(g, outcome, m)
    ensures Consistent(g, outcome, AfterCrash(m))
  {
    var m' := AfterCrash(m);
    forall id | id in g && m'[id] != m[id] ensures ConsistentAt(g, outcome, m', id) {}
    ConsistentStep(g, outcome, m, m');
  }

  /** The ready list holds exactly the pending steps whose dependencies all succeeded. */
  lemma ReadyMeans(steps: seq<Step>, m: Marking, id: Id)
    requires UniqueIds(steps) && Covers(GraphOf(steps), m)
    ensures id in ReadyIds(steps, m) <==>
      id in GraphOf(steps) && m[id] == Pending && DepsSucceeded(GraphOf(steps), m, id)
  {
    ReadyIdsExact(steps, m);
    if id in GraphOf(steps) {
      var i := IndexOf(Ids(steps), id);
      GraphOfStep(steps, i);
      QueriesMean(GraphOf(steps), steps[i], m);
    }
  }

  lemma SomeMember(ids: seq<Id>)
    ensures ids != [] ==> Members(ids) != {}
  {
    if ids != [] { assert ids[0] in Members(ids); }
  }

  lemma StartNext(steps: seq<Step>, m: Marking, ids: seq<Id>, k: nat, m1: Marking)
    requires UniqueIds(steps) && Covers(GraphOf(steps), m)
    requires ids == ReadyIds(steps, m) && k < |ids| && m1 == Moved(m, Members(ids[..k]), Running)
    ensures ids[k] in GraphOf(steps) && m1[ids[k]] == Pending
    ensures Covers(GraphOf(steps), m1) && DepsSucceeded(GraphOf(steps), m1, ids[k])
    ensures Moved(m, Members(ids[..k + 1]), Running) == m1[ids[k] := Running]
    ensures InState(m1[ids[k] := Running], Running) == InState(m1, Running) + {ids[k]}
  {
    hide UniqueIds, ReadyIds, GraphOf;
    var id := ids[k];
    ReadyIdsExact(steps, m);
    ReadyMeans(steps, m, id);
    assert id !in ids[..k];
    assert ids[..k + 1] == ids[..k] + [id];
    assert Members(ids[..k + 1]) == Members(ids[..k]) + {id};
    forall x | x in ids[..k] ensures x in ids {}
    forall d | Edge(GraphOf(steps), id, d) ensures m1[d] == Succeeded { NotAmongReady(steps, m, d); }
  }

  lemma NotAmongReady(steps: seq<Step>, m: Marking, d: Id)
    requires UniqueIds(steps) && Covers(GraphOf(steps), m) && d in m && m[d] == Succeeded
    ensures d !in ReadyIds(steps, m)
  {
    hide UniqueIds, ReadyIds;
    ReadyMeans(steps, m, d);
  }

  lemma WorkDrops(m: Marking, m': Marking)
    requires m.Keys == m'.Keys
    requires InState(m', Pending) <= InState(m, Pending)
    requires InState(m', Running) <= InState(m, Running) + (InState(m, Pending) - InState(m', Pending))
    ensures Work(m') <= Work(m)
    ensures InState(m', Pending) < InState(m, Pending) ==> Work(m') < Work(m)
    ensures InState(m', Running) < InState(m, Running) ==> Work(m') < Work(m)
  {
    var p, p', r, r' := InState(m, Pending), InState(m', Pending), InState(m, Running), InState(m', Running);
    SubsetSize(p', p);
    SubsetSize(r', r + (p - p'));
    assert |p - p'| == |p| - |p'|;
    assert |r + (p - p')| <= |r| + |p - p'|;
    if r' < r { SubsetSize(r', r); }
  }

  // ---- the loop invariant, phase by phase ---------------------------------------------------

  ghost predicate NoFailureLogged(log: seq<Event>) {
    forall k :: 0 <= k < |log| ==> !IsFailure(log[k].to)
  }

  ghost predicate HasFailure(m: Marking) {
    exists id :: id in m && IsFailure(m[id])
  }

  lemma ExtendsSelf(m: Marking)
    ensures Extends(m, m)
  {
  }

  lemma FailureStays(m: Marking, m': Marking)
    requires HasFailure(m) && Extends(m, m')
    ensures HasFailure(m')
  {
    var id :| id in m && IsFailure(m[id]);
    assert Terminal(m[id]) && m'[id] == m[id];
  }

  /** What holds of the state map and the log at every point of a run that started at `m0`. */
  ghost predicate RunInv(g: Graph, outcome: Outcome, policy: FailurePolicy, limit: int,
                         m0: Marking, m: Marking, log: seq<Event>, cancelled: bool, halting: bool)
  {
    && Covers(g, m0) && Covers(g, m) && Extends(m0, m)
    && Logged(g, limit, m0, log, m)
    && Answered(outcome, m0, m)
    && NoneIn(m, Ready)
    && (halting ==> policy.FailFast? && HasFailure(m))
    && (policy.FailFast? ==> NoStartAfterFailure(log) && (halting || NoFailureLogged(log)))
    && (!cancelled && Consistent(g, outcome, m0) ==> Consistent(g, outcome, m))
    && (!cancelled && !halting && NoneIn(m0, Cancelled) ==> NoneIn(m, Cancelled))
  }

  lemma AddedQuietly(log: seq<Event>, log': seq<Event>, to: set<StepState>)
    requires Added(log, log', to) && Running !in to
    ensures NoStartAfterFailure(log) ==> NoStartAfterFailure(log')
    ensures NoFailureLogged(log) && Failed !in to && TimedOut !in to ==> NoFailureLogged(log')
  {
    forall k | 0 <= k < |log| ensures log'[k] == log[k] {}
  }

  lemma AddedStarts(log: seq<Event>, log': seq<Event>)
    requires Added(log, log', {Running}) && NoFailureLogged(log)
    ensures NoFailureLogged(log') && NoStartAfterFailure(log')
  {
    forall k | 0 <= k < |log'| ensures !IsFailure(log'[k].to) {
      if k < |log| { assert log'[k] == log[k]; }
    }
  }

  lemma CancelKeepsInv(g: Graph, outcome: Outcome, policy: FailurePolicy, limit: int,
                       m0: Marking, m: Marking, log: seq<Event>, before: bool, after: bool, halting: bool)
    requires RunInv(g, outcome, policy, limit, m0, m, log, before, halting) && (before ==> after)
    ensures RunInv(g, outcome, policy, limit, m0, m, log, after, halting)
  {
  }

  /** Moving pending steps on: the shape of the map, apart from what the steps mean. */
  lemma MovedShape(g: Graph, m0: Marking, m: Marking, ids: set<Id>, to: StepState)
    requires Covers(g, m) && Extends(m0, m) && ids <= InState(m, Pending) && to !in {Pending, Ready}
    ensures Covers(g, Moved(m, ids, to)) && Extends(m0, Moved(m, ids, to))
    ensures NoneIn(m, Ready) ==> NoneIn(Moved(m, ids, to), Ready)
    ensures NoneIn(m, Cancelled) && to != Cancelled ==> NoneIn(Moved(m, ids, to), Cancelled)
    ensures InState(Moved(m, ids, to), Pending) == InState(m, Pending) - ids
    ensures InState(Moved(m, ids, to), Running) == InState(m, Running) + if to == Running then ids else {}
  {
    var m' := Moved(m, ids, to);
    assert InState(m', Pending) == InState(m, Pending) - ids;
    assert InState(m', Running) == InState(m, Running) + if to == Running then ids else {};
  }

  lemma MovedWork(g: Graph, m: Marking, ids: set<Id>, to: StepState)
    requires Covers(g, m) && ids <= InState(m, Pending) && to !in {Pending, Ready}
    ensures Work(Moved(m, ids, to)) <= Work(m) && (ids != {} ==> Work(Moved(m, ids, to)) < Work(m))
  {
    MovedShape(g, m, m, ids, to);
    hide Covers, Moved;
    WorkDrops(m, Moved(m, ids, to));
  }

  lemma CollectShape(g: Graph, m0: Marking, m: Marking, done: set<Id>, outcome: Outcome)
    requires Covers(g, m) && Extends(m0, m) && done <= InState(m, Running)
    ensures Covers(g, AfterCollect(m, done, outcome)) && Extends(m0, AfterCollect(m, done, outcome))
    ensures NoneIn(m, Ready) ==> NoneIn(AfterCollect(m, done, outcome), Ready)
    ensures NoneIn(m, Cancelled) ==> NoneIn(AfterCollect(m, done, outcome), Cancelled)
    ensures InState(AfterCollect(m, done, outcome), Running) == InState(m, Running) - done
    ensures InState(AfterCollect(m, done, outcome), Pending) == InState(m, Pending)
  {
    var m' := AfterCollect(m, done, outcome);
    assert InState(m', Pending) == InState(m, Pending);
    assert InState(m', Running) == InState(m, Running) - done;
  }

  lemma CollectWork(g: Graph, m: Marking, done: set<Id>, outcome: Outcome)
    requires Covers(g, m) && done <= InState(m, Running)
    ensures Work(AfterCollect(m, done, outcome)) <= Work(m)
    ensures done != {} ==> Work(AfterCollect(m, done, outcome)) < Work(m)
  {
    CollectShape(g, m, m, done, outcome);
    hide Covers, AfterCollect;
    WorkDrops(m, AfterCollect(m, done, outcome));
  }

  lemma LegalMove(g: Graph, limit: int, m: Marking, e: Event)
    requires LegalEvent(g, limit, m, e)
    ensures e.id in m && if e.to == Running then m[e.id] == Pending else e.to in Allowed(m[e.id])
  {
  }

  lemma LoggedMore(g: Graph, limit: int, m0: Marking, log: seq<Event>, m: Marking, e: Event)
    requires Logged(g, limit, m0, log, m) && LegalEvent(g, limit, m, e)
    ensures Logged(g, limit, m0, log + [e], m[e.id := e.to])
  {
    hide LegalLog, LegalEvent, Replay;
    LogGrows(g, limit, m0, log, e);
  }

  lemma CollectNext(g: Graph, limit: int, m: Marking, done: set<Id>, todo: set<Id>, id: Id, outcome: Outcome)
    requires Covers(g, m) && id in todo && todo <= done && done <= InState(m, Running)
    ensures id in m && LegalEvent(g, limit, AfterCollect(m, done - todo, outcome), Event(id, Collected(outcome(id))))
    ensures AfterCollect(m, done - (todo - {id}), outcome)
         == AfterCollect(m, done - todo, outcome)[id := Collected(outcome(id))]
  {
    assert id in InState(m, Running);
  }

  lemma MovedAnswered(outcome: Outcome, m0: Marking, m: Marking, ids: set<Id>, to: StepState)
    requires Answered(outcome, m0, m) && to !in {Succeeded, Failed, TimedOut}
    ensures Answered(outcome, m0, Moved(m, ids, to))
  {
    AnswersStay(outcome, m0, m, Moved(m, ids, to));
  }

  lemma CollectAnswered(outcome: Outcome, m0: Marking, m: Marking, done: set<Id>)
    requires Answered(outcome, m0, m)
    ensures Answered(outcome, m0, AfterCollect(m, done, outcome))
  {
  }

  lemma CollectNothing(m: Marking, outcome: Outcome)
    ensures AfterCollect(m, {}, outcome) == m
  {
  }

  lemma MoveNothing(m: Marking, to: StepState)
    ensures Moved(m, {}, to) == m
  {
  }

  lemma MoveNext(g: Graph, limit: int, m: Marking, passed: set<Id>, id: Id, to: StepState)
    requires Covers(g, m) && id in m && NoneIn(m, Ready) && to in {Cancelled, Skipped}
    ensures
      var m1 := Moved(m, InState(m, Pending) * passed, to);
      && m1[id] != Ready
      && (m1[id] == Pending ==> LegalEvent(g, limit, m1, Event(id, to)))
      && Moved(m, InState(m, Pending) * (passed + {id}), to) == if m1[id] == Pending then m1[id := to] else m1
  {
    assert id !in InState(m, Ready);
  }

  lemma StopKeepsInv(g: Graph, outcome: Outcome, policy: FailurePolicy, limit: int,
                     m0: Marking, m: Marking, log: seq<Event>, log': seq<Event>, cancelled: bool, halting: bool)
    requires RunInv(g, outcome, policy, limit, m0, m, log, cancelled, halting) && (cancelled || halting)
    requires Added(log, log', {Cancelled}) && Logged(g, limit, m0, log', Moved(m, InState(m, Pending), Cancelled))
    ensures RunInv(g, outcome, policy, limit, m0, Moved(m, InState(m, Pending), Cancelled), log', cancelled, halting)
  {
    hide LegalLog, Replay, Consistent, NoStartAfterFailure, NoFailureLogged, Added, Covers, Extends, Moved, Answered;
    AddedQuietly(log, log', {Cancelled});
    MovedShape(g, m0, m, InState(m, Pending), Cancelled);
    MovedAnswered(outcome, m0, m, InState(m, Pending), Cancelled);
    ExtendsSelf(m);
    MovedShape(g, m, m, InState(m, Pending), Cancelled);
    if HasFailure(m) { FailureStays(m, Moved(m, InState(m, Pending), Cancelled)); }
    if Consistent(g, outcome, m) { StopKeeps(g, outcome, m); }
  }

  lemma SubmitKeepsInv(steps: seq<Step>, outcome: Outcome, policy: FailurePolicy, limit: int,
                       m0: Marking, m: Marking, log: seq<Event>, log': seq<Event>, ids: seq<Id>)
    requires UniqueIds(steps)
    requires RunInv(GraphOf(steps), outcome, policy, limit, m0, m, log, false, false)
    requires ids <= ReadyIds(steps, m)
    requires Added(log, log', {Running}) && Logged(GraphOf(steps), limit, m0, log', Moved(m, Members(ids), Running))
    ensures RunInv(GraphOf(steps), outcome, policy, limit, m0, Moved(m, Members(ids), Running), log', false, false)
    ensures Members(ids) <= InState(m, Pending)
  {
    hide LegalLog, Replay, ConsistentAt, UniqueIds, ReadyIds, NoStartAfterFailure, NoFailureLogged, Added,
         Extends, Moved, GraphOf, DepsSucceeded, Answered;
    if policy.FailFast? { AddedStarts(log, log'); }
    var g := GraphOf(steps);
    forall id | id in Members(ids) ensures id in g && id in m && m[id] == Pending && DepsSucceeded(g, m, id) {
      ReadyMeans(steps, m, id);
    }
    MovedAnswered(outcome, m0, m, Members(ids), Running);
    MovedShape(g, m0, m, Members(ids), Running);
    if Consistent(g, outcome, m) { StartKeeps(g, outcome, m, Members(ids)); }
  }

  lemma DrainKeepsInv(g: Graph, outcome: Outcome, policy: FailurePolicy, limit: int,
                      m0: Marking, m: Marking, log: seq<Event>, log': seq<Event>, cancelled: bool, halting: bool)
    requires RunInv(g, outcome, policy, limit, m0, m, log, cancelled, halting) && NoneIn(m, Running)
    requires !cancelled ==> forall id :: id in g && m[id] == Pending ==> !DepsSucceeded(g, m, id)
    requires Added(log, log', {Skipped}) && Logged(g, limit, m0, log', Moved(m, InState(m, Pending), Skipped))
    ensures RunInv(g, outcome, policy, limit, m0, Moved(m, InState(m, Pending), Skipped), log', cancelled, halting)
  {
    hide LegalLog, Replay, Consistent, NoStartAfterFailure, NoFailureLogged, Added, Extends, Moved, DepsSucceeded, Answered;
    AddedQuietly(log, log', {Skipped});
    MovedShape(g, m0, m, InState(m, Pending), Skipped);
    MovedAnswered(outcome, m0, m, InState(m, Pending), Skipped);
    ExtendsSelf(m);
    MovedShape(g, m, m, InState(m, Pending), Skipped);
    if HasFailure(m) { FailureStays(m, Moved(m, InState(m, Pending), Skipped)); }
    if !cancelled && Consistent(g, outcome, m) { DrainKeeps(g, outcome, m); }
  }

  lemma CollectKeepsInv(g: Graph, outcome: Outcome, policy: FailurePolicy, limit: int,
                        m0: Marking, m: Marking, log: seq<Event>, log': seq<Event>, done: set<Id>,
                        cancelled: bool, halting: bool)
    requires RunInv(g, outcome, policy, limit, m0, m, log, cancelled, halting)
    requires done <= InState(m, Running)
    requires Added(log, log', {Succeeded, Failed, TimedOut}) && Logged(g, limit, m0, log', AfterCollect(m, done, outcome))
    ensures var m' := AfterCollect(m, done, outcome);
            && Covers(g, m') && Extends(m0, m') && NoneIn(m', Ready) && Answered(outcome, m0, m')
            && (policy.FailFast? ==> NoStartAfterFailure(log'))
            && (!cancelled && Consistent(g, outcome, m0) ==> Consistent(g, outcome, m'))
            && (!cancelled && !halting && NoneIn(m0, Cancelled) ==> NoneIn(m', Cancelled))
  {
    hide LegalLog, Replay, Consistent, NoStartAfterFailure, NoFailureLogged, Added, Covers, Extends, AfterCollect, Answered;
    AddedQuietly(log, log', {Succeeded, Failed, TimedOut});
    CollectAnswered(outcome, m0, m, done);
    CollectShape(g, m0, m, done, outcome);
    if !cancelled && Consistent(g, outcome, m) { CollectKeeps(g, outcome, m, done); }
  }

  lemma SkipKeepsInv(g: Graph, steps: seq<Step>, outcome: Outcome, m: Marking)
    requires Covers(g, m) && Describes(g, steps) && NoneIn(m, Ready)
    ensures var m' := SkipPass(steps, m);
            && Covers(g, m') && Extends(m, m') && NoneIn(m', Ready)
            && (Consistent(g, outcome, m) ==> Consistent(g, outcome, m'))
            && (NoneIn(m, Cancelled) ==> NoneIn(m', Cancelled))
            && InState(m', Running) == InState(m, Running)
            && Work(m') <= Work(m)
            && forall m0 :: Answered(outcome, m0, m) ==> Answered(outcome, m0, m')
  {
    hide SkipPass, ConsistentAt;
    var m' := SkipPass(steps, m);
    SkipPassKeeps(g, steps, outcome, m);
    forall id | id in m' && m'[id] in {Ready, Cancelled, Running, Pending} ensures m[id] == m'[id] {}
    forall id | id in m && m[id] == Running ensures m'[id] == Running {}
    assert InState(m', Running) == InState(m, Running);
    WorkDrops(m, m');
    forall m0 | Answered(outcome, m0, m) ensures Answered(outcome, m0, m') { AnswersStay(outcome, m0, m, m'); }
  }

  /** The pass is logged step by step. */
  lemma {:induction false} SkipLog(g: Graph, steps: seq<Step>, limit: int, m0: Marking, m: Marking, log0: seq<Event>)
    returns (log: seq<Event>)
    requires Covers(g, m) && Describes(g, steps) && Logged(g, limit, m0, log0, m)
    ensures Logged(g, limit, m0, log, SkipPass(steps, m)) && Added(log0, log, {Skipped})
  {
    if steps == [] {
      log := log0;
    } else {
      var front, last := steps[..|steps| - 1], steps[|steps| - 1];
      log := SkipLog(g, front, limit, m0, m, log0);
      var m1 := SkipPass(front, m);
      SkipPassKeeps(g, front, _ => Attempt(true, false), m);
      if SkipStep(last, m1) != m1 {
        LogGrows(g, limit, m0, log, Event(last.id, Skipped));
        log := log + [Event(last.id, Skipped)];
      }
    }
  }

  /** While the state map shows no failure, none has been logged. */
  lemma FailureShows(g: Graph, limit: int, m0: Marking, m: Marking, log: seq<Event>)
    requires Logged(g, limit, m0, log, m)
    requires !HasFailure(m)
    ensures NoFailureLogged(log)
  {
    forall k | 0 <= k < |log| ensures !IsFailure(log[k].to) {
      if IsFailure(log[k].to) {
        EventLegal(g, limit, m0, log, k);
        TerminalAbsorbs(g, limit, m0, log, k + 1, log[k].id);
      }
    }
  }

  lemma RunStarts(g: Graph, outcome: Outcome, policy: FailurePolicy, limit: int, m: Marking, cancelled: bool)
    requires Covers(g, m) && AtRest(m)
    ensures RunInv(g, outcome, policy, limit, m, m, [], cancelled, false)
  {
  }

  /** The final states of a run from `m0`.  Undisturbed ones are consistent, settled unless a failure halted the run,
      and without a cancelled step unless one did. */
  ghost predicate EndsWell(g: Graph, outcome: Outcome, policy: FailurePolicy, m0: Marking, m: Marking, cancelled: bool) {
    && Covers(g, m) && AllTerminal(m) && Extends(m0, m)
    && (!cancelled && Covers(g, m0) && Consistent(g, outcome, m0) ==>
        && Consistent(g, outcome, m)
        && ((policy.ContinueIndependent? || !HasFailure(m)) && NoneIn(m0, Cancelled) ==> Settled(g, outcome, m)))
    && (!cancelled && NoneIn(m0, Cancelled) && !NoneIn(m, Cancelled) ==> policy.FailFast? && HasFailure(m))
  }

  /** What a crashed run from `m0` leaves to restore: a state map to run again from, with nothing undone. */
  ghost predicate Restartable(g: Graph, outcome: Outcome, policy: FailurePolicy, m0: Marking, m: Marking, cancelled: bool) {
    && Covers(g, m) && AtRest(m) && Extends(m0, m)
    && (!cancelled && Covers(g, m0) && Consistent(g, outcome, m0) ==>
        && Consistent(g, outcome, m)
        && (policy.ContinueIndependent? && NoneIn(m0, Cancelled) ==> NoneIn(m, Cancelled)))
  }

  lemma CrashLeaves(g: Graph, outcome: Outcome, policy: FailurePolicy, limit: int,
                    m0: Marking, m: Marking, log: seq<Event>, cancelled: bool, halting: bool)
    requires RunInv(g, outcome, policy, limit, m0, m, log, cancelled, halting)
    ensures Restartable(g, outcome, policy, m0, AfterCrash(m), cancelled)
  {
    hide LegalLog, Replay, Consistent, NoStartAfterFailure, NoFailureLogged;
    if Consistent(g, outcome, m) { CrashKeeps(g, outcome, m); }
    forall id | id in AfterCrash(m) ensures AfterCrash(m)[id] != Ready && AfterCrash(m)[id] != Running {
      assert id !in InState(m, Ready);
    }
    forall id | id in AfterCrash(m) && AfterCrash(m)[id] == Cancelled ensures id in InState(m, Cancelled) {}
    assert InState(AfterCrash(m), Ready) == {} && InState(AfterCrash(m), Running) == {};
    assert InState(AfterCrash(m), Cancelled) <= InState(m, Cancelled);
  }

  lemma RunEnds(g: Graph, outcome: Outcome, policy: FailurePolicy, limit: int,
                m0: Marking, m: Marking, log: seq<Event>, cancelled: bool, halting: bool)
    requires RunInv(g, outcome, policy, limit, m0, m, log, cancelled, halting) && AllTerminal(m)
    ensures EndsWell(g, outcome, policy, m0, m, cancelled)
  {
    hide LegalLog, Replay, Consistent, AllTerminal, NoStartAfterFailure, NoFailureLogged, HasFailure;
    if !cancelled && Consistent(g, outcome, m0) && NoneIn(m, Cancelled) {
      forall id | id in m ensures m[id] != Cancelled { assert id !in InState(m, Cancelled); }
      ConsistentEndsSettled(g, outcome, m);
    }
  }

  lemma RestMeans(m: Marking)
    requires AtRest(m)
    ensures InState(m, Running) == {}
  {
  }

  lemma InvGives(g: Graph, outcome: Outcome, policy: FailurePolicy, limit: int,
                 m0: Marking, m: Marking, log: seq<Event>, cancelled: bool, halting: bool)
    requires RunInv(g, outcome, policy, limit, m0, m, log, cancelled, halting)
    ensures LegalLog(g, limit, m0, log) && Replay(m0, log) == m
    ensures Answered(outcome, m0, m)
    ensures policy.FailFast? ==> NoStartAfterFailure(log)
  {
  }

  /** Whatever the policy: an undisturbed run completes exactly when every step on its own would succeed. */
  lemma CompletedIff(g: Graph, outcome: Outcome, policy: FailurePolicy, m0: Marking, m: Marking)
    requires Acyclic(g) && EndsWell(g, outcome, policy, m0, m, false)
    requires Covers(g, m0) && Consistent(g, outcome, m0) && NoneIn(m0, Cancelled)
    ensures StatusOf(m, false) == AllCompleted <==> forall id :: id in g ==> outcome(id).ok
  {
    hide Consistent, Settled, Acyclic, Covers, AllTerminal, HasFailure;
    if forall id :: id in g ==> outcome(id).ok {
      OkMeansNoFailure(g, outcome, m);
      CompletesIffAllOk(g, outcome, m);
      SameIds(g, m);
    } else if !HasFailure(m) {
      CompletesIffAllOk(g, outcome, m);
      SameIds(g, m);
    } else {
      FailureNotCompleted(m);
    }
  }

  lemma SameIds(g: Graph, m: Marking)
    requires Covers(g, m)
    ensures forall id :: id in g <==> id in m
  {
  }

  lemma FailureNotCompleted(m: Marking)
    requires HasFailure(m)
    ensures StatusOf(m, false) != AllCompleted
  {
  }

  lemma OkMeansNoFailure(g: Graph, outcome: Outcome, m: Marking)
    requires Covers(g, m) && Consistent(g, outcome, m) && forall id :: id in g ==> outcome(id).ok
    ensures !HasFailure(m)
  {
    forall id | id in m ensures !IsFailure(m[id]) { assert ConsistentAt(g, outcome, m, id); }
  }

  // ---- results --------------------------------------------------------------------------------

  function IdsIn(steps: seq<Step>, m: Marking, s: StepState): seq<Id> {
    if steps == [] then []
    else
      var front, last := steps[..|steps| - 1], steps[|steps| - 1];
      IdsIn(front, m, s) + if last.id in m && m[last.id] == s then [last.id] else []
  }

  lemma EveryState(s: StepState)
    ensures s in ALL_STATES
  {
  }

  lemma IdsInNone(m: Marking, s: StepState)
    ensures IdsIn([], m, s) == []
  {
  }

  lemma IdsInNext(steps: seq<Step>, i: nat, m: Marking, s: StepState)
    requires i < |steps|
    ensures IdsIn(steps[..i + 1], m, s)
         == IdsIn(steps[..i], m, s) + if steps[i].id in m && m[steps[i].id] == s then [steps[i].id] else []
  {
    assert steps[..i + 1][..i] == steps[..i];
  }

  ghost function StatusOf(m: Marking, cancelled: bool): OverallStatus {
    if cancelled then RunCancelled
    else if forall id :: id in m ==> m[id] == Succeeded then AllCompleted
    else SomeFailed
  }

  ghost predicate IsResult(r: ExecutionResult, steps: seq<Step>, m: Marking, cancelled: bool) {
    && r.status == StatusOf(m, cancelled)
    && r.states == m
    && r.succeeded == IdsIn(steps, m, Succeeded)
    && r.failed == IdsIn(steps, m, Failed)
    && r.cancelled == IdsIn(steps, m, Cancelled)
    && r.timedOut == IdsIn(steps, m, TimedOut)
    && r.skipped == IdsIn(steps, m, Skipped)
  }

  lemma {:induction false} IdsInMeans(steps: seq<Step>, m: Marking, s: StepState, id: Id)
    ensures id in IdsIn(steps, m, s) <==> id in Ids(steps) && id in m && m[id] == s
  {
    if steps != [] {
      var front, last := steps[..|steps| - 1], steps[|steps| - 1];
      IdsInMeans(front, m, s, id);
      assert Ids(steps) == Ids(front) + [last.id];
    }
  }

  lemma {:induction false} ListInOrder(steps: seq<Step>, m: Marking, s: StepState)
    ensures InPlanOrder(steps, IdsIn(steps, m, s)) && forall id :: id in IdsIn(steps, m, s) ==> id in Ids(steps)
  {
    if steps != [] {
      var front, last := steps[..|steps| - 1], steps[|steps| - 1];
      ListInOrder(front, m, s);
      OrderGrows(steps, IdsIn(front, m, s));
      assert Ids(steps) == Ids(front) + [last.id];
      hide InPlanOrder;
    }
  }

  /** Whatever stopped the run: a step in one of the first three lists was in that state before, or answered so. */
  lemma ListsAnswered(steps: seq<Step>, outcome: Outcome, m0: Marking, m: Marking, cancelled: bool, r: ExecutionResult, id: Id)
    requires IsResult(r, steps, m, cancelled) && Answered(outcome, m0, m)
    requires id in m0 && m0[id] !in {Succeeded, Failed, TimedOut}
    ensures id in r.succeeded ==> outcome(id).ok
    ensures id in r.timedOut ==> !outcome(id).ok && outcome(id).deadlineReached
    ensures id in r.failed ==> !outcome(id).ok && !outcome(id).deadlineReached
  {
    IdsInMeans(steps, m, Succeeded, id);
    IdsInMeans(steps, m, Failed, id);
    IdsInMeans(steps, m, TimedOut, id);
  }

  /** The lists of a run that settled hold exactly the steps whose transitive dependencies and own answer say so. */
  lemma ListsExact(steps: seq<Step>, outcome: Outcome, m: Marking, r: ExecutionResult, id: Id)
    requires UniqueIds(steps) && Known(steps) && Acyclic(GraphOf(steps)) && Covers(GraphOf(steps), m)
    requires Settled(GraphOf(steps), outcome, m) && IsResult(r, steps, m, false) && id in Ids(steps)
    ensures var g := GraphOf(steps);
      && (id in r.succeeded <==> AllBehindSucceeded(g, m, id) && outcome(id).ok)
      && (id in r.timedOut <==> AllBehindSucceeded(g, m, id) && !outcome(id).ok && outcome(id).deadlineReached)
      && (id in r.failed <==> AllBehindSucceeded(g, m, id) && !outcome(id).ok && !outcome(id).deadlineReached)
      && (id in r.skipped <==> exists b :: Reaches(g, id, b) && (b in r.failed || b in r.timedOut))
      && r.cancelled == []
  {
    var g := GraphOf(steps);
    IdsOfGraph(steps);
    hide GraphOf, Acyclic, Covers, Settled, UniqueIds, Known, IdsIn, Ids, Reaches, AllBehindSucceeded;
    assert id in m by { SameIds(g, m); }
    ExactOutcome(g, outcome, m, id);
    forall x, s ensures x in IdsIn(steps, m, s) <==> x in Ids(steps) && x in m && m[x] == s { IdsInMeans(steps, m, s, x); }
    SameIds(g, m);
    forall x ensures x !in r.cancelled {
      if x in r.cancelled { ExactOutcome(g, outcome, m, x); }
    }
    NoMembers(r.cancelled);
  }

  lemma IdsOfGraph(steps: seq<Step>)
    ensures forall id :: id in GraphOf(steps) <==> id in Ids(steps)
  {
  }

  /** Once every step has ended, the five result lists hold every step id exactly once. */
  lemma {:induction false} BucketsPartition(steps: seq<Step>, m: Marking)
    requires forall s :: s in steps ==> s.id in m && Terminal(m[s.id])
    ensures multiset(IdsIn(steps, m, Succeeded)) + multiset(IdsIn(steps, m, Failed))
          + multiset(IdsIn(steps, m, Cancelled)) + multiset(IdsIn(steps, m, TimedOut))
          + multiset(IdsIn(steps, m, Skipped)) == multiset(Ids(steps))
  {
    if steps != [] {
      var front, last := steps[..|steps| - 1], steps[|steps| - 1];
      assert Ids(steps) == Ids(front) + [last.id];
      assert last in steps;
      BucketsPartition(front, m);
    }
  }

  class CancellationToken {
    var cancelled: bool

    constructor ()
      ensures !cancelled
    {
      cancelled := false;
    }

    /** Once set the flag stays; until then anyone may set it before the next reading. */
    method Read() returns (c: bool)
      modifies this
      ensures c == cancelled && (old(cancelled) ==> cancelled)
    {
      var flip: bool := *;
      if flip { cancelled := true; }
      c := cancelled;
    }
  }

  class ParallelExecutor {
    const maxConcurrency: int
    const policy: FailurePolicy

    constructor (maxConcurrency: int, policy: FailurePolicy)
      requires maxConcurrency >= 1
      ensures this.maxConcurrency == maxConcurrency && this.policy == policy
    {
      this.maxConcurrency := maxConcurrency;
      this.policy := policy;
    }

    /** A concurrency limit below one is refused, and so is a step timeout that is not positive. */
    static method Create(maxConcurrency: int, defaultTimeout: real, policy: FailurePolicy)
      returns (executor: Option<ParallelExecutor>)
      ensures executor.Some? <==> maxConcurrency >= 1 && defaultTimeout > 0.0
      ensures executor.Some? ==> executor.value.maxConcurrency == maxConcurrency && executor.value.policy == policy
    {
      if maxConcurrency < 1 { return None; }
      if defaultTimeout <= 0.0 { return None; }
      var e := new ParallelExecutor(maxConcurrency, policy);
      return Some(e);
    }

    /** The transitions of one node: a start passes through ready and counts an attempt. */
    method Move(graph: TaskGraph, node: GraphNode, to: StepState)
      requires graph.Valid() && node in graph.nodes
      requires if to == Running then node.state == Pending else to in Allowed(node.state)
      modifies {node}`state, {node}`attempts
      ensures node.step.id in old(graph.Marking())
      ensures graph.Marking() == old(graph.Marking())[node.step.id := to]
      ensures node.attempts == old(node.attempts) + if to == Running then 1 else 0
    {
      if to == Running {
        var ready := node.Transition(Ready);
        node.attempts := node.attempts + 1;
      }
      var ok := node.Transition(to);
      graph.NodeMoved(node.step.id);
    }

    /** One legal move, logged. */
    method Log(graph: TaskGraph, node: GraphNode, to: StepState, ghost m0: Marking, ghost log0: seq<Event>)
      returns (ghost log: seq<Event>)
      requires graph.Valid() && node in graph.nodes
      requires Logged(GraphOf(graph.steps), maxConcurrency, m0, log0, graph.Marking())
      requires LegalEvent(GraphOf(graph.steps), maxConcurrency, graph.Marking(), Event(node.step.id, to))
      modifies {node}`state, {node}`attempts
      ensures node.step.id in old(graph.Marking())
      ensures graph.Marking() == old(graph.Marking())[node.step.id := to]
      ensures log == log0 + [Event(node.step.id, to)]
      ensures Logged(GraphOf(graph.steps), maxConcurrency, m0, log, graph.Marking())
    {
      graph.StateOf(node);
      ghost var g, m, e := GraphOf(graph.steps), graph.Marking(), Event(node.step.id, to);
      LegalMove(g, maxConcurrency, m, e);
      LoggedMore(g, maxConcurrency, m0, log0, m, e);
      hide TaskGraph.Valid, TaskGraph.Marking, LegalEvent, Logged, GraphOf, Allowed;
      Move(graph, node, to);
      log := log0 + [e];
    }

    /** How many of `ready` steps fit beside `running` ones. */
    function Fit(ready: nat, running: nat): (n: nat)
      ensures n <= ready
    {
      if running >= maxConcurrency then 0
      else if ready <= maxConcurrency - running then ready
      else maxConcurrency - running
    }

    lemma NextStart(graph: TaskGraph, m: Marking, ids: seq<Id>, k: nat)
      requires graph.Valid() && Covers(GraphOf(graph.steps), m)
      requires ids == ReadyIds(graph.steps, m) && k < |ids|
      requires graph.Marking() == Moved(m, Members(ids[..k]), Running)
      requires |InState(graph.Marking(), Running)| < maxConcurrency
      requires forall id :: id in ids ==> id in graph.byId
      ensures graph.byId[ids[k]].step.id == ids[k] && graph.byId[ids[k]] in graph.nodes
      ensures LegalEvent(GraphOf(graph.steps), maxConcurrency, graph.Marking(), Event(ids[k], Running))
      ensures
        var m' := graph.Marking()[ids[k] := Running];
        && m' == Moved(m, Members(ids[..k + 1]), Running)
        && InState(m', Running) == InState(graph.Marking(), Running) + {ids[k]}
        && |InState(m', Running)| == |InState(graph.Marking(), Running)| + 1
    {
      hide ReadyIds, UniqueIds, Known, Acyclic;
      StartNext(graph.steps, m, ids, k, graph.Marking());
    }

    /** Starts the next of the ready steps `ids`. */
    method StartOne(graph: TaskGraph, node: GraphNode, ghost m: Marking, ghost ids: seq<Id>, ghost k: nat,
                    inFlight0: set<Id>, ghost m0: Marking, ghost log0: seq<Event>)
      returns (inFlight: set<Id>, ghost log: seq<Event>)
      requires graph.Valid() && Covers(GraphOf(graph.steps), m)
      requires ids == ReadyIds(graph.steps, m) && k < |ids| && forall id :: id in ids ==> id in graph.byId
      requires node == graph.byId[ids[k]] && graph.Marking() == Moved(m, Members(ids[..k]), Running)
      requires inFlight0 == InState(graph.Marking(), Running) && |inFlight0| < maxConcurrency
      requires Logged(GraphOf(graph.steps), maxConcurrency, m0, log0, graph.Marking())
      modifies graph.nodes
      ensures graph.Marking() == Moved(m, Members(ids[..k + 1]), Running)
      ensures inFlight == InState(graph.Marking(), Running) && |inFlight| == |inFlight0| + 1
      ensures Logged(GraphOf(graph.steps), maxConcurrency, m0, log, graph.Marking())
      ensures log == log0 + [Event(ids[k], Running)]
    {
      hide TaskGraph.Valid, LegalLog, LegalEvent, Replay, ReadyIds, Covers, Logged, Moved, InState;
      NextStart(graph, m, ids, k);
      log := Log(graph, node, Running, m0, log0);
      inFlight := inFlight0 + {node.step.id};
    }

    /** Starts the first ready steps in plan order, as many as the limit leaves room for. */
    method SubmitReady(graph: TaskGraph, inFlight0: set<Id>, ghost m0: Marking, ghost log0: seq<Event>)
      returns (inFlight: set<Id>, ghost log: seq<Event>)
      requires graph.Valid() && inFlight0 == InState(graph.Marking(), Running)
      requires Logged(GraphOf(graph.steps), maxConcurrency, m0, log0, graph.Marking())
      modifies graph.nodes
      ensures inFlight == InState(graph.Marking(), Running)
      ensures Logged(GraphOf(graph.steps), maxConcurrency, m0, log, graph.Marking())
      ensures Added(log0, log, {Running})
      ensures
        var ids := ReadyIds(graph.steps, old(graph.Marking()));
        graph.Marking() == Moved(old(graph.Marking()), Members(ids[..Fit(|ids|, |inFlight0|)]), Running)
      // as many as the limit leaves room for
      ensures
        var ids, k := ReadyIds(graph.steps, old(graph.Marking())), |inFlight| - |inFlight0|;
        && 0 <= k <= |ids| && graph.Marking() == Moved(old(graph.Marking()), Members(ids[..k]), Running)
        && (k == |ids| || |inFlight| >= maxConcurrency) && (k > 0 ==> |inFlight| <= maxConcurrency)
    {
      hide TaskGraph.Valid, LegalLog, LegalEvent, Replay, ReadyIds, Covers, Logged, Moved, InState;
      var ready := graph.Ready();
      ghost var m := graph.Marking();
      ghost var ids := ReadyIds(graph.steps, m);
      inFlight, log := inFlight0, log0;
      assert Members(ids[..0]) == {};
      MoveNothing(m, Running);
      var k := 0;
      while k < |ready| && |inFlight| < maxConcurrency
        invariant 0 <= k <= |ready|
        invariant graph.Marking() == Moved(m, Members(ids[..k]), Running)
        invariant inFlight == InState(graph.Marking(), Running)
        invariant |inFlight| == |inFlight0| + k && (k == 0 || |inFlight| <= maxConcurrency)
        invariant Logged(GraphOf(graph.steps), maxConcurrency, m0, log, graph.Marking())
        invariant Added(log0, log, {Running})
      {
        inFlight, log := StartOne(graph, ready[k], m, ids, k, inFlight, m0, log);
        k := k + 1;
      }
    }

    /** The environment's part: some running steps finish, or none for now; `patience` bounds idle polls. */
    method Wait(inFlight: set<Id>, patience: nat) returns (done: set<Id>, left: nat)
      ensures done <= inFlight
      ensures done == {} && inFlight != {} ==> left < patience
    {
      var idle: bool := *;
      if inFlight == {} || (idle && patience > 0) {
        return {}, if patience > 0 then patience - 1 else 0;
      }
      var first :| first in inFlight;
      done := {first};
      var rest := inFlight - {first};
      while rest != {}
        invariant first in done && done <= inFlight && rest <= inFlight
        decreases |rest|
      {
        var x :| x in rest;
        rest := rest - {x};
        var finished: bool := *;
        if finished { done := done + {x}; }
      }
      left := *;
    }

    /** Collects one finished step. */
    method CollectOne(graph: TaskGraph, outcome: Outcome, ghost m: Marking, ghost done: set<Id>, ghost todo: set<Id>, id: Id,
                      ghost m0: Marking, ghost log0: seq<Event>)
      returns (ghost log: seq<Event>)
      requires graph.Valid() && Covers(GraphOf(graph.steps), m)
      requires id in todo && todo <= done && done <= InState(m, Running)
      requires graph.Marking() == AfterCollect(m, done - todo, outcome)
      requires Logged(GraphOf(graph.steps), maxConcurrency, m0, log0, graph.Marking())
      modifies graph.nodes
      ensures graph.Marking() == AfterCollect(m, done - (todo - {id}), outcome)
      ensures Logged(GraphOf(graph.steps), maxConcurrency, m0, log, graph.Marking())
      ensures log == log0 + [Event(id, Collected(outcome(id)))]
    {
      hide TaskGraph.Valid, LegalLog, Replay, LegalEvent, AfterCollect, Covers, Logged, InState;
      CollectNext(GraphOf(graph.steps), maxConcurrency, m, done, todo, id, outcome);
      var node := graph.Get(id);
      var a := outcome(id);
      if a.deadlineReached && !a.ok {
        log := Log(graph, node, TimedOut, m0, log0);
      } else if a.ok {
        log := Log(graph, node, Succeeded, m0, log0);
      } else {
        log := Log(graph, node, Failed, m0, log0);
      }
    }

    method CollectCompleted(graph: TaskGraph, outcome: Outcome, done: set<Id>, inFlight0: set<Id>,
                            ghost m0: Marking, ghost log0: seq<Event>)
      returns (inFlight: set<Id>, ghost log: seq<Event>)
      requires graph.Valid() && inFlight0 == InState(graph.Marking(), Running) && done <= inFlight0
      requires Logged(GraphOf(graph.steps), maxConcurrency, m0, log0, graph.Marking())
      modifies graph.nodes
      ensures graph.Marking() == AfterCollect(old(graph.Marking()), done, outcome)
      ensures inFlight == inFlight0 - done
      ensures Logged(GraphOf(graph.steps), maxConcurrency, m0, log, graph.Marking())
      ensures Added(log0, log, {Succeeded, Failed, TimedOut})
    {
      hide TaskGraph.Valid, LegalLog, Replay, LegalEvent, AfterCollect, Covers, Logged, InState;
      ghost var m := graph.Marking();
      inFlight, log := inFlight0, log0;
      assert done - done == {};
      assert m == AfterCollect(m, {}, outcome) by { CollectNothing(m, outcome); }
      var todo := done;
      while todo != {}
        invariant todo <= done
        invariant inFlight == inFlight0 - (done - todo)
        invariant graph.Marking() == AfterCollect(m, done - todo, outcome)
        invariant Logged(GraphOf(graph.steps), maxConcurrency, m0, log, graph.Marking())
        invariant Added(log0, log, {Succeeded, Failed, TimedOut})
        decreases |todo|
      {
        var id :| id in todo;
        log := CollectOne(graph, outcome, m, done, todo, id, m0, log);
        inFlight := inFlight - {id};
        todo := todo - {id};
      }
      assert done - {} == done;
    }

    /** Moves every step that has not started to `to`, in plan order. */
    method MoveUnstarted(graph: TaskGraph, to: StepState, ghost m0: Marking, ghost log0: seq<Event>)
      returns (ghost log: seq<Event>)
      requires graph.Valid() && NoneIn(graph.Marking(), Ready) && to in {Cancelled, Skipped}
      requires Logged(GraphOf(graph.steps), maxConcurrency, m0, log0, graph.Marking())
      modifies graph.nodes
      ensures graph.Marking() == Moved(old(graph.Marking()), InState(old(graph.Marking()), Pending), to)
      ensures Logged(GraphOf(graph.steps), maxConcurrency, m0, log, graph.Marking())
      ensures Added(log0, log, {to})
    {
      hide TaskGraph.Valid, LegalLog, Replay, LegalEvent, Moved;
      ghost var m := graph.Marking();
      assert InState(m, Pending) * {} == {};
      MoveNothing(m, to);
      ghost var passed: set<Id> := {};
      log := log0;
      for i := 0 to |graph.nodes|
        invariant graph.Marking() == Moved(m, InState(m, Pending) * passed, to)
        invariant forall k :: 0 <= k < i ==> graph.nodes[k].step.id in passed
        invariant Logged(GraphOf(graph.steps), maxConcurrency, m0, log, graph.Marking())
        invariant Added(log0, log, {to})
      {
        var node := graph.nodes[i];
        graph.StateOf(node);
        ghost var id := node.step.id;
        MoveNext(GraphOf(graph.steps), maxConcurrency, m, passed, id, to);
        if node.state == Pending || node.state == Ready {
          log := Log(graph, node, to, m0, log);
        }
        passed := passed + {id};
      }
      graph.NodesCover(passed);
      assert InState(m, Pending) * passed == InState(m, Pending);
    }

    method StopUnstarted(graph: TaskGraph, ghost m0: Marking, ghost log0: seq<Event>) returns (ghost log: seq<Event>)
      requires graph.Valid() && NoneIn(graph.Marking(), Ready)
      requires Logged(GraphOf(graph.steps), maxConcurrency, m0, log0, graph.Marking())
      modifies graph.nodes
      ensures graph.Marking() == Moved(old(graph.Marking()), InState(old(graph.Marking()), Pending), Cancelled)
      ensures Logged(GraphOf(graph.steps), maxConcurrency, m0, log, graph.Marking())
      ensures Added(log0, log, {Cancelled})
    {
      log := MoveUnstarted(graph, Cancelled, m0, log0);
    }

    /** Skips what is left when nothing runs; reports whether there was anything. */
    method DrainStuck(graph: TaskGraph, ghost m0: Marking, ghost log0: seq<Event>)
      returns (drained: bool, ghost log: seq<Event>)
      requires graph.Valid() && NoneIn(graph.Marking(), Ready)
      requires Logged(GraphOf(graph.steps), maxConcurrency, m0, log0, graph.Marking())
      modifies graph.nodes
      ensures drained <==> !NoneIn(old(graph.Marking()), Pending)
      ensures graph.Marking() == Moved(old(graph.Marking()), InState(old(graph.Marking()), Pending), Skipped)
      ensures Logged(GraphOf(graph.steps), maxConcurrency, m0, log, graph.Marking())
      ensures Added(log0, log, {Skipped})
    {
      hide LegalLog, Replay, TaskGraph.Valid, Moved;
      drained := exists n | n in graph.nodes :: n.state == Pending || n.state == Ready;
      graph.StuckMeans();
      log := log0;
      if drained {
        log := MoveUnstarted(graph, Skipped, m0, log0);
      } else {
        MoveNothing(graph.Marking(), Skipped);
      }
    }

    method SkipUnsatisfiable(graph: TaskGraph, ghost m0: Marking, ghost log0: seq<Event>) returns (ghost log: seq<Event>)
      requires graph.Valid()
      requires Logged(GraphOf(graph.steps), maxConcurrency, m0, log0, graph.Marking())
      modifies graph.nodes
      ensures graph.Marking() == SkipPass(graph.steps, old(graph.Marking()))
      ensures Logged(GraphOf(graph.steps), maxConcurrency, m0, log, graph.Marking())
      ensures Added(log0, log, {Skipped})
    {
      graph.StepsDescribed();
      log := SkipLog(GraphOf(graph.steps), graph.steps, maxConcurrency, m0, graph.Marking(), log0);
      var skipped := graph.MarkUnsatisfiable();
    }

    // ---- one iteration -----------------------------------------------------------------------

    /** Nothing pending could run. */
    static ghost predicate NothingReady(g: Graph, m: Marking) {
      Covers(g, m) && forall id :: id in g && m[id] == Pending ==> !DepsSucceeded(g, m, id)
    }

    /** The state map after submitting what the limit leaves room for. */
    ghost function AfterSubmit(steps: seq<Step>, m: Marking): Marking {
      var ids := ReadyIds(steps, m);
      Moved(m, Members(ids[..Fit(|ids|, |InState(m, Running)|)]), Running)
    }

    ghost function AfterStop(m: Marking): Marking {
      Moved(m, InState(m, Pending), Cancelled)
    }

    ghost function AfterDrain(m: Marking): Marking {
      Moved(m, InState(m, Pending), Skipped)
    }

    /** What the start of an iteration does, given its two readings of the token. */
    ghost function AfterStart(steps: seq<Step>, m: Marking, halting: bool, first: bool, second: bool): Marking {
      var stopped := if first || halting then AfterStop(m) else m;
      if second || halting then stopped else AfterSubmit(steps, stopped)
    }

    ghost predicate DrainMayHarm(steps: seq<Step>, m: Marking, halting: bool, first: bool, second: bool) {
      !first && second && !halting && ReadyIds(steps, m) != []
    }

    lemma StopLeavesNoneReady(steps: seq<Step>, m: Marking)
      requires UniqueIds(steps) && Covers(GraphOf(steps), m)
      ensures Covers(GraphOf(steps), AfterStop(m)) && ReadyIds(steps, AfterStop(m)) == []
    {
      hide UniqueIds, ReadyIds;
      forall id ensures id !in ReadyIds(steps, AfterStop(m)) { ReadyMeans(steps, AfterStop(m), id); }
      NoMembers(ReadyIds(steps, AfterStop(m)));
    }

    lemma SubmitLeavesNoneReady(steps: seq<Step>, m: Marking)
      requires maxConcurrency >= 1 && UniqueIds(steps) && Covers(GraphOf(steps), m)
      requires InState(AfterSubmit(steps, m), Running) == {}
      ensures AfterSubmit(steps, m) == m && ReadyIds(steps, m) == []
    {
      hide UniqueIds, ReadyIds;
      var ids := ReadyIds(steps, m);
      var taken := ids[..Fit(|ids|, |InState(m, Running)|)];
      assert InState(m, Running) + Members(taken) == {} by {
        forall id | id in InState(m, Running) + Members(taken) ensures id in InState(AfterSubmit(steps, m), Running) {
          if id in taken { ReadyMeans(steps, m, id); }
        }
      }
      NothingStarted(steps, m, ids, taken);
      forall id ensures id !in ids { ReadyMeans(steps, m, id); }
      NoMembers(ids);
    }

    /** When nothing runs after the start of an iteration, a ready step is left for the drain exactly if the token
        was off at the first reading, on at the second, nothing had halted, and a step was ready before. */
    lemma DrainMeetsReadyIff(steps: seq<Step>, m: Marking, halting: bool, first: bool, second: bool)
      requires maxConcurrency >= 1 && UniqueIds(steps) && Covers(GraphOf(steps), m) && (first ==> second)
      requires InState(AfterStart(steps, m, halting, first, second), Running) == {}
      ensures ReadyIds(steps, AfterStart(steps, m, halting, first, second)) != [] <==>
        DrainMayHarm(steps, m, halting, first, second)
    {
      hide UniqueIds, ReadyIds, AfterStop, AfterSubmit, InState, GraphOf, Covers;
      if first || halting {
        StopLeavesNoneReady(steps, m);
      } else if !second {
        SubmitLeavesNoneReady(steps, m);
      }
    }

    /** So the drain spoils a consistent run exactly then. */
    lemma DrainHarmsIff(steps: seq<Step>, outcome: Outcome, m: Marking, halting: bool, first: bool, second: bool)
      requires maxConcurrency >= 1 && UniqueIds(steps) && Covers(GraphOf(steps), m) && (first ==> second)
      requires Consistent(GraphOf(steps), outcome, m) && NoneIn(m, Ready)
      requires InState(AfterStart(steps, m, halting, first, second), Running) == {}
      ensures var started := AfterStart(steps, m, halting, first, second);
        && Covers(GraphOf(steps), AfterDrain(started))
        && (!Consistent(GraphOf(steps), outcome, AfterDrain(started)) <==> DrainMayHarm(steps, m, halting, first, second))
    {
      var started := AfterStart(steps, m, halting, first, second);
      StartConsistent(steps, outcome, m, halting, first, second);
      DrainMeetsReadyIff(steps, m, halting, first, second);
      DrainHarmsReady(steps, outcome, started);
    }

    lemma DrainHarmsReady(steps: seq<Step>, outcome: Outcome, m: Marking)
      requires UniqueIds(steps) && Covers(GraphOf(steps), m) && Consistent(GraphOf(steps), outcome, m) && AtRest(m)
      ensures Covers(GraphOf(steps), AfterDrain(m))
      ensures !Consistent(GraphOf(steps), outcome, AfterDrain(m)) <==> ReadyIds(steps, m) != []
    {
      var g, ids := GraphOf(steps), ReadyIds(steps, m);
      DrainKeeps(g, outcome, m);
      hide Consistent, ReadyIds, GraphOf, UniqueIds, DepsSucceeded;
      if ids != [] {
        assert ids[0] in ids;
        ReadyMeans(steps, m, ids[0]);
      } else {
        forall id | id in g && m[id] == Pending ensures !DepsSucceeded(g, m, id) { ReadyMeans(steps, m, id); }
      }
    }

    lemma StartConsistent(steps: seq<Step>, outcome: Outcome, m: Marking, halting: bool, first: bool, second: bool)
      requires UniqueIds(steps) && Covers(GraphOf(steps), m) && (first ==> second)
      requires Consistent(GraphOf(steps), outcome, m) && NoneIn(m, Ready)
      ensures var started := AfterStart(steps, m, halting, first, second);
        && Covers(GraphOf(steps), started) && Consistent(GraphOf(steps), outcome, started) && NoneIn(started, Ready)
    {
      hide UniqueIds, ReadyIds, ConsistentAt, GraphOf, Moved;
      var g, ids := GraphOf(steps), ReadyIds(steps, m);
      if first || halting {
        StopKeeps(g, outcome, m);
        MovedShape(g, m, m, InState(m, Pending), Cancelled);
      } else if !second {
        var taken := ids[..Fit(|ids|, |InState(m, Running)|)];
        forall id | id in Members(taken) ensures id in g && m[id] == Pending && DepsSucceeded(g, m, id) {
          ReadyMeans(steps, m, id);
        }
        StartKeeps(g, outcome, m, Members(taken));
        MovedShape(g, m, m, Members(taken), Running);
      }
    }

    /** The loop gets there: a cancellation between the two readings makes the drain skip a step that could run. */
    lemma CancelBetweenReadings() returns (steps: seq<Step>, m: Marking)
      ensures UniqueIds(steps) && Known(steps) && Acyclic(GraphOf(steps)) && Covers(GraphOf(steps), m)
      ensures ReadyIds(steps, m) == ["a"] && m == map["a" := Pending]
      ensures AfterDrain(AfterStart(steps, m, false, false, true)) == map["a" := Skipped]
    {
      var a := Step("a", []);
      steps, m := [a], map["a" := Pending];
      assert steps[..0] == [] && GraphOf([]) == map[];
      assert GraphOf(steps) == map["a" := []];
      RankMeansAcyclic(GraphOf(steps), map["a" := 0]);
      assert IsReady(a, m) && ReadyIds([], m) == [];
    }

    method StopPart(graph: TaskGraph, ghost outcome: Outcome, ghost cancelled: bool, ghost halting: bool,
                    ghost m0: Marking, ghost log0: seq<Event>)
      returns (ghost log: seq<Event>)
      requires graph.Valid() && (cancelled || halting)
      requires RunInv(GraphOf(graph.steps), outcome, policy, maxConcurrency, m0, graph.Marking(), log0, cancelled, halting)
      modifies graph.nodes
      ensures graph.Marking() == AfterStop(old(graph.Marking()))
      ensures RunInv(GraphOf(graph.steps), outcome, policy, maxConcurrency, m0, graph.Marking(), log, cancelled, halting)
      ensures InState(graph.Marking(), Running) == InState(old(graph.Marking()), Running)
      ensures NothingReady(GraphOf(graph.steps), graph.Marking())
      ensures Work(graph.Marking()) <= Work(old(graph.Marking()))
    {
      hide TaskGraph.Valid, Logged, Consistent, NoStartAfterFailure, NoFailureLogged, Added, Moved, Work, DepsSucceeded, Answered;
      ghost var g, m := GraphOf(graph.steps), graph.Marking();
      log := StopUnstarted(graph, m0, log0);
      StopKeepsInv(g, outcome, policy, maxConcurrency, m0, m, log0, log, cancelled, halting);
      MovedShape(g, m0, m, InState(m, Pending), Cancelled);
      MovedWork(g, m, InState(m, Pending), Cancelled);
      assert forall id :: id in g && graph.Marking()[id] == Pending ==> id in InState(graph.Marking(), Pending);
    }

    method SubmitPart(graph: TaskGraph, ghost outcome: Outcome, inFlight0: set<Id>,
                      ghost m0: Marking, ghost log0: seq<Event>)
      returns (inFlight: set<Id>, ghost log: seq<Event>)
      requires maxConcurrency >= 1 && graph.Valid() && inFlight0 == InState(graph.Marking(), Running)
      requires RunInv(GraphOf(graph.steps), outcome, policy, maxConcurrency, m0, graph.Marking(), log0, false, false)
      modifies graph.nodes
      ensures graph.Marking() == AfterSubmit(graph.steps, old(graph.Marking()))
      ensures RunInv(GraphOf(graph.steps), outcome, policy, maxConcurrency, m0, graph.Marking(), log, false, false)
      ensures inFlight == InState(graph.Marking(), Running)
      ensures inFlight == {} ==> NothingReady(GraphOf(graph.steps), graph.Marking())
      ensures Work(graph.Marking()) <= Work(old(graph.Marking()))
    {
      hide TaskGraph.Valid, Logged, Consistent, NoStartAfterFailure, NoFailureLogged, Added, Moved, ReadyIds, Work,
           NothingReady, DepsSucceeded, UniqueIds, Known, Answered;
      ghost var g, m := GraphOf(graph.steps), graph.Marking();
      ghost var ids := ReadyIds(graph.steps, m);
      ghost var taken := ids[..Fit(|ids|, |inFlight0|)];
      inFlight, log := SubmitReady(graph, inFlight0, m0, log0);
      graph.Facts();
      SubmitKeepsInv(graph.steps, outcome, policy, maxConcurrency, m0, m, log0, log, taken);
      MovedShape(g, m0, m, Members(taken), Running);
      MovedWork(g, m, Members(taken), Running);
      if inFlight == {} { NothingStarted(graph.steps, m, ids, taken); }
    }

    /** Stop or submit.  The token is read twice, so a cancellation may fall between the two decisions. */
    method StartPhase(graph: TaskGraph, ghost outcome: Outcome, token: CancellationToken, halting: bool,
                      inFlight0: set<Id>, ghost m0: Marking, ghost log0: seq<Event>)
      returns (inFlight: set<Id>, ghost log: seq<Event>, ghost stop: bool, ghost hold: bool)
      requires maxConcurrency >= 1 && graph.Valid() && inFlight0 == InState(graph.Marking(), Running)
      requires RunInv(GraphOf(graph.steps), outcome, policy, maxConcurrency, m0, graph.Marking(), log0,
                      token.cancelled, halting)
      modifies graph.nodes, token
      ensures (old(token.cancelled) ==> stop) && (stop ==> hold) && hold == token.cancelled
      ensures graph.Marking() == AfterStart(graph.steps, old(graph.Marking()), halting, stop, hold)
      ensures inFlight == InState(graph.Marking(), Running)
      ensures RunInv(GraphOf(graph.steps), outcome, policy, maxConcurrency, m0, graph.Marking(), log,
                     token.cancelled, halting)
      ensures inFlight == {} && !token.cancelled ==> NothingReady(GraphOf(graph.steps), graph.Marking())
      ensures Work(graph.Marking()) <= Work(old(graph.Marking()))
    {
      hide TaskGraph.Valid, RunInv, Work, NothingReady, InState, AfterStop, AfterSubmit;
      ghost var g := GraphOf(graph.steps);
      inFlight, log := inFlight0, log0;
      ghost var flag := token.cancelled;
      var first := token.Read();
      stop := first;
      CancelKeepsInv(g, outcome, policy, maxConcurrency, m0, graph.Marking(), log, flag, token.cancelled, halting);
      if first || halting {
        log := StopPart(graph, outcome, token.cancelled, halting, m0, log);
      }
      flag := token.cancelled;
      var second := token.Read();
      hold := second;
      CancelKeepsInv(g, outcome, policy, maxConcurrency, m0, graph.Marking(), log, flag, token.cancelled, halting);
      if !second && !halting {
        inFlight, log := SubmitPart(graph, outcome, inFlight, m0, log);
      }
    }

    lemma NothingStarted(steps: seq<Step>, m: Marking, ids: seq<Id>, taken: seq<Id>)
      requires maxConcurrency >= 1 && UniqueIds(steps) && Covers(GraphOf(steps), m)
      requires ids == ReadyIds(steps, m) && taken == ids[..Fit(|ids|, |InState(m, Running)|)]
      requires InState(m, Running) + Members(taken) == {}
      ensures Moved(m, Members(taken), Running) == m && NothingReady(GraphOf(steps), m)
    {
      hide UniqueIds, ReadyIds;
      assert InState(m, Running) == {};
      assert Members(taken) == {};
      SomeMember(taken);
      MoveNothing(m, Running);
      forall id | id in GraphOf(steps) && m[id] == Pending ensures !DepsSucceeded(GraphOf(steps), m, id) {
        ReadyMeans(steps, m, id);
      }
    }

    method DrainPhase(graph: TaskGraph, ghost outcome: Outcome, ghost cancelled: bool, ghost halting: bool,
                      ghost m0: Marking, ghost log0: seq<Event>)
      returns (drained: bool, ghost log: seq<Event>)
      requires graph.Valid() && NoneIn(graph.Marking(), Running)
      requires RunInv(GraphOf(graph.steps), outcome, policy, maxConcurrency, m0, graph.Marking(), log0, cancelled, halting)
      requires !cancelled ==> NothingReady(GraphOf(graph.steps), graph.Marking())
      modifies graph.nodes
      ensures graph.Marking() == AfterDrain(old(graph.Marking()))
      ensures RunInv(GraphOf(graph.steps), outcome, policy, maxConcurrency, m0, graph.Marking(), log, cancelled, halting)
      ensures NoneIn(graph.Marking(), Running) && AllTerminal(graph.Marking())
      ensures drained ==> Work(graph.Marking()) < Work(old(graph.Marking()))
    {
      hide TaskGraph.Valid, Logged, Consistent, NoStartAfterFailure, NoFailureLogged, Added, Moved, Work, DepsSucceeded, Answered;
      ghost var g, m := GraphOf(graph.steps), graph.Marking();
      drained, log := DrainStuck(graph, m0, log0);
      DrainKeepsInv(g, outcome, policy, maxConcurrency, m0, m, log0, log, cancelled, halting);
      MovedShape(g, m0, m, InState(m, Pending), Skipped);
      MovedWork(g, m, InState(m, Pending), Skipped);
      NothingLeft(graph.Marking());
    }

    lemma NothingLeft(m: Marking)
      requires InState(m, Pending) == {} && NoneIn(m, Ready) && NoneIn(m, Running)
      ensures AllTerminal(m)
    {
      forall id | id in m ensures Terminal(m[id]) {
        assert id !in InState(m, Pending) && id !in InState(m, Ready) && id !in InState(m, Running);
      }
    }

    method SkipPart(graph: TaskGraph, ghost outcome: Outcome, ghost m0: Marking, ghost log0: seq<Event>)
      returns (ghost log: seq<Event>)
      requires graph.Valid() && NoneIn(graph.Marking(), Ready) && Extends(m0, graph.Marking())
      requires Answered(outcome, m0, graph.Marking())
      requires Logged(GraphOf(graph.steps), maxConcurrency, m0, log0, graph.Marking())
      modifies graph.nodes
      ensures graph.Marking() == SkipPass(graph.steps, old(graph.Marking()))
      ensures Answered(outcome, m0, graph.Marking())
      ensures NoneIn(graph.Marking(), Ready) && Extends(m0, graph.Marking())
      ensures Logged(GraphOf(graph.steps), maxConcurrency, m0, log, graph.Marking())
      ensures NoStartAfterFailure(log0) ==> NoStartAfterFailure(log)
      ensures Consistent(GraphOf(graph.steps), outcome, old(graph.Marking())) ==>
        Consistent(GraphOf(graph.steps), outcome, graph.Marking())
      ensures NoneIn(old(graph.Marking()), Cancelled) ==> NoneIn(graph.Marking(), Cancelled)
      ensures InState(graph.Marking(), Running) == InState(old(graph.Marking()), Running)
      ensures Work(graph.Marking()) <= Work(old(graph.Marking()))
    {
      hide TaskGraph.Valid, Consistent, NoStartAfterFailure, Added, Work, LegalLog, Replay, SkipPass, Describes, InState, Answered;
      graph.StepsDescribed();
      SkipKeepsInv(GraphOf(graph.steps), graph.steps, outcome, graph.Marking());
      log := SkipUnsatisfiable(graph, m0, log0);
      AddedQuietly(log0, log, {Skipped});
    }

    /** Collects what finished, skips what that makes impossible, and halts on failure under fail-fast. */
    method SettlePhase(graph: TaskGraph, outcome: Outcome, ghost cancelled: bool, halting0: bool, done: set<Id>,
                       inFlight0: set<Id>, ghost m0: Marking, ghost log0: seq<Event>)
      returns (inFlight: set<Id>, halting: bool, ghost log: seq<Event>)
      requires graph.Valid() && inFlight0 == InState(graph.Marking(), Running) && done <= inFlight0
      requires RunInv(GraphOf(graph.steps), outcome, policy, maxConcurrency, m0, graph.Marking(), log0, cancelled, halting0)
      modifies graph.nodes
      ensures graph.Marking() == SkipPass(graph.steps, AfterCollect(old(graph.Marking()), done, outcome))
      ensures halting <==> halting0 || (policy.FailFast? && HasFailure(graph.Marking()))
      ensures inFlight == InState(graph.Marking(), Running)
      ensures RunInv(GraphOf(graph.steps), outcome, policy, maxConcurrency, m0, graph.Marking(), log, cancelled, halting)
      ensures Work(graph.Marking()) <= Work(old(graph.Marking()))
      ensures done != {} ==> Work(graph.Marking()) < Work(old(graph.Marking()))
    {
      hide TaskGraph.Valid, Logged, Consistent, NoStartAfterFailure, NoFailureLogged, Added, AfterCollect, Work, NoneIn,
           InState, Extends, Covers, HasFailure, SkipPass, Answered;
      graph.Facts();
      ghost var g, m := GraphOf(graph.steps), graph.Marking();
      inFlight, log := CollectCompleted(graph, outcome, done, inFlight0, m0, log0);
      CollectKeepsInv(g, outcome, policy, maxConcurrency, m0, m, log0, log, done, cancelled, halting0);
      CollectShape(g, m0, m, done, outcome);
      CollectWork(g, m, done, outcome);
      log := SkipPart(graph, outcome, m0, log);
      var failed := FirstFailure(graph);
      if !failed { FailureShows(g, maxConcurrency, m0, graph.Marking(), log); }
      if halting0 { SettleKeepsFailure(graph.steps, m, done, outcome); }
      halting := halting0 || (failed && policy.FailFast?);
    }

    lemma SettleKeepsFailure(steps: seq<Step>, m: Marking, done: set<Id>, outcome: Outcome)
      requires UniqueIds(steps) && Covers(GraphOf(steps), m) && done <= InState(m, Running) && HasFailure(m)
      ensures HasFailure(SkipPass(steps, AfterCollect(m, done, outcome)))
    {
      hide SkipPass, GraphOf;
      ExtendsSelf(m);
      CollectShape(GraphOf(steps), m, m, done, outcome);
      FailureStays(m, AfterCollect(m, done, outcome));
      GraphDescribes(steps);
      SkipPassKeeps(GraphOf(steps), steps, outcome, AfterCollect(m, done, outcome));
      FailureStays(AfterCollect(m, done, outcome), SkipPass(steps, AfterCollect(m, done, outcome)));
    }

    method FirstFailure(graph: TaskGraph) returns (failed: bool)
      requires graph.Valid()
      ensures failed <==> HasFailure(graph.Marking())
    {
      failed := exists n | n in graph.nodes :: IsFailure(n.state);
      forall n | n in graph.nodes ensures graph.Marking()[n.step.id] == n.state { graph.StateOf(n); }
    }

    // ---- the whole run -----------------------------------------------------------------------

    method OverallStatusOf(graph: TaskGraph, cancelled: bool) returns (status: OverallStatus)
      requires graph.Valid()
      ensures status == StatusOf(graph.Marking(), cancelled)
      ensures status == RunCancelled <==> cancelled
      ensures status == AllCompleted <==> !cancelled && forall n :: n in graph.nodes ==> n.state == Succeeded
    {
      if cancelled { return RunCancelled; }
      var all := forall n | n in graph.nodes :: n.state == Succeeded;
      forall n | n in graph.nodes ensures graph.Marking()[n.step.id] == n.state { graph.StateOf(n); }
      return if all then AllCompleted else SomeFailed;
    }

    method Aggregate(graph: TaskGraph, status: OverallStatus) returns (r: ExecutionResult)
      requires graph.Valid()
      ensures r.status == status && r.states == graph.Marking()
      ensures r.succeeded == IdsIn(graph.steps, graph.Marking(), Succeeded)
      ensures r.failed == IdsIn(graph.steps, graph.Marking(), Failed)
      ensures r.cancelled == IdsIn(graph.steps, graph.Marking(), Cancelled)
      ensures r.timedOut == IdsIn(graph.steps, graph.Marking(), TimedOut)
      ensures r.skipped == IdsIn(graph.steps, graph.Marking(), Skipped)
    {
      hide TaskGraph.Valid, IdsIn;
      graph.Facts();
      ghost var m := graph.Marking();
      var buckets: map<StepState, seq<Id>> := map s | s in ALL_STATES :: [];
      assert graph.steps[..0] == [];
      forall s ensures s in buckets && IdsIn(graph.steps[..0], m, s) == [] {
        EveryState(s);
        IdsInNone(m, s);
      }
      for i := 0 to |graph.nodes|
        invariant forall s :: s in buckets && buckets[s] == IdsIn(graph.steps[..i], m, s)
      {
        var node := graph.nodes[i];
        graph.StateOf(node);
        graph.StepAt(i);
        forall s ensures IdsIn(graph.steps[..i + 1], m, s)
                      == IdsIn(graph.steps[..i], m, s) + if node.state == s then [node.step.id] else []
        {
          IdsInNext(graph.steps, i, m, s);
        }
        buckets := buckets[node.state := buckets[node.state] + [node.step.id]];
      }
      assert graph.steps[..|graph.nodes|] == graph.steps;
      var states := graph.States();
      return ExecutionResult(status, states, buckets[Succeeded], buckets[Failed], buckets[Cancelled],
                             buckets[TimedOut], buckets[Skipped]);
    }

    /** Stores the graph; the process may die right after. */
    method Persist(graph: TaskGraph, mayCrash: bool) returns (saved: Snapshot, crashed: bool)
      requires graph.Valid()
      ensures RestoredMarking(graph.steps, saved) == AfterCrash(graph.Marking())
      ensures crashed ==> mayCrash
    {
      saved := graph.TakeSnapshot();
      graph.SnapshotKeeps(saved);
      crashed := *;
      crashed := crashed && mayCrash;
    }

    method Iterate(graph: TaskGraph, outcome: Outcome, token: CancellationToken, inFlight0: set<Id>, halting0: bool,
                   patience0: nat, ghost m0: Marking, ghost log0: seq<Event>)
      returns (inFlight: set<Id>, halting: bool, patience: nat, stuck: bool, ghost log: seq<Event>,
               ghost stop: bool, ghost hold: bool, ghost finished: set<Id>)
      requires maxConcurrency >= 1 && graph.Valid() && inFlight0 == InState(graph.Marking(), Running)
      requires RunInv(GraphOf(graph.steps), outcome, policy, maxConcurrency, m0, graph.Marking(), log0,
                      token.cancelled, halting0)
      modifies graph.nodes, token
      ensures old(token.cancelled) ==> token.cancelled
      ensures inFlight == InState(graph.Marking(), Running)
      ensures RunInv(GraphOf(graph.steps), outcome, policy, maxConcurrency, m0, graph.Marking(), log,
                     token.cancelled, halting)
      ensures (old(token.cancelled) ==> stop) && (stop ==> hold) && hold == token.cancelled
      ensures graph.Marking() ==
        AfterIteration(graph.steps, old(graph.Marking()), halting0, stop, hold, finished, outcome)
      ensures stuck ==> AllTerminal(graph.Marking())
      ensures finished != {} ==> Work(graph.Marking()) < Work(old(graph.Marking()))
      ensures !stuck ==>
        || Work(graph.Marking()) < Work(old(graph.Marking()))
        || (Work(graph.Marking()) == Work(old(graph.Marking())) && patience < patience0)
    {
      hide TaskGraph.Valid, RunInv, Work, InState, AllTerminal, NothingReady, AfterStart, AfterDrain, AfterCollect, SkipPass;
      halting, patience, stuck, finished := halting0, patience0, false, {};
      inFlight, log, stop, hold := StartPhase(graph, outcome, token, halting, inFlight0, m0, log0);
      if inFlight == {} {
        var drained: bool;
        drained, log := DrainPhase(graph, outcome, token.cancelled, halting, m0, log);
        stuck := !drained;
      } else {
        var done: set<Id>;
        done, patience := Wait(inFlight, patience);
        finished := done;
        inFlight, halting, log := SettlePhase(graph, outcome, token.cancelled, halting, done, inFlight, m0, log);
      }
    }

    /** What one iteration makes of the state map. */
    ghost function AfterIteration(steps: seq<Step>, m: Marking, halting: bool, first: bool, second: bool,
                                  finished: set<Id>, outcome: Outcome): Marking
    {
      var started := AfterStart(steps, m, halting, first, second);
      if InState(started, Running) == {} then AfterDrain(started)
      else SkipPass(steps, AfterCollect(started, finished, outcome))
    }

    /** A step that has run stays one that has run. */
    lemma IterationKeepsRun(steps: seq<Step>, m: Marking, halting: bool, first: bool, second: bool,
                            finished: set<Id>, outcome: Outcome, id: Id)
      requires UniqueIds(steps) && Covers(GraphOf(steps), m) && id in m && HasRun(m[id])
      ensures var m' := AfterIteration(steps, m, halting, first, second, finished, outcome); id in m' && HasRun(m'[id])
    {
      hide UniqueIds, GraphOf, ReadyIds, SkipPass;
      var started := AfterStart(steps, m, halting, first, second);
      assert id in started && HasRun(started[id]);
      SkipSpares(steps, started, finished, outcome, id);
    }

    lemma SkipSpares(steps: seq<Step>, m: Marking, finished: set<Id>, outcome: Outcome, id: Id)
      requires UniqueIds(steps) && m.Keys == GraphOf(steps).Keys && id in m && HasRun(m[id])
      ensures var m' := SkipPass(steps, AfterCollect(m, finished, outcome)); id in m' && HasRun(m'[id])
    {
      hide UniqueIds, GraphOf;
      SkipTouchesPending(steps, AfterCollect(m, finished, outcome), id);
    }

    lemma {:induction false} SkipTouchesPending(steps: seq<Step>, m: Marking, id: Id)
      requires id in m && m[id] != Pending
      ensures id in SkipPass(steps, m) && SkipPass(steps, m)[id] == m[id]
      decreases |steps|
    {
      if steps != [] { SkipTouchesPending(steps[..|steps| - 1], m, id); }
    }

    /** The first iteration of an undisturbed run starts a step if one is ready. */
    lemma IterationStarts(steps: seq<Step>, m: Marking, finished: set<Id>, outcome: Outcome) returns (id: Id)
      requires maxConcurrency >= 1 && UniqueIds(steps) && Covers(GraphOf(steps), m) && AtRest(m)
      requires ReadyIds(steps, m) != []
      ensures var m' := AfterIteration(steps, m, false, false, false, finished, outcome);
              id in m && m[id] == Pending && id in m' && HasRun(m'[id])
    {
      hide UniqueIds, GraphOf, ReadyIds, SkipPass;
      var ids := ReadyIds(steps, m);
      var taken := ids[..Fit(|ids|, |InState(m, Running)|)];
      id := ids[0];
      assert id in taken by { assert taken[0] == id; }
      ReadyMeans(steps, m, id);
      var started := AfterSubmit(steps, m);
      assert started[id] == Running && id in InState(started, Running);
      SkipSpares(steps, started, finished, outcome, id);
    }

    static ghost predicate SomeRan(m0: Marking, m: Marking) {
      exists id :: id in m0 && m0[id] == Pending && id in m && HasRun(m[id])
    }

    lemma IterationRuns(steps: seq<Step>, m0: Marking, m: Marking, halting: bool, first: bool, second: bool,
                        finished: set<Id>, outcome: Outcome)
      requires maxConcurrency >= 1 && UniqueIds(steps) && Covers(GraphOf(steps), m)
      requires SomeRan(m0, m) || (m == m0 && AtRest(m) && !halting && !first && !second && ReadyIds(steps, m) != [])
      ensures SomeRan(m0, AfterIteration(steps, m, halting, first, second, finished, outcome))
    {
      hide UniqueIds, GraphOf, ReadyIds, Covers, AtRest, AfterIteration, HasRun;
      var m' := AfterIteration(steps, m, halting, first, second, finished, outcome);
      if SomeRan(m0, m) {
        var id :| id in m0 && m0[id] == Pending && id in m && HasRun(m[id]);
        IterationKeepsRun(steps, m, halting, first, second, finished, outcome, id);
        assert id in m0 && m0[id] == Pending && id in m' && HasRun(m'[id]);
      } else {
        var id := IterationStarts(steps, m, finished, outcome);
        assert id in m0 && m0[id] == Pending && id in m' && HasRun(m'[id]);
      }
    }

    /** A legal run from a graph at rest starts a step only if one is ready, and has started one if one has run. */
    lemma StartsMean(steps: seq<Step>, m0: Marking, log: seq<Event>)
      requires UniqueIds(steps) && Covers(GraphOf(steps), m0) && AtRest(m0)
      requires LegalLog(GraphOf(steps), maxConcurrency, m0, log)
      ensures HasStart(log) ==> ReadyIds(steps, m0) != []
      ensures SomeRan(m0, Replay(m0, log)) ==> HasStart(log)
    {
      hide UniqueIds, GraphOf, ReadyIds, LegalLog, Replay;
      forall id | id in m0 ensures m0[id] != Running { assert id !in InState(m0, Running); }
      if HasStart(log) {
        var id := FirstStart(GraphOf(steps), maxConcurrency, m0, log);
        ReadyMeans(steps, m0, id);
      } else {
        QuietLog(GraphOf(steps), maxConcurrency, m0, log);
      }
    }

    lemma EndedNotReady(steps: seq<Step>, m: Marking)
      requires UniqueIds(steps) && Covers(GraphOf(steps), m) && AllTerminal(m)
      ensures ReadyIds(steps, m) == []
    {
      hide UniqueIds, GraphOf, ReadyIds;
      forall id ensures id !in ReadyIds(steps, m) { ReadyMeans(steps, m, id); }
      NoMembers(ReadyIds(steps, m));
    }

    /** The scheduling loop: iterations until every step has ended, or until a crash at a persist point. */
    method Loop(graph: TaskGraph, outcome: Outcome, token: CancellationToken, mayCrash: bool)
      returns (crashed: bool, saved: Snapshot, ghost log: seq<Event>, ghost halting: bool)
      requires maxConcurrency >= 1 && graph.Valid() && AtRest(graph.Marking())
      modifies graph.nodes, token
      ensures crashed ==> mayCrash && RestoredMarking(graph.steps, saved) == AfterCrash(graph.Marking())
      ensures !crashed ==> AllTerminal(graph.Marking())
      ensures old(token.cancelled) ==> token.cancelled
      ensures RunInv(GraphOf(graph.steps), outcome, policy, maxConcurrency, old(graph.Marking()), graph.Marking(), log,
                     token.cancelled, halting)
      ensures !crashed && !token.cancelled && ReadyIds(graph.steps, old(graph.Marking())) != [] ==>
        SomeRan(old(graph.Marking()), graph.Marking())
    {
      hide *;
      graph.Facts();
      ghost var g, m0 := GraphOf(graph.steps), graph.Marking();
      log := [];
      RunStarts(g, outcome, policy, maxConcurrency, m0, token.cancelled);
      RestMeans(m0);
      ghost var c0 := token.cancelled;
      var halted := false;
      var inFlight: set<Id> := {};
      var patience: nat := *;
      ghost var begun := false;
      saved, crashed := Persist(graph, mayCrash);
      var finished := graph.Done();
      if finished { EndedNotReady(graph.steps, m0); }
      while !finished && !crashed
        invariant !begun ==> graph.Marking() == m0 && !halted && (finished ==> ReadyIds(graph.steps, m0) == [])
        invariant begun && !token.cancelled && ReadyIds(graph.steps, m0) != [] ==> SomeRan(m0, graph.Marking())
        invariant RunInv(g, outcome, policy, maxConcurrency, m0, graph.Marking(), log, token.cancelled, halted)
        invariant inFlight == InState(graph.Marking(), Running)
        invariant c0 ==> token.cancelled
        invariant crashed ==> mayCrash && RestoredMarking(graph.steps, saved) == AfterCrash(graph.Marking())
        invariant finished ==> AllTerminal(graph.Marking())
        decreases !finished && !crashed, Work(graph.Marking()), patience
      {
        var stuck: bool;
        ghost var stop, hold, done;
        ghost var m, before := graph.Marking(), halted;
        inFlight, halted, patience, stuck, log, stop, hold, done :=
          Iterate(graph, outcome, token, inFlight, halted, patience, m0, log);
        if !token.cancelled && ReadyIds(graph.steps, m0) != [] {
          IterationRuns(graph.steps, m0, m, before, stop, hold, done, outcome);
        }
        begun := true;
        if stuck { break; }
        saved, crashed := Persist(graph, mayCrash);
        finished := graph.Done();
      }
      halting := halted;
    }

    /** Status and result lists of a graph whose run has ended. */
    method Finish(graph: TaskGraph, token: CancellationToken) returns (r: ExecutionResult)
      requires graph.Valid()
      modifies token
      ensures old(token.cancelled) ==> token.cancelled
      ensures IsResult(r, graph.steps, graph.Marking(), token.cancelled)
    {
      hide TaskGraph.Valid, IdsIn, StatusOf;
      var cancelled := token.Read();
      var status := OverallStatusOf(graph, cancelled);
      r := Aggregate(graph, status);
    }

    /** Runs the graph to the end, or to a crash at a persist point when `mayCrash`.
        Without cancellation or failure halt the final states are the settled ones, whatever the schedule. */
    method ExecuteGraph(graph: TaskGraph, outcome: Outcome, token: CancellationToken, mayCrash: bool)
      returns (result: Option<ExecutionResult>, saved: Snapshot, ghost log: seq<Event>)
      requires maxConcurrency >= 1 && graph.Valid() && AtRest(graph.Marking())
      modifies graph.nodes, token
      ensures result.None? ==> mayCrash
      ensures old(token.cancelled) ==> token.cancelled
      // the log: legal moves only, and under fail-fast no start after a failure
      ensures LegalLog(GraphOf(graph.steps), maxConcurrency, old(graph.Marking()), log)
      ensures Replay(old(graph.Marking()), log) == graph.Marking()
      ensures policy.FailFast? ==> NoStartAfterFailure(log)
      // whatever failed before: a run to the end starts a step exactly if one is ready at the outset
      ensures HasStart(log) ==> ReadyIds(graph.steps, old(graph.Marking())) != []
      ensures result.Some? && !token.cancelled ==>
        (HasStart(log) <==> ReadyIds(graph.steps, old(graph.Marking())) != [])
      // cancelled or not: a step that ran to an end is in the state its own answer calls for
      ensures Answered(outcome, old(graph.Marking()), graph.Marking())
      ensures result.Some? ==> IsResult(result.value, graph.steps, graph.Marking(), token.cancelled)
      ensures result.Some? ==> forall id :: id in old(graph.Marking()) && old(graph.Marking())[id] == Pending ==>
        && (id in result.value.succeeded ==> outcome(id).ok)
        && (id in result.value.timedOut ==> !outcome(id).ok && outcome(id).deadlineReached)
        && (id in result.value.failed ==> !outcome(id).ok && !outcome(id).deadlineReached)
      ensures result.Some? ==>
        EndsWell(GraphOf(graph.steps), outcome, policy, old(graph.Marking()), graph.Marking(), token.cancelled)
      ensures result.None? ==> RestoredMarking(graph.steps, saved) == AfterCrash(graph.Marking())
      ensures result.None? ==>
        Restartable(GraphOf(graph.steps), outcome, policy, old(graph.Marking()),
                    RestoredMarking(graph.steps, saved), token.cancelled)
    {
      hide TaskGraph.Valid, RunInv, AtRest, AfterCrash, RestoredMarking, AllTerminal, LegalLog, Replay,
           NoStartAfterFailure, EndsWell, Restartable, IsResult, ReadyIds, SomeRan, HasStart, UniqueIds, Known, GraphOf, Covers,
           Answered;
      graph.Facts();
      ghost var g, m0 := GraphOf(graph.steps), graph.Marking();
      var crashed: bool;
      ghost var halting: bool;
      crashed, saved, log, halting := Loop(graph, outcome, token, mayCrash);
      InvGives(g, outcome, policy, maxConcurrency, m0, graph.Marking(), log, token.cancelled, halting);
      StartsMean(graph.steps, m0, log);
      if crashed {
        CrashLeaves(g, outcome, policy, maxConcurrency, m0, graph.Marking(), log, token.cancelled, halting);
        return None, saved, log;
      }
      ghost var flag := token.cancelled;
      var r := Finish(graph, token);
      CancelKeepsInv(g, outcome, policy, maxConcurrency, m0, graph.Marking(), log, flag, token.cancelled, halting);
      RunEnds(g, outcome, policy, maxConcurrency, m0, graph.Marking(), log, token.cancelled, halting);
      forall id | id in m0 && m0[id] == Pending
        ensures id in r.succeeded ==> outcome(id).ok
        ensures id in r.timedOut ==> !outcome(id).ok && outcome(id).deadlineReached
        ensures id in r.failed ==> !outcome(id).ok && !outcome(id).deadlineReached
      {
        ListsAnswered(graph.steps, outcome, m0, graph.Marking(), token.cancelled, r, id);
      }
      return Some(r), saved, log;
    }
  }
}
