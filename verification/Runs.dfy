/** Whole executions of a plan: any schedule, any concurrency limits, any number of crashes. */
module Runs {
  import opened Graphs
  import opened Validator
  import opened StepStates
  import opened TaskGraphs
  import opened Executors

  /** A graph to run from: at rest, nothing cancelled, and agreeing with the outcomes so far. */
  ghost predicate Launchable(g: Graph, outcome: Outcome, m: Marking) {
    Covers(g, m) && AtRest(m) && NoneIn(m, Cancelled) && Consistent(g, outcome, m)
  }

  lemma AllPendingLaunches(g: Graph, outcome: Outcome, m: Marking)
    requires Covers(g, m) && forall id :: id in m ==> m[id] == Pending
    ensures Launchable(g, outcome, m)
  {
    forall id | id in g ensures ConsistentAt(g, outcome, m, id) {}
  }

  /** No step is touched again, let alone started, once it has ended. */
  ghost predicate EndedStay(history: seq<Event>) {
    forall i, j :: 0 <= i < j < |history| && Terminal(history[i].to) ==> history[j].id != history[i].id
  }

  /** What has ended shows in the state map. */
  ghost predicate EndedShown(history: seq<Event>, m: Marking) {
    forall e :: e in history && Terminal(e.to) ==> e.id in m && Terminal(m[e.id])
  }

  /** All that has ended in the state map ended in the history. */
  ghost predicate EndsLogged(history: seq<Event>, m: Marking) {
    forall id :: id in m && Terminal(m[id]) ==> Event(id, m[id]) in history
  }

  lemma {:induction false} EndedInLog(m: Marking, log: seq<Event>, id: Id)
    requires id in Replay(m, log) && Event(id, Replay(m, log)[id]) !in log
    ensures id in m && m[id] == Replay(m, log)[id]
  {
    if log != [] {
      var front, e := log[..|log| - 1], log[|log| - 1];
      assert log == front + [e];
      assert e in log;
      EndedInLog(m, front, id);
    }
  }

  lemma EndsGrow(history: seq<Event>, m: Marking, log: seq<Event>)
    requires EndsLogged(history, m)
    ensures EndsLogged(history + log, Replay(m, log))
  {
    hide Replay, Terminal;
    forall id | id in Replay(m, log) && Terminal(Replay(m, log)[id])
      ensures Event(id, Replay(m, log)[id]) in history + log
    {
      if Event(id, Replay(m, log)[id]) !in log { EndedInLog(m, log, id); }
    }
  }

  lemma EventEnds(g: Graph, limit: int, m: Marking, log: seq<Event>, i: nat)
    requires LegalLog(g, limit, m, log) && i < |log| && Terminal(log[i].to)
    ensures log[i].id in Replay(m, log) && Terminal(Replay(m, log)[log[i].id])
    ensures forall k :: i < k < |log| ==> log[k].id != log[i].id
  {
    hide LegalLog, LegalEvent, Replay;
    EventLegal(g, limit, m, log, i);
    TerminalAbsorbs(g, limit, m, log, i + 1, log[i].id);
  }

  lemma EndedBefore(g: Graph, limit: int, m: Marking, log: seq<Event>, id: Id)
    requires LegalLog(g, limit, m, log) && id in m && Terminal(m[id])
    ensures id in Replay(m, log) && Terminal(Replay(m, log)[id])
    ensures forall k :: 0 <= k < |log| ==> log[k].id != id
  {
    assert log[..0] == [];
    ReplayNone(m);
    hide LegalLog, Replay;
    TerminalAbsorbs(g, limit, m, log, 0, id);
  }

  /** One run more, over whatever the history so far shows in the graph it starts from. */
  lemma HistoryGrows(g: Graph, limit: int, history: seq<Event>, m: Marking, log: seq<Event>)
    requires LegalLog(g, limit, m, log) && EndedStay(history) && EndedShown(history, m) && EndsLogged(history, m)
    ensures EndedStay(history + log)
    ensures EndedShown(history + log, Replay(m, log)) && EndsLogged(history + log, Replay(m, log))
  {
    EndsGrow(history, m, log);
    hide LegalLog, Replay, Terminal, EndsLogged;
    var all, n := history + log, |history|;
    forall i, j | 0 <= i < j < |all| && Terminal(all[i].to) ensures all[j].id != all[i].id {
      if i < n {
        assert history[i] in history;
        EndedBefore(g, limit, m, log, history[i].id);
      } else {
        EventEnds(g, limit, m, log, i - n);
      }
    }
    forall e | e in all && Terminal(e.to) ensures e.id in Replay(m, log) && Terminal(Replay(m, log)[e.id]) {
      if e in history {
        EndedBefore(g, limit, m, log, e.id);
      } else {
        var i :| 0 <= i < |log| && log[i] == e;
        EventEnds(g, limit, m, log, i);
      }
    }
  }

  lemma NoHistory()
    ensures EndedStay([]) && forall m :: EndedShown([], m)
    ensures forall m :: (forall id :: id in m ==> m[id] == Pending) ==> EndsLogged([], m)
  {
  }

  lemma NothingEnded(history: seq<Event>)
    ensures EndsLogged(history, map[])
  {
  }

  lemma CrashKeepsEnded(history: seq<Event>, m: Marking)
    requires EndedShown(history, m) && EndsLogged(history, m)
    ensures EndedShown(history, AfterCrash(m)) && EndsLogged(history, AfterCrash(m))
  {
  }

  /** Runs the plan under `limits[0]`; after each crash restores the last snapshot and runs on under the
      next limit.  The last run does not crash. */
  method RunThroughCrashes(plan: seq<Step>, outcome: Outcome, limits: seq<int>)
    returns (r: Result<Marking>, cancelled: bool, ghost history: seq<Event>)
    requires limits != [] && forall l :: l in limits ==> l >= 1
    ensures EndedStay(history) && (r.Success? ==> EndsLogged(history, r.value))
    ensures r.Success? <==> UniqueIds(plan) && Known(plan) && Acyclic(GraphOf(plan))
    ensures r.Success? && !cancelled ==> Covers(GraphOf(plan), r.value) && Settled(GraphOf(plan), outcome, r.value)
  {
    hide UniqueIds, Known, Consistent, Settled, Covers, AtRest, RestoredMarking, TaskGraph.Valid, LegalLog, Replay,
         AllTerminal, Extends, NoneIn, IdsIn, StatusOf, EndedStay, EndedShown, EndsLogged, HasStart, ReadyIds, Terminal, AfterCrash;
    history := [];
    NoHistory();
    var built := TaskGraph.FromPlan(plan);
    if built.Failure? { return Failure(built.error), false, history; }
    var graph := built.value;
    graph.FreshMarking();
    AllPendingLaunches(GraphOf(plan), outcome, graph.Marking());
    var i := 0;
    while true
      invariant 0 <= i < |limits|
      invariant graph.Valid() && graph.steps == plan && fresh(graph.nodes)
      invariant UniqueIds(plan) && Known(plan) && Acyclic(GraphOf(plan))
      invariant Launchable(GraphOf(plan), outcome, graph.Marking())
      invariant EndedStay(history) && EndedShown(history, graph.Marking()) && EndsLogged(history, graph.Marking())
      decreases |limits| - i
    {
      assert limits[i] in limits;
      var executor := new ParallelExecutor(limits[i], ContinueIndependent);
      var token := new CancellationToken();
      ghost var m := graph.Marking();
      var result, saved, log := executor.ExecuteGraph(graph, outcome, token, i < |limits| - 1);
      HistoryGrows(GraphOf(plan), limits[i], history, m, log);
      history := history + log;
      if result.Some? { return Success(result.value.states), token.cancelled, history; }
      if token.cancelled {
        NothingEnded(history);
        return Success(map[]), true, history;
      }
      CrashKeepsEnded(history, graph.Marking());
      var restored := TaskGraph.Restore(plan, saved);
      graph := restored.value;
      i := i + 1;
    }
  }

  /** Two histories of the same plan, with different schedules, limits and crashes, end alike. */
  method HistoriesAgree(plan: seq<Step>, outcome: Outcome, limits1: seq<int>, limits2: seq<int>)
    returns (r1: Result<Marking>, r2: Result<Marking>, cancelled: bool)
    requires limits1 != [] && limits2 != []
    requires (forall l :: l in limits1 ==> l >= 1) && (forall l :: l in limits2 ==> l >= 1)
    ensures r1.Success? <==> r2.Success?
    ensures !cancelled && r1.Success? ==> r1.value == r2.value
    ensures !cancelled && r1.Success? ==> forall id :: id in r1.value ==>
      && r1.value[id] != Cancelled
      && (r1.value[id] == Skipped <==>
          exists b :: Reaches(GraphOf(plan), id, b) && b in r1.value && IsFailure(r1.value[b]))
  {
    var c1, c2: bool;
    ghost var h1, h2;
    r1, c1, h1 := RunThroughCrashes(plan, outcome, limits1);
    r2, c2, h2 := RunThroughCrashes(plan, outcome, limits2);
    cancelled := c1 || c2;
    if !cancelled && r1.Success? {
      hide Settled, Covers, UniqueIds, Known;
      SettledUnique(GraphOf(plan), outcome, r1.value, r2.value);
      OutcomesOf(GraphOf(plan), outcome, r1.value);
    }
  }

  lemma OutcomesOf(g: Graph, outcome: Outcome, m: Marking)
    requires Acyclic(g) && Covers(g, m) && Settled(g, outcome, m)
    ensures forall id :: id in m ==>
      && m[id] != Cancelled
      && (m[id] == Skipped <==> exists b :: Reaches(g, id, b) && b in m && IsFailure(m[b]))
  {
    forall id | id in m
      ensures m[id] != Cancelled
      ensures m[id] == Skipped <==> exists b :: Reaches(g, id, b) && b in m && IsFailure(m[b])
    {
      ExactOutcome(g, outcome, m, id);
    }
  }

  /** Fail-fast lasts only as long as the process: a run that crashes after collecting a failure is
      restored to a state in which the next run has a step to start. */
  lemma FailFastEndsAtCrash() returns (plan: seq<Step>, log: seq<Event>, m: Marking)
    ensures UniqueIds(plan) && Acyclic(GraphOf(plan))
    ensures LegalLog(GraphOf(plan), 1, map["a" := Pending, "b" := Pending], log) && NoStartAfterFailure(log)
    ensures m == Replay(map["a" := Pending, "b" := Pending], log) == map["a" := Failed, "b" := Pending]
    ensures ReadyIds(plan, AfterCrash(m)) == ["b"]
  {
    hide GraphOf, ReadyIds, LegalLog, Replay, UniqueIds, Acyclic;
    plan := [Step("a", []), Step("b", [])];
    TwoIndependent(plan);
    log := [Event("a", Running), Event("a", Failed)];
    m := map["a" := Failed, "b" := Pending];
    FailOnce(GraphOf(plan), log);
    assert AfterCrash(m) == m;
  }

  /** A fail-fast run over a saved snapshot. */
  method Rerun(plan: seq<Step>, saved: Snapshot, outcome: Outcome, limit: int)
    returns (restored: Marking, cancelled: bool, ghost log: seq<Event>)
    requires limit >= 1 && UniqueIds(plan) && Known(plan) && Acyclic(GraphOf(plan))
    requires AtRest(RestoredMarking(plan, saved))
    ensures restored == RestoredMarking(plan, saved) && LegalLog(GraphOf(plan), limit, restored, log)
    ensures !cancelled ==> (HasStart(log) <==> ReadyIds(plan, restored) != [])
  {
    hide UniqueIds, Known, Settled, AtRest, RestoredMarking, TaskGraph.Valid, LegalLog, Replay, ReadyIds, HasStart,
         Restartable, EndsWell, IsResult, NoStartAfterFailure;
    var rebuilt := TaskGraph.Restore(plan, saved);
    var graph := rebuilt.value;
    restored := graph.States();
    var executor := new ParallelExecutor(limit, FailFast);
    var token := new CancellationToken();
    var result, _, events := executor.ExecuteGraph(graph, outcome, token, false);
    log, cancelled := events, token.cancelled;
  }

  /** A fail-fast run that dies, and another one over what it saved.  Whatever had failed by then, the second run starts
      a step exactly if one is ready in the restored graph. */
  method FailFastRerun(plan: seq<Step>, outcome: Outcome, limit1: int, limit2: int)
    returns (died: bool, cancelled: bool, restored: Marking, ghost log1: seq<Event>, ghost log2: seq<Event>)
    requires limit1 >= 1 && limit2 >= 1 && UniqueIds(plan) && Known(plan) && Acyclic(GraphOf(plan))
    ensures died ==>
      && NoStartAfterFailure(log1)
      && LegalLog(GraphOf(plan), limit1, AllPending(plan), log1)
      && restored == AfterCrash(Replay(AllPending(plan), log1))
      && LegalLog(GraphOf(plan), limit2, restored, log2)
    ensures died && !cancelled ==> (HasStart(log2) <==> ReadyIds(plan, restored) != [])
  {
    hide UniqueIds, Known, Consistent, Settled, Covers, RestoredMarking, AfterCrash, TaskGraph.Valid, LegalLog, Replay,
         AllTerminal, Extends, NoneIn, IdsIn, StatusOf, ReadyIds, HasStart, EndsWell, IsResult, NoStartAfterFailure;
    died, cancelled, restored, log1, log2 := false, false, map[], [], [];
    var built := TaskGraph.FromPlan(plan);
    var graph := built.value;
    graph.FreshMarking();
    FreshIsPending(plan, graph.Marking());
    var first := new ParallelExecutor(limit1, FailFast);
    var token := new CancellationToken();
    var result, saved, log := first.ExecuteGraph(graph, outcome, token, true);
    if result.Some? { return; }
    log1 := log;
    restored, cancelled, log2 := Rerun(plan, saved, outcome, limit2);
    died := true;
  }

  ghost function AllPending(plan: seq<Step>): Marking {
    map id | id in Ids(plan) :: Pending
  }

  lemma FreshIsPending(plan: seq<Step>, m: Marking)
    requires Covers(GraphOf(plan), m) && forall id :: id in m ==> m[id] == Pending
    ensures m == AllPending(plan) && AtRest(m)
  {
  }

  lemma TwoIndependent(plan: seq<Step>)
    requires plan == [Step("a", []), Step("b", [])]
    ensures UniqueIds(plan) && Acyclic(GraphOf(plan)) && GraphOf(plan) == map["a" := [], "b" := []]
    ensures ReadyIds(plan, map["a" := Failed, "b" := Pending]) == ["b"]
  {
    var a, b := Step("a", []), Step("b", []);
    assert plan[..1] == [a] && [a][..0] == [];
    assert GraphOf([]) == map[] && GraphOf([a]) == map["a" := []];
    RankMeansAcyclic(GraphOf(plan), map["a" := 0, "b" := 0]);
    var m: Marking := map["a" := Failed, "b" := Pending];
    assert ReadyIds([], m) == [];
    assert ReadyIds([a], m) == [];
    assert IsReady(b, m);
  }

  lemma FailOnce(g: Graph, log: seq<Event>)
    requires g == map["a" := [], "b" := []] && log == [Event("a", Running), Event("a", Failed)]
    ensures var m0: Marking := map["a" := Pending, "b" := Pending];
            LegalLog(g, 1, m0, log) && Replay(m0, log) == map["a" := Failed, "b" := Pending]
  {
    var m0: Marking := map["a" := Pending, "b" := Pending];
    assert InState(m0, Running) == {};
    LogGrows(g, 1, m0, [], log[0]);
    assert [] + [log[0]] == [log[0]];
    assert InState(m0["a" := Running], Running) == {"a"};
    LogGrows(g, 1, m0, [log[0]], log[1]);
    assert [log[0]] + [log[1]] == log;
  }
}
