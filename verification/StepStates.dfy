/** The state map of a task graph, apart from the objects that carry it: what one run may do
    to it, and what it can end in. */
module StepStates {
  import opened Graphs
  import opened Validator

  datatype StepState = Pending | Ready | Running | Succeeded | Failed | TimedOut | Cancelled | Skipped

  type Marking = map<Id, StepState>

  /** What one execution of a step reported: success, and whether its deadline had passed. */
  datatype Attempt = Attempt(ok: bool, deadlineReached: bool)

  type Outcome = Id -> Attempt

  predicate Terminal(s: StepState) {
    s in {Succeeded, Failed, TimedOut, Cancelled, Skipped}
  }

  /** Terminal without success. */
  predicate Bad(s: StepState) {
    s in {Failed, TimedOut, Cancelled, Skipped}
  }

  predicate IsFailure(s: StepState) {
    s in {Failed, TimedOut}
  }

  function Allowed(from: StepState): set<StepState> {
    match from
    case Pending => {Ready, Skipped, Cancelled}
    case Ready => {Running, Skipped, Cancelled}
    case Running => {Succeeded, Failed, TimedOut, Cancelled}
    case _ => {}
  }

  /** The allowed moves one by one; a step has ended exactly if there is none left, and badly exactly if without success. */
  lemma MovesMean(from: StepState, to: StepState)
    ensures to in Allowed(from) <==>
      || (from == Pending && to in {Ready, Skipped, Cancelled})
      || (from == Ready && to in {Running, Skipped, Cancelled})
      || (from == Running && to in {Succeeded, Failed, TimedOut, Cancelled})
    ensures Terminal(from) <==> Allowed(from) == {}
    ensures Bad(from) <==> Terminal(from) && from != Succeeded
    ensures IsFailure(from) <==> from == Failed || from == TimedOut
  {
    assert Terminal(from) <==> Ready !in Allowed(from) && Running !in Allowed(from) && Succeeded !in Allowed(from);
  }

  /** A late failure counts as a timeout, a late success stays a success. */
  function Collected(a: Attempt): StepState {
    if a.deadlineReached && !a.ok then TimedOut else if a.ok then Succeeded else Failed
  }

  ghost predicate Covers(g: Graph, m: Marking) {
    m.Keys == g.Keys && forall x, d :: Edge(g, x, d) ==> d in g
  }

  ghost predicate AllTerminal(m: Marking) {
    forall id :: id in m ==> Terminal(m[id])
  }

  ghost predicate DepsSucceeded(g: Graph, m: Marking, id: Id)
    requires Covers(g, m) && id in g
  {
    forall d :: Edge(g, id, d) ==> m[d] == Succeeded
  }

  ghost predicate SomeDepBad(g: Graph, m: Marking, id: Id)
    requires Covers(g, m) && id in g
  {
    exists d :: Edge(g, id, d) && Bad(m[d])
  }

  // ---- what is true after every action of an undisturbed run -----------------------------

  ghost predicate ConsistentAt(g: Graph, outcome: Outcome, m: Marking, id: Id)
    requires Covers(g, m) && id in g
  {
    && (m[id] in {Running, Succeeded, Failed, TimedOut} ==> DepsSucceeded(g, m, id))
    && (m[id] in {Succeeded, Failed, TimedOut} ==> m[id] == Collected(outcome(id)))
    && (m[id] == Skipped ==> SomeDepBad(g, m, id))
  }

  ghost predicate Consistent(g: Graph, outcome: Outcome, m: Marking)
    requires Covers(g, m)
  {
    forall id :: id in g ==> ConsistentAt(g, outcome, m, id)
  }

  /** `m'` only moves pending and running steps on. */
  ghost predicate Extends(m: Marking, m': Marking) {
    m.Keys == m'.Keys && forall id :: id in m && Terminal(m[id]) ==> m'[id] == m[id]
  }

  lemma ConsistentStep(g: Graph, outcome: Outcome, m: Marking, m': Marking)
    requires Covers(g, m) && Consistent(g, outcome, m) && Extends(m, m')
    requires forall id :: id in g && m'[id] != m[id] ==> ConsistentAt(g, outcome, m', id)
    ensures Consistent(g, outcome, m')
  {
    forall id | id in g ensures ConsistentAt(g, outcome, m', id) {
      if m'[id] == m[id] {
        assert ConsistentAt(g, outcome, m, id);
        if m[id] == Skipped {
          var d :| Edge(g, id, d) && Bad(m[d]);
          assert Bad(m'[d]);
        }
      }
    }
  }

  // ---- final states ------------------------------------------------------------------------

  /** What `m` has more than `m0` of steps that ran to an end is what these steps answered. */
  ghost predicate Answered(outcome: Outcome, m0: Marking, m: Marking) {
    forall id :: id in m && (id in m0 ==> m[id] != m0[id]) ==>
      && (m[id] == Succeeded ==> outcome(id).ok)
      && (m[id] == TimedOut ==> !outcome(id).ok && outcome(id).deadlineReached)
      && (m[id] == Failed ==> !outcome(id).ok && !outcome(id).deadlineReached)
  }

  lemma AnswersStay(outcome: Outcome, m0: Marking, m: Marking, m': Marking)
    requires Answered(outcome, m0, m)
    requires forall id :: id in m' && m'[id] in {Succeeded, Failed, TimedOut} ==> id in m && m'[id] == m[id]
    ensures Answered(outcome, m0, m')
  {
  }

  /** Every step ran and reported its outcome if its dependencies succeeded, and was skipped otherwise. */
  ghost predicate Settled(g: Graph, outcome: Outcome, m: Marking)
    requires Covers(g, m)
  {
    forall id {:trigger SettledAt(g, outcome, m, id)} :: id in g ==> SettledAt(g, outcome, m, id)
  }

  ghost predicate SettledAt(g: Graph, outcome: Outcome, m: Marking, id: Id)
    requires Covers(g, m) && id in g
  {
    m[id] == if DepsSucceeded(g, m, id) then Collected(outcome(id)) else Skipped
  }

  lemma ConsistentEndsSettled(g: Graph, outcome: Outcome, m: Marking)
    requires Covers(g, m) && Consistent(g, outcome, m) && AllTerminal(m)
    requires forall id :: id in m ==> m[id] != Cancelled
    ensures Settled(g, outcome, m)
  {
    forall id | id in g ensures SettledAt(g, outcome, m, id) {
      assert ConsistentAt(g, outcome, m, id);
      assert Terminal(m[id]);
    }
  }

  lemma {:induction false} SettledAgree(g: Graph, outcome: Outcome, m1: Marking, m2: Marking, r: map<Id, nat>, id: Id)
    requires Covers(g, m1) && Covers(g, m2) && RanksOn(g, g.Keys, r) && id in g
    requires Settled(g, outcome, m1) && Settled(g, outcome, m2)
    ensures m1[id] == m2[id]
    decreases r[id]
  {
    forall d | Edge(g, id, d) ensures m1[d] == m2[d] {
      SettledAgree(g, outcome, m1, m2, r, d);
    }
    assert SettledAt(g, outcome, m1, id) && SettledAt(g, outcome, m2, id);
  }

  /** On an acyclic graph the outcomes of the steps determine the final state map: no schedule,
      concurrency limit or crash history is left in it. */
  lemma SettledUnique(g: Graph, outcome: Outcome, m1: Marking, m2: Marking)
    requires Acyclic(g) && Covers(g, m1) && Covers(g, m2)
    requires Settled(g, outcome, m1) && Settled(g, outcome, m2)
    ensures m1 == m2
  {
    var r := RankExists(g, g.Keys);
    forall id | id in g ensures m1[id] == m2[id] {
      SettledAgree(g, outcome, m1, m2, r, id);
    }
  }

  /** Without acyclicity that fails: two steps waiting for each other may both run or both be skipped. */
  lemma CyclicNotUnique() returns (g: Graph, outcome: Outcome, m1: Marking, m2: Marking)
    ensures Covers(g, m1) && Covers(g, m2) && !Acyclic(g)
    ensures Settled(g, outcome, m1) && Settled(g, outcome, m2) && m1 != m2
  {
    g := map["a" := ["b"], "b" := ["a"]];
    outcome := id => Attempt(true, false);
    m1 := map["a" := Succeeded, "b" := Succeeded];
    m2 := map["a" := Skipped, "b" := Skipped];
    TwoCycle(g, outcome, m1, m2);
    assert m1["a"] != m2["a"];
    hide Settled, Acyclic, Covers;
    if Acyclic(g) { SettledUnique(g, outcome, m1, m2); }
  }

  lemma TwoCycle(g: Graph, outcome: Outcome, m1: Marking, m2: Marking)
    requires g == map["a" := ["b"], "b" := ["a"]] && forall id :: outcome(id) == Attempt(true, false)
    requires m1 == map["a" := Succeeded, "b" := Succeeded] && m2 == map["a" := Skipped, "b" := Skipped]
    ensures Covers(g, m1) && Covers(g, m2) && Settled(g, outcome, m1) && Settled(g, outcome, m2)
  {
    assert Edge(g, "a", "b") && Edge(g, "b", "a");
  }

  lemma {:induction false} SkippedHasFailedCause(g: Graph, outcome: Outcome, m: Marking, r: map<Id, nat>, id: Id)
    returns (cause: Id)
    requires Covers(g, m) && Settled(g, outcome, m) && RanksOn(g, g.Keys, r)
    requires id in g && m[id] == Skipped
    ensures Reaches(g, id, cause) && cause in m && IsFailure(m[cause])
    decreases r[id]
  {
    assert SettledAt(g, outcome, m, id);
    var d :| Edge(g, id, d) && m[d] != Succeeded;
    assert SettledAt(g, outcome, m, d);
    if m[d] == Skipped {
      cause := SkippedHasFailedCause(g, outcome, m, r, d);
      EdgeThenReaches(g, id, d, cause);
    } else {
      cause := d;
      EdgeReaches(g, id, d);
    }
  }

  lemma {:induction false} RanHasGoodAncestors(g: Graph, outcome: Outcome, m: Marking, r: map<Id, nat>, id: Id, b: Id)
    requires Covers(g, m) && Settled(g, outcome, m) && RanksOn(g, g.Keys, r)
    requires id in g && m[id] != Skipped && Reaches(g, id, b)
    ensures b in g && m[b] == Succeeded
    decreases r[id]
  {
    var d := FirstEdge(g, id, b);
    assert SettledAt(g, outcome, m, id) && m[d] == Succeeded;
    if d != b {
      RanHasGoodAncestors(g, outcome, m, r, d, b);
    }
  }

  /** All transitive dependencies succeeded. */
  ghost predicate AllBehindSucceeded(g: Graph, m: Marking, id: Id) {
    forall b :: Reaches(g, id, b) ==> b in m && m[b] == Succeeded
  }

  /** The exact outcome of every step in terms of all its transitive dependencies. */
  lemma ExactOutcome(g: Graph, outcome: Outcome, m: Marking, id: Id)
    requires Acyclic(g) && Covers(g, m) && Settled(g, outcome, m) && id in g
    ensures m[id] != Cancelled
    ensures m[id] in {Succeeded, Failed, TimedOut} <==> AllBehindSucceeded(g, m, id)
    ensures m[id] == Succeeded <==> AllBehindSucceeded(g, m, id) && outcome(id).ok
    ensures m[id] == TimedOut <==> AllBehindSucceeded(g, m, id) && !outcome(id).ok && outcome(id).deadlineReached
    ensures m[id] == Failed <==> AllBehindSucceeded(g, m, id) && !outcome(id).ok && !outcome(id).deadlineReached
    ensures m[id] == Skipped <==> exists b :: Reaches(g, id, b) && b in m && IsFailure(m[b])
  {
    var r := RankExists(g, g.Keys);
    assert SettledAt(g, outcome, m, id);
    if m[id] == Skipped {
      var cause := SkippedHasFailedCause(g, outcome, m, r, id);
      assert Reaches(g, id, cause) && cause in m && IsFailure(m[cause]);
    } else {
      forall b | Reaches(g, id, b) ensures b in m && m[b] == Succeeded {
        RanHasGoodAncestors(g, outcome, m, r, id, b);
      }
    }
  }

  lemma {:induction false} AllSucceed(g: Graph, outcome: Outcome, m: Marking, r: map<Id, nat>, id: Id)
    requires Covers(g, m) && Settled(g, outcome, m) && RanksOn(g, g.Keys, r) && id in g
    requires forall x :: x in g ==> outcome(x).ok
    ensures m[id] == Succeeded
    decreases r[id]
  {
    forall d | Edge(g, id, d) ensures m[d] == Succeeded {
      AllSucceed(g, outcome, m, r, d);
    }
    assert SettledAt(g, outcome, m, id);
  }

  /** All steps succeed exactly when every step on its own would. */
  lemma CompletesIffAllOk(g: Graph, outcome: Outcome, m: Marking)
    requires Acyclic(g) && Covers(g, m) && Settled(g, outcome, m)
    ensures (forall id :: id in g ==> m[id] == Succeeded) <==> (forall id :: id in g ==> outcome(id).ok)
  {
    var r := RankExists(g, g.Keys);
    if forall id :: id in g ==> outcome(id).ok {
      forall id | id in g ensures m[id] == Succeeded { AllSucceed(g, outcome, m, r, id); }
    }
    if forall id :: id in g ==> m[id] == Succeeded {
      forall id | id in g ensures outcome(id).ok {
        assert SettledAt(g, outcome, m, id) && m[id] == Collected(outcome(id));
      }
    }
  }

  // ---- the log of one run --------------------------------------------------------------------

  /** A step entered state `to`; a start (pending, ready, running in one go) is logged as running. */
  datatype Event = Event(id: Id, to: StepState)

  function Replay(m: Marking, log: seq<Event>): Marking {
    if log == [] then m
    else
      var e := log[|log| - 1];
      Replay(m, log[..|log| - 1])[e.id := e.to]
  }

  ghost function InState(m: Marking, s: StepState): (ids: set<Id>)
    ensures forall id :: id in ids <==> id in m && m[id] == s
  {
    set id | id in m && m[id] == s
  }

  ghost predicate LegalEvent(g: Graph, limit: int, m: Marking, e: Event) {
    && Covers(g, m)
    && e.id in g
    && match e.to
       case Running => m[e.id] == Pending && DepsSucceeded(g, m, e.id) && |InState(m, Running)| < limit
       case Succeeded | Failed | TimedOut => m[e.id] == Running
       case Skipped | Cancelled => m[e.id] == Pending
       case _ => false
  }

  ghost predicate LegalLog(g: Graph, limit: int, m: Marking, log: seq<Event>) {
    log != [] ==>
      && LegalLog(g, limit, m, log[..|log| - 1])
      && LegalEvent(g, limit, Replay(m, log[..|log| - 1]), log[|log| - 1])
  }

  /** Under fail-fast: nothing starts once a failure has been collected. */
  ghost predicate NoStartAfterFailure(log: seq<Event>) {
    forall i, j :: 0 <= i < j < |log| && IsFailure(log[i].to) ==> log[j].to != Running
  }

  lemma LogGrows(g: Graph, limit: int, m: Marking, log: seq<Event>, e: Event)
    requires LegalLog(g, limit, m, log) && LegalEvent(g, limit, Replay(m, log), e)
    ensures LegalLog(g, limit, m, log + [e]) && Replay(m, log + [e]) == Replay(m, log)[e.id := e.to]
  {
    assert (log + [e])[..|log|] == log;
  }

  lemma {:induction false} LegalPrefix(g: Graph, limit: int, m: Marking, log: seq<Event>, n: nat)
    requires LegalLog(g, limit, m, log) && n <= |log|
    ensures LegalLog(g, limit, m, log[..n])
    decreases |log|
  {
    if n == |log| {
      assert log[..n] == log;
    } else {
      LegalPrefix(g, limit, m, log[..|log| - 1], n);
      assert log[..|log| - 1][..n] == log[..n];
    }
  }

  /** Terminal states absorb: whatever the log does later, it does not touch a step that has ended. */
  lemma {:induction false} TerminalAbsorbs(g: Graph, limit: int, m: Marking, log: seq<Event>, n: nat, id: Id)
    requires LegalLog(g, limit, m, log) && n <= |log|
    requires id in Replay(m, log[..n]) && Terminal(Replay(m, log[..n])[id])
    ensures id in Replay(m, log) && Replay(m, log)[id] == Replay(m, log[..n])[id]
    ensures forall k :: n <= k < |log| ==> log[k].id != id
    decreases |log|
  {
    if n == |log| {
      assert log[..n] == log;
    } else {
      var front := log[..|log| - 1];
      assert front[..n] == log[..n];
      TerminalAbsorbs(g, limit, m, front, n, id);
      forall k | n <= k < |log| ensures log[k].id != id {
        if k < |front| { assert front[k] == log[k]; }
      }
    }
  }

  ghost predicate HasStart(log: seq<Event>) {
    exists k :: 0 <= k < |log| && log[k].to == Running
  }

  /** The states only a started step gets into. */
  predicate HasRun(s: StepState) {
    s in {Running, Succeeded, Failed, TimedOut}
  }

  /** A log without a start puts no step into a state of a started one, and makes no step pending. */
  lemma {:induction false} QuietLog(g: Graph, limit: int, m: Marking, log: seq<Event>)
    requires LegalLog(g, limit, m, log) && !HasStart(log) && (forall id :: id in m ==> m[id] != Running)
    ensures forall id :: id in Replay(m, log) && (HasRun(Replay(m, log)[id]) || Replay(m, log)[id] == Pending) ==>
      id in m && m[id] == Replay(m, log)[id]
  {
    if log != [] {
      var n := |log| - 1;
      var front, e := log[..n], log[n];
      assert !HasStart(front) by {
        forall k | 0 <= k < n ensures front[k].to != Running { assert log[k].to != Running; }
      }
      QuietLog(g, limit, m, front);
      assert e.to != Running && LegalEvent(g, limit, Replay(m, front), e);
    }
  }

  /** The first start of a log is of a step that could start from the outset. */
  lemma {:induction false} FirstStart(g: Graph, limit: int, m: Marking, log: seq<Event>) returns (id: Id)
    requires LegalLog(g, limit, m, log) && HasStart(log) && (forall x :: x in m ==> m[x] != Running)
    requires Covers(g, m)
    ensures id in g && m[id] == Pending && DepsSucceeded(g, m, id)
  {
    var n := |log| - 1;
    var front, e := log[..n], log[n];
    if HasStart(front) {
      id := FirstStart(g, limit, m, front);
    } else {
      QuietLog(g, limit, m, front);
      forall k | 0 <= k < n ensures log[k].to != Running { assert front[k].to != Running; }
      id := e.id;
      assert LegalEvent(g, limit, Replay(m, front), e);
      forall d | Edge(g, id, d) ensures m[d] == Succeeded {}
    }
  }

  /** At no point of a legal run are more than `limit` steps running. */
  lemma {:induction false} ConcurrencyBound(g: Graph, limit: int, m: Marking, log: seq<Event>, n: nat)
    requires LegalLog(g, limit, m, log) && InState(m, Running) == {} && 0 <= limit && n <= |log|
    ensures |InState(Replay(m, log[..n]), Running)| <= limit
  {
    hide LegalLog, LegalEvent, Replay, InState;
    if n > 0 {
      ConcurrencyBound(g, limit, m, log, n - 1);
      EventLegal(g, limit, m, log, n - 1);
      RunningAfter(g, limit, Replay(m, log[..n - 1]), log[n - 1]);
    } else {
      assert log[..n] == [];
      ReplayNone(m);
    }
  }

  lemma ReplayNone(m: Marking)
    ensures Replay(m, []) == m
  {
  }

  lemma RunningAfter(g: Graph, limit: int, m: Marking, e: Event)
    requires LegalEvent(g, limit, m, e) && |InState(m, Running)| <= limit
    ensures |InState(m[e.id := e.to], Running)| <= limit
  {
    var after := m[e.id := e.to];
    if e.to == Running {
      assert InState(after, Running) == InState(m, Running) + {e.id};
    } else {
      assert InState(after, Running) == InState(m, Running) - {e.id};
    }
  }

  lemma EventLegal(g: Graph, limit: int, m: Marking, log: seq<Event>, i: nat)
    requires LegalLog(g, limit, m, log) && i < |log|
    ensures LegalEvent(g, limit, Replay(m, log[..i]), log[i])
    ensures Replay(m, log[..i + 1]) == Replay(m, log[..i])[log[i].id := log[i].to]
  {
    LegalPrefix(g, limit, m, log, i + 1);
    assert log[..i + 1][..i] == log[..i];
  }

  /** A start finds every dependency succeeded, and succeeded they stay. */
  lemma StartsAfterDependencies(g: Graph, limit: int, m: Marking, log: seq<Event>, i: nat, d: Id)
    requires LegalLog(g, limit, m, log) && i < |log| && log[i].to == Running && Edge(g, log[i].id, d)
    ensures d in Replay(m, log[..i]) && Replay(m, log[..i])[d] == Succeeded
    ensures d in Replay(m, log) && Replay(m, log)[d] == Succeeded
  {
    EventLegal(g, limit, m, log, i);
    TerminalAbsorbs(g, limit, m, log, i, d);
  }

  /** No step is started twice. */
  lemma StartsOnce(g: Graph, limit: int, m: Marking, log: seq<Event>, i: nat, j: nat)
    requires LegalLog(g, limit, m, log) && i < j < |log|
    requires log[i].to == Running && log[j].to == Running
    ensures log[i].id != log[j].id
  {
    EventLegal(g, limit, m, log, i);
    EventLegal(g, limit, m, log, j);
    LegalPrefix(g, limit, m, log, j);
    assert log[..j][..i + 1] == log[..i + 1];
    NotPendingAgain(g, limit, m, log[..j], i + 1, log[i].id);
  }

  lemma {:induction false} NotPendingAgain(g: Graph, limit: int, m: Marking, log: seq<Event>, n: nat, id: Id)
    requires LegalLog(g, limit, m, log) && n <= |log|
    requires id in Replay(m, log[..n]) && Replay(m, log[..n])[id] != Pending
    ensures id in Replay(m, log) && Replay(m, log)[id] != Pending
    decreases |log|
  {
    if n == |log| {
      assert log[..n] == log;
    } else {
      assert log[..|log| - 1][..n] == log[..n];
      NotPendingAgain(g, limit, m, log[..|log| - 1], n, id);
    }
  }
}
