/** The runtime task graph: nodes with mutable state, queries in plan order, snapshot and restore. */
module TaskGraphs {
  import opened Graphs
  import opened Validator
  import opened StepStates

  // ---- snapshots ---------------------------------------------------------------------------

  /** A stored node entry as restore may find it. */
  datatype Saved =
    | Entry(state: StepState, attempts: int, interrupted: bool)
    | NotAnEntry
    | UnknownState
    | Corrupt(attempts: int) // read before the field that fails to parse

  type Snapshot = map<Id, Saved>

  /** Running and unreadable entries are not taken over. */
  predicate Usable(saved: Saved) {
    saved.Entry? && saved.state != Running
  }

  function RestoredState(snapshot: Snapshot, id: Id): StepState {
    if id in snapshot && Usable(snapshot[id]) then snapshot[id].state else Pending
  }

  ghost function RestoredMarking(steps: seq<Step>, snapshot: Snapshot): Marking {
    map id | id in Ids(steps) :: RestoredState(snapshot, id)
  }

  class GraphNode {
    const step: Step
    var state: StepState
    var attempts: int
    var interrupted: bool

    constructor (step: Step)
      ensures this.step == step && state == Pending && attempts == 0 && !interrupted
    {
      this.step := step;
      state := Pending;
      attempts := 0;
      interrupted := false;
    }

    /** Moves along a legal edge; an illegal one is refused and changes nothing. */
    method Transition(to: StepState) returns (ok: bool)
      modifies this`state
      ensures ok <==> to in Allowed(old(state))
      ensures ok <==>
        || (old(state) == Pending && to in {Ready, Skipped, Cancelled})
        || (old(state) == Ready && to in {Running, Skipped, Cancelled})
        || (old(state) == Running && to in {Succeeded, Failed, TimedOut, Cancelled})
      ensures state == if ok then to else old(state)
    {
      if to !in Allowed(state) { return false; }
      state := to;
      return true;
    }

    /** The node carries what restore makes of `saved`. */
    ghost predicate Carries(saved: Saved)
      reads this
    {
      match saved
      case Entry(savedState, savedAttempts, savedInterrupted) =>
        if savedState == Running then state == Pending && attempts == 0 && interrupted
        else state == savedState && attempts == savedAttempts && interrupted == savedInterrupted
      case NotAnEntry => Untouched()
      case UnknownState => state == Pending && attempts == 0 && interrupted
      case Corrupt(readAttempts) => state == Pending && attempts == readAttempts && interrupted
    }

    ghost predicate Untouched()
      reads this
    {
      state == Pending && attempts == 0 && !interrupted
    }

    method Load(saved: Saved)
      requires Untouched()
      modifies this
      ensures Carries(saved)
      ensures saved == NotAnEntry ==> state == Pending && attempts == 0 && !interrupted
      ensures saved == UnknownState || (saved.Entry? && saved.state == Running) ==>
        state == Pending && attempts == 0 && interrupted
      ensures saved.Corrupt? ==> state == Pending && attempts == saved.attempts && interrupted
      ensures saved.Entry? && saved.state != Running ==> saved == Entry(state, attempts, interrupted)
    {
      match saved
      case NotAnEntry =>
      case UnknownState => interrupted := true;
      case Corrupt(readAttempts) => attempts, interrupted := readAttempts, true;
      case Entry(savedState, savedAttempts, savedInterrupted) =>
        if savedState == Running {
          interrupted := true;
        } else {
          state, attempts, interrupted := savedState, savedAttempts, savedInterrupted;
        }
    }
  }

  // ---- what the queries compute ------------------------------------------------------

  predicate IsReady(step: Step, m: Marking) {
    && step.id in m && m[step.id] == Pending
    && forall d :: d in step.dependencies ==> d in m && m[d] == Succeeded
  }

  /** Ids of the pending steps whose dependencies all succeeded, in plan order. */
  function ReadyIds(steps: seq<Step>, m: Marking): (ids: seq<Id>)
    ensures forall id :: id in ids ==> id in Ids(steps)
  {
    if steps == [] then []
    else
      var front, last := steps[..|steps| - 1], steps[|steps| - 1];
      assert Ids(steps) == Ids(front) + [last.id];
      ReadyIds(front, m) + if IsReady(last, m) then [last.id] else []
  }

  predicate HasBadDependency(step: Step, m: Marking) {
    exists d :: d in step.dependencies && d in m && Bad(m[d])
  }

  function SkipStep(step: Step, m: Marking): Marking {
    if step.id in m && m[step.id] == Pending && HasBadDependency(step, m) then m[step.id := Skipped] else m
  }

  /** One pass in plan order that skips every pending step with a bad dependency it can already see. */
  function SkipPass(steps: seq<Step>, m: Marking): Marking {
    if steps == [] then m
    else SkipStep(steps[|steps| - 1], SkipPass(steps[..|steps| - 1], m))
  }

  /** The steps that pass skips, in plan order. */
  function SkippedIds(steps: seq<Step>, m: Marking): seq<Id> {
    if steps == [] then []
    else
      var front, last := steps[..|steps| - 1], steps[|steps| - 1];
      var m1 := SkipPass(front, m);
      SkippedIds(front, m) + if SkipStep(last, m1) != m1 then [last.id] else []
  }

  lemma SkipNext(steps: seq<Step>, i: nat, m: Marking)
    requires i < |steps|
    ensures SkipPass(steps[..i + 1], m) == SkipStep(steps[i], SkipPass(steps[..i], m))
    ensures SkippedIds(steps[..i + 1], m)
         == SkippedIds(steps[..i], m)
          + if SkipPass(steps[..i + 1], m) != SkipPass(steps[..i], m) then [steps[i].id] else []
  {
    assert steps[..i + 1][..i] == steps[..i];
  }

  lemma {:induction false} ReadyIdsExact(steps: seq<Step>, m: Marking)
    requires UniqueIds(steps)
    ensures NoDuplicates(ReadyIds(steps, m))
    ensures forall i :: 0 <= i < |steps| ==> (steps[i].id in ReadyIds(steps, m) <==> IsReady(steps[i], m))
  {
    if steps != [] {
      var front, last := steps[..|steps| - 1], steps[|steps| - 1];
      assert Ids(steps) == Ids(front) + [last.id];
      assert forall i :: 0 <= i < |front| ==> Ids(front)[i] == Ids(steps)[i];
      ReadyIdsExact(front, m);
      assert last.id !in Ids(front) by { assert Ids(steps)[|front|] == last.id; }
      forall i | 0 <= i < |steps| ensures steps[i].id in ReadyIds(steps, m) <==> IsReady(steps[i], m) {
        if i < |front| {
          assert front[i] == steps[i] && Ids(front)[i] == steps[i].id;
        }
      }
    }
  }

  /** The ids come in the order of the plan. */
  ghost predicate InPlanOrder(steps: seq<Step>, ids: seq<Id>) {
    forall k, l :: 0 <= k < l < |ids| ==> ComesBefore(steps, ids[k], ids[l])
  }

  ghost predicate ComesBefore(steps: seq<Step>, a: Id, b: Id) {
    exists i, j :: 0 <= i < j < |steps| && steps[i].id == a && steps[j].id == b
  }

  lemma OrderGrows(steps: seq<Step>, ids: seq<Id>)
    requires steps != [] && InPlanOrder(steps[..|steps| - 1], ids)
    requires forall id :: id in ids ==> id in Ids(steps[..|steps| - 1])
    ensures InPlanOrder(steps, ids) && InPlanOrder(steps, ids + [steps[|steps| - 1].id])
  {
    var n := |steps| - 1;
    var front, more := steps[..n], ids + [steps[n].id];
    forall k, l | 0 <= k < l < |more| ensures ComesBefore(steps, more[k], more[l]) {
      if l < |ids| {
        assert ComesBefore(front, ids[k], ids[l]);
        var i, j :| 0 <= i < j < |front| && front[i].id == ids[k] && front[j].id == ids[l];
        assert steps[i].id == ids[k] && steps[j].id == ids[l];
      } else {
        assert ids[k] in ids;
        var i :| 0 <= i < |front| && Ids(front)[i] == ids[k];
        assert steps[i].id == ids[k];
      }
    }
    forall k, l | 0 <= k < l < |ids| ensures ComesBefore(steps, ids[k], ids[l]) {
      assert ComesBefore(steps, more[k], more[l]);
    }
  }

  lemma {:induction false} ReadyInOrder(steps: seq<Step>, m: Marking)
    ensures InPlanOrder(steps, ReadyIds(steps, m))
  {
    if steps != [] {
      ReadyInOrder(steps[..|steps| - 1], m);
      OrderGrows(steps, ReadyIds(steps[..|steps| - 1], m));
      hide InPlanOrder;
    }
  }

  /** From `m` to `m'` exactly the steps `ids` were skipped, pending ones all. */
  ghost predicate ExactlySkipped(m: Marking, m': Marking, ids: seq<Id>) {
    && m'.Keys == m.Keys
    && (forall id :: id in ids ==> id in m && m[id] == Pending)
    && (forall id :: id in m ==> m'[id] == if id in ids then Skipped else m[id])
  }

  lemma SkipOneMore(last: Step, m: Marking, m1: Marking, ids: seq<Id>)
    requires ExactlySkipped(m, m1, ids) && last.id !in ids
    ensures ExactlySkipped(m, SkipStep(last, m1), ids + if SkipStep(last, m1) != m1 then [last.id] else [])
  {
    hide HasBadDependency;
    assert ids + [] == ids;
  }

  /** The ids the pass returns are exactly those of the steps it skips, in the order of the plan. */
  lemma {:induction false} SkippedExactly(steps: seq<Step>, m: Marking)
    requires UniqueIds(steps)
    ensures InPlanOrder(steps, SkippedIds(steps, m))
    ensures forall id :: id in SkippedIds(steps, m) ==> id in Ids(steps)
    ensures ExactlySkipped(m, SkipPass(steps, m), SkippedIds(steps, m))
  {
    if steps != [] {
      var front, last := steps[..|steps| - 1], steps[|steps| - 1];
      UniqueFront(steps);
      SkippedExactly(front, m);
      OrderGrows(steps, SkippedIds(front, m));
      hide InPlanOrder, UniqueIds, SkipStep, ExactlySkipped, Ids;
      SkipOneMore(last, m, SkipPass(front, m), SkippedIds(front, m));
    }
  }

  lemma UniqueFront(steps: seq<Step>)
    requires UniqueIds(steps) && steps != []
    ensures UniqueIds(steps[..|steps| - 1])
    ensures forall id :: id in Ids(steps) <==> id in Ids(steps[..|steps| - 1]) || id == steps[|steps| - 1].id
    ensures steps[|steps| - 1].id !in Ids(steps[..|steps| - 1])
  {
    var front, last := steps[..|steps| - 1], steps[|steps| - 1];
    assert Ids(steps) == Ids(front) + [last.id];
    assert forall i :: 0 <= i < |front| ==> Ids(front)[i] == Ids(steps)[i];
    assert Ids(steps)[|front|] == last.id;
  }

  // ---- the queries against the dependency graph ------------------------------------------

  /** `g` holds the dependency list of every step listed. */
  ghost predicate Describes(g: Graph, steps: seq<Step>) {
    forall s :: s in steps ==> s.id in g && g[s.id] == s.dependencies
  }

  lemma GraphDescribes(steps: seq<Step>)
    requires UniqueIds(steps)
    ensures Describes(GraphOf(steps), steps)
  {
    forall s | s in steps ensures s.id in GraphOf(steps) && GraphOf(steps)[s.id] == s.dependencies {
      var i :| 0 <= i < |steps| && steps[i] == s;
      GraphOfStep(steps, i);
    }
  }

  lemma QueriesMean(g: Graph, step: Step, m: Marking)
    requires Covers(g, m) && step.id in g && g[step.id] == step.dependencies
    ensures IsReady(step, m) <==> m[step.id] == Pending && DepsSucceeded(g, m, step.id)
    ensures HasBadDependency(step, m) <==> SomeDepBad(g, m, step.id)
  {
    forall d ensures Edge(g, step.id, d) <==> d in step.dependencies {}
    if HasBadDependency(step, m) {
      var d :| d in step.dependencies && d in m && Bad(m[d]);
      assert Edge(g, step.id, d);
    }
  }

  lemma SkipStepKeeps(g: Graph, step: Step, outcome: Outcome, m: Marking)
    requires Covers(g, m) && step.id in g && g[step.id] == step.dependencies
    ensures Covers(g, SkipStep(step, m)) && Extends(m, SkipStep(step, m))
    ensures Consistent(g, outcome, m) ==> Consistent(g, outcome, SkipStep(step, m))
  {
    QueriesMean(g, step, m);
    var m' := SkipStep(step, m);
    if m' != m && Consistent(g, outcome, m) {
      var d :| Edge(g, step.id, d) && Bad(m[d]);
      assert Bad(m'[d]);
      ConsistentStep(g, outcome, m, m');
    }
  }

  /** The pass turns pending steps into skipped ones and keeps what undisturbed runs keep. */
  lemma {:induction false} SkipPassKeeps(g: Graph, steps: seq<Step>, outcome: Outcome, m: Marking)
    requires Covers(g, m) && Describes(g, steps)
    ensures Covers(g, SkipPass(steps, m)) && Extends(m, SkipPass(steps, m))
    ensures forall id :: id in m && SkipPass(steps, m)[id] != m[id] ==>
      m[id] == Pending && SkipPass(steps, m)[id] == Skipped
    ensures Consistent(g, outcome, m) ==> Consistent(g, outcome, SkipPass(steps, m))
  {
    if steps != [] {
      var front, last := steps[..|steps| - 1], steps[|steps| - 1];
      SkipPassKeeps(g, front, outcome, m);
      SkipStepKeeps(g, last, outcome, SkipPass(front, m));
    }
  }

  /** Ids are unique and every dependency is listed before its dependents. */
  ghost predicate DependenciesFirst(steps: seq<Step>) {
    steps != [] ==>
      var front, last := steps[..|steps| - 1], steps[|steps| - 1];
      && DependenciesFirst(front)
      && last.id !in Ids(front)
      && forall d :: d in last.dependencies ==> d in Ids(front)
  }

  lemma {:induction false} DependenciesInside(steps: seq<Step>, s: Step)
    requires DependenciesFirst(steps) && s in steps
    ensures s.id in Ids(steps) && forall d :: d in s.dependencies ==> d in Ids(steps)
  {
    var front, last := steps[..|steps| - 1], steps[|steps| - 1];
    assert Ids(steps) == Ids(front) + [last.id];
    if s != last {
      DependenciesInside(front, s);
    }
  }

  /** When the plan lists dependencies first, one pass leaves no pending step with a bad dependency. */
  lemma {:induction false} SkipPassClosesOrderedPlan(g: Graph, steps: seq<Step>, m: Marking, s: Step)
    requires Covers(g, m) && Describes(g, steps) && DependenciesFirst(steps) && s in steps
    ensures var m' := SkipPass(steps, m);
            s.id in m' && (m'[s.id] == Pending ==> !HasBadDependency(s, m'))
  {
    var front, last := steps[..|steps| - 1], steps[|steps| - 1];
    var m1 := SkipPass(front, m);
    SkipPassKeeps(g, front, _ => Attempt(true, false), m);
    if s in front {
      SkipPassClosesOrderedPlan(g, front, m, s);
      DependenciesInside(front, s);
    }
  }

  /** In another plan order it may leave one; the executor's next pass or its drain has to find it. */
  lemma SkipPassMayLag() returns (steps: seq<Step>, m: Marking, s: Step)
    ensures UniqueIds(steps) && Acyclic(GraphOf(steps)) && Covers(GraphOf(steps), m)
    ensures var m' := SkipPass(steps, m); s in steps && s.id in m' && m'[s.id] == Pending && HasBadDependency(s, m')
  {
    var c, b, a := Step("c", ["b"]), Step("b", ["a"]), Step("a", []);
    steps := [c, b, a];
    s := c;
    m := map["c" := Pending, "b" := Pending, "a" := Failed];
    hide GraphOf, Acyclic, UniqueIds;
    LagGraph(steps, c, b, a);
    LagPass(c, b, a, m);
    assert "b" in c.dependencies;
  }

  // ---- which plans one pass closes ----------------------------------------------------------

  /** No pending step is left with a bad dependency. */
  ghost predicate Closed(steps: seq<Step>, m: Marking) {
    forall s {:trigger ClosedAt(s, m)} :: s in steps ==> ClosedAt(s, m)
  }

  ghost predicate ClosedAt(s: Step, m: Marking) {
    s.id in m && (m[s.id] == Pending ==> !HasBadDependency(s, m))
  }

  /** A dependency listed after its dependent waits only for what that dependent waits for as well. */
  predicate LateOnesCovered(steps: seq<Step>) {
    forall i, j :: 0 <= i < j < |steps| && steps[j].id in steps[i].dependencies ==> Covered(steps[j], steps[i])
  }

  predicate Covered(inner: Step, outer: Step) {
    forall d :: d in inner.dependencies ==> d in outer.dependencies
  }

  lemma LateCovered(steps: seq<Step>, i: nat, j: nat)
    requires LateOnesCovered(steps) && i < j < |steps| && steps[j].id in steps[i].dependencies
    ensures Covered(steps[j], steps[i])
  {
  }

  /** A step that is blocked is no dependency of one that is not and that waits for all it waits for. */
  lemma BlockedElsewhere(s: Step, last: Step, m: Marking)
    requires HasBadDependency(last, m) && !HasBadDependency(s, m)
    requires last.id in s.dependencies ==> Covered(last, s)
    ensures last.id !in s.dependencies
  {
    var e :| e in last.dependencies && e in m && Bad(m[e]);
    assert last.id !in s.dependencies || e in s.dependencies;
  }

  /** The step just passed leaves an earlier one closed. */
  lemma SkipStepKeepsClosed(s: Step, last: Step, m: Marking)
    requires ClosedAt(s, m) && last.id in m
    requires last.id in s.dependencies ==> Covered(last, s)
    ensures ClosedAt(s, SkipStep(last, m))
  {
    if HasBadDependency(last, m) && !HasBadDependency(s, m) { BlockedElsewhere(s, last, m); }
  }

  lemma {:induction false} CoveredPassCloses(g: Graph, steps: seq<Step>, m: Marking, n: nat)
    requires Covers(g, m) && Describes(g, steps) && LateOnesCovered(steps) && n <= |steps|
    ensures forall k :: 0 <= k < n ==> ClosedAt(steps[k], SkipPass(steps[..n], m))
  {
    if n > 0 {
      hide SkipPass, LateOnesCovered, Covers, ClosedAt, Describes, SkipStep;
      CoveredPassCloses(g, steps, m, n - 1);
      SkipNext(steps, n - 1, m);
      var m1 := SkipPass(steps[..n - 1], m);
      PassCovers(g, steps, m, n - 1);
      forall k | 0 <= k < n ensures ClosedAt(steps[k], SkipStep(steps[n - 1], m1)) {
        CoveredStepCloses(g, steps, m1, k, n - 1);
      }
    }
  }

  lemma PassCovers(g: Graph, steps: seq<Step>, m: Marking, n: nat)
    requires Covers(g, m) && Describes(g, steps) && n < |steps|
    ensures Covers(g, SkipPass(steps[..n], m)) && steps[n].id in g && g[steps[n].id] == steps[n].dependencies
  {
    hide SkipPass;
    assert steps[n] in steps;
    SkipPassKeeps(g, steps[..n], _ => Attempt(true, false), m);
  }

  /** One step of the pass, seen from a step up to it. */
  lemma CoveredStepCloses(g: Graph, steps: seq<Step>, m: Marking, k: nat, n: nat)
    requires Covers(g, m) && LateOnesCovered(steps) && k <= n < |steps|
    requires steps[n].id in g && g[steps[n].id] == steps[n].dependencies
    requires k < n ==> ClosedAt(steps[k], m)
    ensures ClosedAt(steps[k], SkipStep(steps[n], m))
  {
    assert steps[n].id in m;
    hide SkipStep, Covered, LateOnesCovered, ClosedAt, Covers;
    if k < n {
      if steps[n].id in steps[k].dependencies { LateCovered(steps, k, n); }
      SkipStepKeepsClosed(steps[k], steps[n], m);
    } else {
      SkipStepCloses(g, steps[n], m);
    }
  }

  lemma SkipStepCloses(g: Graph, s: Step, m: Marking)
    requires Covers(g, m) && s.id in g && g[s.id] == s.dependencies
    ensures ClosedAt(s, SkipStep(s, m))
  {
  }

  /** A state map that shows the gap: `d` has failed, the steps `a` and `b` are pending, all others succeeded. */
  ghost function GapMap(g: Graph, a: Id, b: Id, d: Id): Marking {
    map id | id in g :: if id == d then Failed else if id == a || id == b then Pending else Succeeded
  }

  lemma {:induction false} GapPass(g: Graph, steps: seq<Step>, i: nat, j: nat, d: Id, n: nat)
    requires UniqueIds(steps) && Describes(g, steps) && i < j < |steps| && n <= |steps|
    requires d in g && d in steps[j].dependencies && d !in steps[i].dependencies
    requires d != steps[i].id && d != steps[j].id
    ensures var m := GapMap(g, steps[i].id, steps[j].id, d);
            SkipPass(steps[..n], m) == if n <= j then m else m[steps[j].id := Skipped]
  {
    var m := GapMap(g, steps[i].id, steps[j].id, d);
    if n > 0 {
      GapPass(g, steps, i, j, d, n - 1);
      SkipNext(steps, n - 1, m);
      assert steps[n - 1] in steps;
      GapStep(g, steps, i, j, d, n - 1);
    }
  }

  lemma GapStep(g: Graph, steps: seq<Step>, i: nat, j: nat, d: Id, k: nat)
    requires UniqueIds(steps) && Describes(g, steps) && i < j < |steps| && k < |steps|
    requires d in g && d in steps[j].dependencies && d !in steps[i].dependencies
    requires d != steps[i].id && d != steps[j].id
    ensures var m := GapMap(g, steps[i].id, steps[j].id, d);
            var skipped := m[steps[j].id := Skipped];
            && (k < j ==> SkipStep(steps[k], m) == m)
            && (k == j ==> SkipStep(steps[k], m) == skipped)
            && (k > j ==> SkipStep(steps[k], skipped) == skipped)
  {
    assert steps[i] in steps && steps[j] in steps && steps[k] in steps;
    assert Ids(steps)[i] == steps[i].id && Ids(steps)[j] == steps[j].id && Ids(steps)[k] == steps[k].id;
  }

  lemma GapIds(steps: seq<Step>, i: nat, j: nat, d: Id)
    requires UniqueIds(steps) && Known(steps) && Acyclic(GraphOf(steps)) && i < j < |steps|
    requires steps[j].id in steps[i].dependencies && d in steps[j].dependencies
    ensures Describes(GraphOf(steps), steps) && d in GraphOf(steps)
    ensures steps[i].id in GraphOf(steps) && steps[j].id in GraphOf(steps)
    ensures d != steps[i].id && d != steps[j].id && steps[i].id != steps[j].id
  {
    var g, a, b := GraphOf(steps), steps[i].id, steps[j].id;
    GraphDescribes(steps);
    GraphClosed(steps);
    assert steps[i] in steps && steps[j] in steps;
    assert Edge(g, a, b) && Edge(g, b, d);
    if d == b { SelfLoop(g, b); }
    if d == a { TwoCycleCloses(g, a, b); }
    if a == b { SelfLoop(g, b); }
  }

  lemma GapCovers(steps: seq<Step>, a: Id, b: Id, d: Id)
    requires UniqueIds(steps) && Known(steps) && a in GraphOf(steps) && b in GraphOf(steps) && d != a && d != b
    ensures var m := GapMap(GraphOf(steps), a, b, d);
            Covers(GraphOf(steps), m) && a in m && b in m && m[a] == Pending
  {
    GraphClosed(steps);
  }

  lemma GapNotClosed(steps: seq<Step>, i: nat, j: nat, d: Id) returns (m: Marking)
    requires UniqueIds(steps) && Known(steps) && Acyclic(GraphOf(steps)) && i < j < |steps|
    requires steps[j].id in steps[i].dependencies && d in steps[j].dependencies && d !in steps[i].dependencies
    ensures Covers(GraphOf(steps), m) && !Closed(steps, SkipPass(steps, m))
  {
    hide Covers, GraphOf, Acyclic, UniqueIds, Known, SkipPass, GapMap, ClosedAt, Describes;
    var g, a, b := GraphOf(steps), steps[i].id, steps[j].id;
    GapIds(steps, i, j, d);
    GapCovers(steps, a, b, d);
    m := GapMap(g, a, b, d);
    GapPass(g, steps, i, j, d, |steps|);
    assert steps[..|steps|] == steps;
    GapOpen(steps[i], b, m);
    assert !ClosedAt(steps[i], SkipPass(steps, m));
  }

  lemma GapOpen(s: Step, b: Id, m: Marking)
    requires s.id in m && b in m && m[s.id] == Pending && s.id != b && b in s.dependencies
    ensures !ClosedAt(s, m[b := Skipped])
  {
    var m' := m[b := Skipped];
    assert Bad(m'[b]);
  }

  lemma TwoCycleCloses(g: Graph, a: Id, b: Id)
    requires Edge(g, a, b) && Edge(g, b, a)
    ensures !Acyclic(g)
  {
    assert IsWalk(g, [a, b, a]);
  }

  /** One pass leaves no pending step with a bad dependency, whatever the state map, exactly for the plans in which
      every dependency listed after its dependent waits only for what that dependent waits for as well. */
  lemma SkipPassClosesIff(steps: seq<Step>)
    requires UniqueIds(steps) && Known(steps) && Acyclic(GraphOf(steps))
    ensures (forall m :: Covers(GraphOf(steps), m) ==> Closed(steps, SkipPass(steps, m))) <==> LateOnesCovered(steps)
  {
    hide GraphOf, Acyclic, UniqueIds, Known, Covers, SkipPass;
    if LateOnesCovered(steps) {
      GraphDescribes(steps);
      forall m | Covers(GraphOf(steps), m) ensures Closed(steps, SkipPass(steps, m)) {
        CoveredPassCloses(GraphOf(steps), steps, m, |steps|);
        assert steps[..|steps|] == steps;
      }
    } else {
      var i, j :| 0 <= i < j < |steps| && steps[j].id in steps[i].dependencies && !Covered(steps[j], steps[i]);
      var d :| d in steps[j].dependencies && d !in steps[i].dependencies;
      var m := GapNotClosed(steps, i, j, d);
      assert !Closed(steps, SkipPass(steps, m));
    }
  }

  // ---- the same for the state maps of undisturbed runs -----------------------------------------

  /** The steps one pass in plan order reaches from `d`: each has `d`, or a step reached before it, as a dependency. */
  function Struck(steps: seq<Step>, d: Id): set<Id> {
    if steps == [] then {}
    else
      var front, last := steps[..|steps| - 1], steps[|steps| - 1];
      Struck(front, d) + if HitBy(last, d, Struck(front, d)) then {last.id} else {}
  }

  predicate HitBy(s: Step, d: Id, struck: set<Id>) {
    exists x | x in s.dependencies :: x == d || x in struck
  }

  /** Whichever step goes bad, the pass reaches every step with a dependency that is that step or is reached. */
  predicate SpreadsInOnePass(steps: seq<Step>) {
    forall d | d in Ids(steps) :: Spreads(steps, d)
  }

  predicate Spreads(steps: seq<Step>, d: Id) {
    forall s | s in steps :: HitBy(s, d, Struck(steps, d)) ==> s.id in Struck(steps, d)
  }

  lemma StruckNext(steps: seq<Step>, n: nat, d: Id)
    requires n < |steps|
    ensures Struck(steps[..n + 1], d) ==
      Struck(steps[..n], d) + if HitBy(steps[n], d, Struck(steps[..n], d)) then {steps[n].id} else {}
  {
    assert steps[..n + 1][..n] == steps[..n];
  }

  /** What the pass makes bad was bad or is reached from something that was. */
  lemma {:induction false} BadIsStruck(g: Graph, steps: seq<Step>, m: Marking, n: nat, x: Id) returns (d: Id)
    requires Covers(g, m) && Describes(g, steps) && n <= |steps|
    requires x in SkipPass(steps[..n], m) && Bad(SkipPass(steps[..n], m)[x])
    ensures d in m && Bad(m[d]) && (x == d || x in Struck(steps[..n], d))
  {
    if n == 0 {
      d := x;
    } else {
      SkipNext(steps, n - 1, m);
      var before, s := SkipPass(steps[..n - 1], m), steps[n - 1];
      if x in before && Bad(before[x]) {
        d := BadIsStruck(g, steps, m, n - 1, x);
      } else {
        var e :| e in s.dependencies && e in before && Bad(before[e]);
        d := BadIsStruck(g, steps, m, n - 1, e);
      }
      StruckNext(steps, n - 1, d);
    }
  }

  /** A step of a consistent map with a bad dependency at some point of the pass has not run. */
  lemma BlockedHasNotRun(g: Graph, outcome: Outcome, m: Marking, s: Step, e: Id)
    requires Covers(g, m) && Consistent(g, outcome, m) && s.id in g && g[s.id] == s.dependencies
    requires e in s.dependencies && e in m && m[e] != Succeeded && m[s.id] != Ready
    ensures m[s.id] == Pending || Bad(m[s.id])
  {
    assert ConsistentAt(g, outcome, m, s.id) && Edge(g, s.id, e);
  }

  /** The same along the pass: it is bad as soon as the pass has come to it. */
  lemma BlockedGoesBad(g: Graph, outcome: Outcome, steps: seq<Step>, m: Marking, n: nat, e: Id)
    requires Covers(g, m) && Consistent(g, outcome, m) && Describes(g, steps) && n < |steps|
    requires forall id :: id in m ==> m[id] != Ready
    requires e in steps[n].dependencies && e in SkipPass(steps[..n], m) && Bad(SkipPass(steps[..n], m)[e])
    ensures var after := SkipPass(steps[..n + 1], m);
            steps[n].id in after && Bad(after[steps[n].id])
  {
    var before, s := SkipPass(steps[..n], m), steps[n];
    assert s in steps;
    assert Describes(g, steps[..n]);
    SkipNext(steps, n, m);
    SkipPassKeeps(g, steps[..n], outcome, m);
    assert m[e] != Succeeded;
    BlockedHasNotRun(g, outcome, m, s, e);
    hide Consistent, SkipPass, Describes, Covers;
    assert HasBadDependency(s, before);
  }

  lemma BadStays(steps: seq<Step>, m: Marking, n: nat, x: Id)
    requires n < |steps| && x in SkipPass(steps[..n], m) && Bad(SkipPass(steps[..n], m)[x])
    ensures x in SkipPass(steps[..n + 1], m) && Bad(SkipPass(steps[..n + 1], m)[x])
  {
    SkipNext(steps, n, m);
    hide SkipPass, HasBadDependency;
  }

  /** In a consistent map what is reached from a bad step is bad after the pass. */
  lemma {:induction false} StruckIsBad(g: Graph, outcome: Outcome, steps: seq<Step>, m: Marking, n: nat, d: Id, x: Id)
    requires Covers(g, m) && Consistent(g, outcome, m) && Describes(g, steps) && n <= |steps|
    requires forall id :: id in m ==> m[id] != Ready
    requires d in m && Bad(m[d]) && (x == d || x in Struck(steps[..n], d))
    ensures x in SkipPass(steps[..n], m) && Bad(SkipPass(steps[..n], m)[x])
  {
    if n > 0 {
      hide Consistent, SkipPass, Covers, Describes, Struck;
      StruckNext(steps, n - 1, d);
      if x == d || x in Struck(steps[..n - 1], d) {
        StruckIsBad(g, outcome, steps, m, n - 1, d, x);
        BadStays(steps, m, n - 1, x);
      } else {
        var e :| e in steps[n - 1].dependencies && (e == d || e in Struck(steps[..n - 1], d));
        StruckIsBad(g, outcome, steps, m, n - 1, d, e);
        BlockedGoesBad(g, outcome, steps, m, n - 1, e);
      }
    }
  }

  lemma {:induction false} StruckReaches(g: Graph, steps: seq<Step>, d: Id, x: Id)
    requires Describes(g, steps) && x in Struck(steps, d)
    ensures Reaches(g, x, d)
    decreases |steps|
  {
    var front, s := steps[..|steps| - 1], steps[|steps| - 1];
    assert Describes(g, front) && s in steps;
    if x in Struck(front, d) {
      StruckReaches(g, front, d, x);
    } else {
      var e :| e in s.dependencies && (e == d || e in Struck(front, d));
      assert Edge(g, x, e);
      if e == d {
        EdgeReaches(g, x, d);
      } else {
        StruckReaches(g, front, d, e);
        EdgeThenReaches(g, x, e, d);
      }
    }
  }

  /** `d` failed after everything it depends on succeeded; nothing else has started. */
  ghost function FailedAlone(g: Graph, d: Id): Marking {
    map id | id in g :: if id == d then Failed else if Reaches(g, d, id) then Succeeded else Pending
  }

  lemma FailedAloneConsistent(g: Graph, d: Id)
    requires Acyclic(g) && d in g && forall x, y :: Edge(g, x, y) ==> y in g
    ensures var m := FailedAlone(g, d);
      && Covers(g, m) && Consistent(g, id => Attempt(id != d, false), m) && forall id :: id in m ==> m[id] != Ready
  {
    var m := FailedAlone(g, d);
    hide Reaches;
    if Reaches(g, d, d) { SelfReachCycles(g, d); }
    forall id | id in g ensures ConsistentAt(g, id => Attempt(id != d, false), m, id) {
      if m[id] != Pending {
        forall y | Edge(g, id, y) ensures m[y] == Succeeded {
          if id == d { EdgeReaches(g, d, y); } else { ReachesThenEdge(g, d, id, y); }
        }
      }
    }
  }

  lemma SpreadGap(steps: seq<Step>, d: Id, s: Step) returns (m: Marking)
    requires UniqueIds(steps) && Known(steps) && Acyclic(GraphOf(steps)) && d in Ids(steps) && s in steps
    requires HitBy(s, d, Struck(steps, d)) && s.id !in Struck(steps, d)
    ensures Covers(GraphOf(steps), m) && Undisturbed(GraphOf(steps), m) && !Closed(steps, SkipPass(steps, m))
  {
    hide Consistent, Covers, Struck, GraphOf, Acyclic, UniqueIds, Known, SkipPass, Closed;
    var g := GraphOf(steps);
    GraphDescribes(steps);
    GraphClosed(steps);
    m := FailedAlone(g, d);
    FailedAloneConsistent(g, d);
    var y :| y in s.dependencies && (y == d || y in Struck(steps, d));
    GapStaysOpen(g, steps, d, s, y, m);
    OpenMeans(steps, s, SkipPass(steps, m));
  }

  lemma GapStaysOpen(g: Graph, steps: seq<Step>, d: Id, s: Step, y: Id, m: Marking)
    requires Acyclic(g) && Covers(g, m) && Describes(g, steps) && s in steps && d in g && m == FailedAlone(g, d)
    requires Consistent(g, id => Attempt(id != d, false), m) && forall id :: id in m ==> m[id] != Ready
    requires y in s.dependencies && (y == d || y in Struck(steps, d)) && s.id !in Struck(steps, d)
    ensures !ClosedAt(s, SkipPass(steps, m))
  {
    assert m[d] == Failed;
    hide Consistent, Covers, Struck, Acyclic, SkipPass, Describes, FailedAlone, Reaches;
    assert steps[..|steps|] == steps;
    HitStaysPending(g, steps, d, s, y);
    StruckIsBad(g, id => Attempt(id != d, false), steps, m, |steps|, d, y);
    NotStruckStays(g, steps, d, s, m);
    assert HasBadDependency(s, SkipPass(steps, m));
  }

  lemma OpenMeans(steps: seq<Step>, s: Step, m: Marking)
    requires s in steps && !ClosedAt(s, m)
    ensures !Closed(steps, m)
  {
  }

  /** The step with the hit dependency is neither the failed one nor one that it needed. */
  lemma HitStaysPending(g: Graph, steps: seq<Step>, d: Id, s: Step, y: Id)
    requires Acyclic(g) && Describes(g, steps) && s in steps
    requires y in s.dependencies && (y == d || y in Struck(steps, d))
    ensures s.id != d && !Reaches(g, d, s.id)
  {
    assert Edge(g, s.id, y);
    if y == d {
      EdgeReaches(g, s.id, d);
    } else {
      StruckReaches(g, steps, d, y);
      EdgeThenReaches(g, s.id, y, d);
    }
    hide Reaches;
    if s.id == d { SelfReachCycles(g, d); }
    if Reaches(g, d, s.id) {
      ReachesTransitive(g, d, s.id, d);
      SelfReachCycles(g, d);
    }
  }

  lemma NotStruckStays(g: Graph, steps: seq<Step>, d: Id, s: Step, m: Marking)
    requires Covers(g, m) && Describes(g, steps) && s in steps && d in g && m == FailedAlone(g, d)
    requires s.id !in Struck(steps, d) && s.id != d && !Reaches(g, d, s.id)
    ensures s.id in SkipPass(steps, m) && SkipPass(steps, m)[s.id] == Pending
  {
    hide Struck, Reaches;
    SkipPassKeeps(g, steps, _ => Attempt(true, false), m);
    assert steps[..|steps|] == steps;
    var m' := SkipPass(steps, m);
    assert m[s.id] == Pending;
    if Bad(m'[s.id]) {
      var e := BadIsStruck(g, steps, m, |steps|, s.id);
    }
  }

  /** The state maps of runs without cancellation, READY steps aside. */
  ghost predicate Undisturbed(g: Graph, m: Marking)
    requires Covers(g, m)
  {
    (exists outcome :: Consistent(g, outcome, m)) && forall id :: id in m ==> m[id] != Ready
  }

  /** One pass closes every state map of an undisturbed run exactly for the plans in which it reaches, whichever step goes
      bad, every step with a dependency it reaches. */
  lemma UndisturbedPassClosesIff(steps: seq<Step>)
    requires UniqueIds(steps) && Known(steps) && Acyclic(GraphOf(steps))
    ensures (forall m :: Covers(GraphOf(steps), m) && Undisturbed(GraphOf(steps), m) ==> Closed(steps, SkipPass(steps, m)))
       <==> SpreadsInOnePass(steps)
  {
    hide GraphOf, Acyclic, UniqueIds, Known, Covers, SkipPass, Closed, Undisturbed, Struck, HitBy;
    if SpreadsInOnePass(steps) {
      GraphDescribes(steps);
      assert GraphOf(steps).Keys <= (set id | id in Ids(steps));
      forall m | Covers(GraphOf(steps), m) && Undisturbed(GraphOf(steps), m) ensures Closed(steps, SkipPass(steps, m)) {
        SpreadCloses(GraphOf(steps), steps, m);
      }
    } else {
      var d :| d in Ids(steps) && !Spreads(steps, d);
      var s :| s in steps && HitBy(s, d, Struck(steps, d)) && s.id !in Struck(steps, d);
      var m := SpreadGap(steps, d, s);
    }
  }

  lemma SpreadCloses(g: Graph, steps: seq<Step>, m: Marking)
    requires Covers(g, m) && Undisturbed(g, m) && Describes(g, steps) && g.Keys <= (set id | id in Ids(steps))
    requires SpreadsInOnePass(steps)
    ensures Closed(steps, SkipPass(steps, m))
  {
    var outcome :| Consistent(g, outcome, m);
    var m' := SkipPass(steps, m);
    SkipPassKeeps(g, steps, outcome, m);
    forall s | s in steps ensures ClosedAt(s, m') { SpreadClosesAt(g, outcome, steps, m, s); }
  }

  lemma SpreadClosesAt(g: Graph, outcome: Outcome, steps: seq<Step>, m: Marking, s: Step)
    requires Covers(g, m) && Consistent(g, outcome, m) && Describes(g, steps) && g.Keys <= (set id | id in Ids(steps))
    requires (forall id :: id in m ==> m[id] != Ready) && SpreadsInOnePass(steps) && s in steps
    ensures ClosedAt(s, SkipPass(steps, m))
  {
    hide Consistent, Struck, SkipPass, Describes;
    PassShape(g, outcome, steps, m, s);
    assert steps[..|steps|] == steps;
    var m' := SkipPass(steps, m);
    if HasBadDependency(s, m') {
      var x :| x in s.dependencies && x in m' && Bad(m'[x]);
      var d := BadIsStruck(g, steps, m, |steps|, x);
      assert Spreads(steps, d) && HitBy(s, d, Struck(steps, d));
      StruckIsBad(g, outcome, steps, m, |steps|, d, s.id);
    }
  }

  lemma PassShape(g: Graph, outcome: Outcome, steps: seq<Step>, m: Marking, s: Step)
    requires Covers(g, m) && Describes(g, steps) && s in steps
    ensures Covers(g, SkipPass(steps, m)) && s.id in g && g[s.id] == s.dependencies
    ensures forall id :: id in m && m[id] != Pending ==> SkipPass(steps, m)[id] == m[id]
  {
    hide SkipPass, Consistent;
    SkipPassKeeps(g, steps, outcome, m);
  }

  lemma LagPass(c: Step, b: Step, a: Step, m: Marking)
    requires c == Step("c", ["b"]) && b == Step("b", ["a"]) && a == Step("a", [])
    requires m == map["c" := Pending, "b" := Pending, "a" := Failed]
    ensures SkipPass([c, b, a], m) == m["b" := Skipped]
  {
    assert [c, b, a][..2] == [c, b] && [c, b][..1] == [c] && [c][..0] == [];
    assert SkipStep(c, m) == m;
    assert SkipPass([c], m) == m;
    assert "a" in b.dependencies;
    var m' := m["b" := Skipped];
    assert SkipStep(b, m) == m' && SkipStep(a, m') == m';
    assert SkipPass([c, b], m) == m';
  }

  lemma LagGraph(steps: seq<Step>, c: Step, b: Step, a: Step)
    requires c == Step("c", ["b"]) && b == Step("b", ["a"]) && a == Step("a", []) && steps == [c, b, a]
    ensures UniqueIds(steps) && Acyclic(GraphOf(steps))
    ensures GraphOf(steps) == map["c" := ["b"], "b" := ["a"], "a" := []]
  {
    assert steps[..2] == [c, b] && [c, b][..1] == [c] && [c][..0] == [];
    assert GraphOf([]) == map[];
    assert GraphOf([c]) == map["c" := ["b"]];
    assert GraphOf([c, b]) == map["c" := ["b"], "b" := ["a"]];
    RankMeansAcyclic(GraphOf(steps), map["c" := 2, "b" := 1, "a" := 0]);
  }

  class TaskGraph {
    const nodes: seq<GraphNode>
    const byId: map<Id, GraphNode>
    ghost const steps: seq<Step>

    ghost predicate Valid() {
      UniqueIds(steps) && Known(steps) && Indexed(nodes, byId, steps)
    }

    static ghost predicate Indexed(nodes: seq<GraphNode>, byId: map<Id, GraphNode>, steps: seq<Step>) {
      && |nodes| == |steps|
      && (forall i :: 0 <= i < |nodes| ==> nodes[i].step == steps[i])
      && (forall id :: id in byId <==> id in Ids(steps))
      && (forall n :: n in nodes ==> n.step.id in byId && byId[n.step.id] == n)
      && (forall id :: id in byId ==> byId[id] in nodes && byId[id].step.id == id)
    }

    ghost function Marking(): (m: Marking)
      requires Valid()
      reads nodes
      ensures Covers(GraphOf(steps), m)
    {
      GraphClosed(steps);
      map id | id in byId :: byId[id].state
    }

    constructor (nodes: seq<GraphNode>, byId: map<Id, GraphNode>, ghost steps: seq<Step>)
      requires UniqueIds(steps) && Known(steps) && Indexed(nodes, byId, steps)
      ensures Valid() && this.nodes == nodes && this.byId == byId && this.steps == steps
    {
      this.nodes := nodes;
      this.byId := byId;
      this.steps := steps;
    }

    /** Builds a graph of pending nodes exactly from the plans with unique ids, known dependencies and no cycle. */
    static method FromPlan(plan: seq<Step>) returns (r: Result<TaskGraph>)
      ensures r.Success? <==> UniqueIds(plan) && Known(plan) && Acyclic(GraphOf(plan))
      ensures r.Success? ==> r.value.Valid() && r.value.steps == plan && fresh(r.value.nodes)
      ensures r.Success? ==> forall n :: n in r.value.nodes ==> n.Untouched()
    {
      var ordered := Order(plan);
      if ordered.Failure? { return Failure(ordered.error); }
      SetSizeMeansUnique(Ids(plan));
      if |set id | id in Ids(plan)| != |plan| { return Failure(DuplicateIds); }
      var nodes, byId := MakeNodes(plan);
      var graph := new TaskGraph(nodes, byId, plan);
      return Success(graph);
    }

    static method MakeNodes(plan: seq<Step>) returns (nodes: seq<GraphNode>, byId: map<Id, GraphNode>)
      requires UniqueIds(plan)
      ensures Indexed(nodes, byId, plan) && fresh(nodes)
      ensures forall n :: n in nodes ==> n.Untouched()
    {
      nodes, byId := [], map[];
      for i := 0 to |plan|
        invariant |nodes| == i && fresh(nodes)
        invariant forall n :: n in nodes ==> n.Untouched()
        invariant forall k :: 0 <= k < i ==> nodes[k].step == plan[k]
        invariant forall id :: id in byId <==> id in Ids(plan)[..i]
        invariant forall n :: n in nodes ==> n.step.id in byId && byId[n.step.id] == n
        invariant forall id :: id in byId ==> byId[id] in nodes && byId[id].step.id == id
      {
        assert Ids(plan)[..i + 1] == Ids(plan)[..i] + [plan[i].id];
        assert Ids(plan)[i] !in Ids(plan)[..i];
        var node := new GraphNode(plan[i]);
        nodes := nodes + [node];
        byId := byId[plan[i].id := node];
      }
      assert Ids(plan)[..|plan|] == Ids(plan);
    }

    /** Changing one node changes the state map at its id and nowhere else. */
    twostate lemma NodeMoved(id: Id)
      requires Valid() && id in byId
      requires forall n :: n in nodes && n != byId[id] ==> n.state == old(n.state)
      ensures Marking() == old(Marking())[id := byId[id].state]
    {
      hide UniqueIds, Known;
      forall x | x in byId && x != id ensures byId[x].state == old(byId[x].state) {
        assert byId[x].step.id != byId[id].step.id;
      }
    }

    ghost function Lookup(ids: seq<Id>): seq<GraphNode>
      requires forall id :: id in ids ==> id in byId
    {
      seq(|ids|, k requires 0 <= k < |ids| => byId[ids[k]])
    }

    lemma LookupGrows(ids: seq<Id>, i: nat)
      requires Valid() && i < |nodes| && forall id :: id in ids ==> id in byId
      ensures steps[i].id in byId && Lookup(ids + [steps[i].id]) == Lookup(ids) + [nodes[i]]
    {
      assert nodes[i] in nodes;
    }

    predicate NodeReady(node: GraphNode)
      reads node, byId.Values
    {
      node.state == Pending && forall d | d in node.step.dependencies :: d in byId && byId[d].state == Succeeded
    }

    predicate NodeBlocked(node: GraphNode)
      reads node, byId.Values
    {
      node.state == Pending && exists d | d in node.step.dependencies :: d in byId && Bad(byId[d].state)
    }

    /** What a node sees of its dependencies is what the state map says about them. */
    lemma Sees(i: nat)
      requires Valid() && i < |nodes|
      ensures nodes[i].step == steps[i] && byId[steps[i].id] == nodes[i]
      ensures NodeReady(nodes[i]) == IsReady(steps[i], Marking())
      ensures NodeBlocked(nodes[i]) == (Marking()[steps[i].id] == Pending && HasBadDependency(steps[i], Marking()))
      ensures ReadyIds(steps[..i + 1], Marking())
           == ReadyIds(steps[..i], Marking()) + if NodeReady(nodes[i]) then [steps[i].id] else []
    {
      assert nodes[i] in nodes;
      assert steps[..i + 1][..i] == steps[..i];
    }

    lemma NodesReady()
      requires Valid()
      ensures forall id :: id in ReadyIds(steps, Marking()) ==> id in byId
      ensures forall n :: n in Lookup(ReadyIds(steps, Marking())) <==> n in nodes && NodeReady(n)
    {
      ghost var ids := ReadyIds(steps, Marking());
      ReadyIdsExact(steps, Marking());
      hide ReadyIds, IsReady, NodeReady, Marking, UniqueIds, Known;
      forall n ensures n in Lookup(ids) <==> n in nodes && NodeReady(n) {
        if n in nodes {
          var i :| 0 <= i < |nodes| && nodes[i] == n;
          Sees(i);
          if steps[i].id in ids {
            var k :| 0 <= k < |ids| && ids[k] == steps[i].id;
            assert Lookup(ids)[k] == n;
          }
        }
        if n in Lookup(ids) {
          var k :| 0 <= k < |ids| && Lookup(ids)[k] == n;
          assert n == byId[ids[k]] && ids[k] in ids;
        }
      }
    }

    method Ready() returns (ready: seq<GraphNode>)
      requires Valid()
      ensures forall id :: id in ReadyIds(steps, Marking()) ==> id in byId
      ensures ready == Lookup(ReadyIds(steps, Marking()))
      ensures forall n :: n in ready <==> n in nodes && NodeReady(n)
      ensures InPlanOrder(steps, ReadyIds(steps, Marking()))
    {
      ReadyInOrder(steps, Marking());
      NodesReady();
      ready := [];
      ghost var ids: seq<Id> := [];
      for i := 0 to |nodes|
        invariant ids == ReadyIds(steps[..i], Marking())
        invariant forall id :: id in ids ==> id in byId
        invariant ready == Lookup(ids)
      {
        Sees(i);
        LookupGrows(ids, i);
        if NodeReady(nodes[i]) {
          ready := ready + [nodes[i]];
          ids := ids + [steps[i].id];
        }
      }
      assert steps[..|nodes|] == steps;
    }

    method SkipIfBlocked(i: nat) returns (skipped: bool)
      requires Valid() && i < |nodes|
      modifies {nodes[i]}`state
      ensures Marking() == SkipStep(steps[i], old(Marking()))
      ensures skipped <==> Marking() != old(Marking())
      ensures skipped <==>
        && old(nodes[i].state) == Pending
        && (exists d ::
              && d in steps[i].dependencies && d in byId
              && old(byId[d].state) in {Failed, TimedOut, StepState.Cancelled, StepState.Skipped})
      ensures nodes[i].state == if skipped then StepState.Skipped else old(nodes[i].state)
    {
      Sees(i);
      if !NodeBlocked(nodes[i]) { return false; }
      var ok := nodes[i].Transition(Skipped);
      NodeMoved(steps[i].id);
      assert Marking()[steps[i].id] == Skipped;
      return true;
    }

    /** One node of the pass over all of them. */
    method MarkOne(i: nat, ghost m: Marking, skipped0: seq<GraphNode>, ghost ids0: seq<Id>)
      returns (skipped: seq<GraphNode>, ghost ids: seq<Id>)
      requires Valid() && i < |nodes| && Marking() == SkipPass(steps[..i], m) && ids0 == SkippedIds(steps[..i], m)
      requires (forall id :: id in ids0 ==> id in byId) && skipped0 == Lookup(ids0)
      modifies {nodes[i]}`state
      ensures Marking() == SkipPass(steps[..i + 1], m) && ids == SkippedIds(steps[..i + 1], m)
      ensures (forall id :: id in ids ==> id in byId) && skipped == Lookup(ids)
    {
      hide Marking, SkipPass, SkipStep, SkippedIds, Lookup, Valid, Bad;
      skipped, ids := skipped0, ids0;
      Facts();
      SkipNext(steps, i, m);
      LookupGrows(ids, i);
      var did := SkipIfBlocked(i);
      if did {
        skipped := skipped + [nodes[i]];
        ids := ids + [steps[i].id];
      }
    }

    method MarkUnsatisfiable() returns (skipped: seq<GraphNode>)
      requires Valid()
      modifies nodes`state
      ensures Marking() == SkipPass(steps, old(Marking()))
      ensures forall id :: id in SkippedIds(steps, old(Marking())) ==> id in byId
      ensures skipped == Lookup(SkippedIds(steps, old(Marking())))
      ensures InPlanOrder(steps, SkippedIds(steps, old(Marking())))
      ensures ExactlySkipped(old(Marking()), Marking(), SkippedIds(steps, old(Marking())))
    {
      SkippedExactly(steps, Marking());
      hide Marking, SkipPass, SkipStep, SkippedIds, Lookup, Valid, InPlanOrder, ExactlySkipped;
      skipped := [];
      ghost var m := Marking();
      ghost var ids: seq<Id> := [];
      NothingPassed(m);
      Facts();
      for i := 0 to |nodes|
        invariant Valid() && Marking() == SkipPass(steps[..i], m)
        invariant ids == SkippedIds(steps[..i], m)
        invariant forall id :: id in ids ==> id in byId
        invariant skipped == Lookup(ids)
      {
        skipped, ids := MarkOne(i, m, skipped, ids);
      }
      assert steps[..|nodes|] == steps;
    }

    lemma NothingPassed(m: Marking)
      ensures SkipPass(steps[..0], m) == m && SkippedIds(steps[..0], m) == [] && Lookup([]) == []
    {
    }

    lemma StateOf(node: GraphNode)
      requires Valid() && node in nodes
      ensures node.step.id in Marking() && Marking()[node.step.id] == node.state && byId[node.step.id] == node
    {
    }

    method States() returns (m: Marking)
      requires Valid()
      ensures m == Marking()
    {
      m := map id | id in byId :: byId[id].state;
    }

    /** Restoring a snapshot gives back every state but the running ones, which become pending. */
    lemma SnapshotKeeps(snapshot: Snapshot)
      requires Valid() && snapshot.Keys == byId.Keys
      requires forall id :: id in byId ==>
        snapshot[id] == Entry(byId[id].state, byId[id].attempts, byId[id].interrupted)
      ensures RestoredMarking(steps, snapshot)
           == map id | id in Marking() :: if Marking()[id] == Running then Pending else Marking()[id]
    {
    }

    lemma FreshMarking()
      requires Valid() && forall n :: n in nodes ==> n.Untouched()
      ensures forall id :: id in Marking() ==> Marking()[id] == Pending
    {
    }

    lemma StepAt(i: nat)
      requires Valid() && i < |nodes|
      ensures |nodes| == |steps| && nodes[i].step == steps[i]
    {
    }

    lemma Facts()
      requires Valid()
      ensures UniqueIds(steps) && Known(steps) && |nodes| == |steps|
    {
    }

    /** Node by step id. */
    method Get(id: Id) returns (node: GraphNode)
      requires Valid() && id in Marking()
      ensures node in nodes && node.step.id == id && node == byId[id]
    {
      node := byId[id];
    }

    lemma NodesCover(ids: set<Id>)
      requires Valid() && forall k :: 0 <= k < |nodes| ==> nodes[k].step.id in ids
      ensures Marking().Keys <= ids
    {
    }

    lemma StepsDescribed()
      requires Valid()
      ensures Describes(GraphOf(steps), steps)
    {
      GraphDescribes(steps);
    }

    lemma StuckMeans()
      requires Valid()
      ensures (exists n | n in nodes :: n.state == Pending || n.state == StepState.Ready)
         <==> InState(Marking(), Pending) + InState(Marking(), StepState.Ready) != {}
    {
      forall n | n in nodes ensures Marking()[n.step.id] == n.state { StateOf(n); }
      if exists n | n in nodes :: n.state == Pending || n.state == StepState.Ready {
        var n :| n in nodes && (n.state == Pending || n.state == StepState.Ready);
        assert n.step.id in InState(Marking(), Pending) + InState(Marking(), StepState.Ready);
      }
    }

    method Done() returns (done: bool)
      requires Valid()
      ensures done <==> AllTerminal(Marking())
    {
      done := forall n | n in nodes :: Terminal(n.state);
      assert forall n :: n in nodes ==> Marking()[n.step.id] == n.state;
    }

    method TakeSnapshot() returns (snapshot: Snapshot)
      requires Valid()
      ensures snapshot.Keys == byId.Keys
      ensures forall id :: id in byId ==>
        snapshot[id] == Entry(byId[id].state, byId[id].attempts, byId[id].interrupted)
    {
      snapshot := map id | id in byId :: Entry(byId[id].state, byId[id].attempts, byId[id].interrupted);
    }

    /** Rebuilds from a plan and a snapshot, damaged or not: running and unreadable nodes come back
        pending and flagged, every other entry comes back as saved. */
    static method Restore(plan: seq<Step>, snapshot: Snapshot) returns (r: Result<TaskGraph>)
      ensures r.Success? <==> UniqueIds(plan) && Known(plan) && Acyclic(GraphOf(plan))
      ensures r.Success? ==> r.value.Valid() && r.value.steps == plan && fresh(r.value.nodes)
      ensures r.Success? ==> r.value.Marking() == RestoredMarking(plan, snapshot)
      ensures r.Success? ==> forall id :: id in r.value.byId ==>
        if id in snapshot then r.value.byId[id].Carries(snapshot[id]) else r.value.byId[id].Untouched()
    {
      r := FromPlan(plan);
      if r.Failure? { return; }
      var graph := r.value;
      var todo := snapshot.Keys;
      while todo != {}
        invariant todo <= snapshot.Keys
        invariant graph.LoadedExcept(snapshot, todo)
        decreases |todo|
      {
        var id :| id in todo;
        todo := todo - {id};
        if id in graph.byId { graph.LoadNode(snapshot, todo, id); }
      }
      graph.LoadedMarking(snapshot);
    }

    ghost predicate LoadedExcept(snapshot: Snapshot, todo: set<Id>)
      reads byId.Values
    {
      forall id :: id in byId ==>
        if id in snapshot && id !in todo then byId[id].Carries(snapshot[id]) else byId[id].Untouched()
    }

    method LoadNode(snapshot: Snapshot, ghost todo: set<Id>, id: Id)
      requires Valid() && id in byId && id in snapshot && id !in todo
      requires LoadedExcept(snapshot, todo + {id})
      modifies byId[id]
      ensures LoadedExcept(snapshot, todo)
    {
      assert forall x :: x in byId && x != id ==> byId[x].step.id != byId[id].step.id;
      byId[id].Load(snapshot[id]);
    }

    lemma LoadedMarking(snapshot: Snapshot)
      requires Valid() && LoadedExcept(snapshot, {})
      ensures Marking() == RestoredMarking(steps, snapshot)
    {
      hide UniqueIds, Known, GraphOf, Covers;
      forall id | id in byId ensures byId[id].state == RestoredState(snapshot, id) {
        assert if id in snapshot then byId[id].Carries(snapshot[id]) else byId[id].Untouched();
      }
      hide GraphNode.Carries, GraphNode.Untouched, RestoredState, LoadedExcept;
      assert Marking().Keys == byId.Keys == RestoredMarking(steps, snapshot).Keys;
    }
  }
}
