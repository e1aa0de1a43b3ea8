/** Plan validation: dependency checks, Kahn's ordering and the id rules of the plan gate. */
module Validator {
  import opened Graphs
  import opened Options

  datatype Step = Step(id: Id, dependencies: seq<Id>)

  datatype PlanError =
    | NoSteps
    | TooManySteps
    | MissingId
    | DuplicateIds
    | SelfDependency(step: Id)
    | UnknownDependency(step: Id, dependency: Id)
    | DependencyCycle

  datatype Result<+T> = Success(value: T) | Failure(error: PlanError)

  function Ids(steps: seq<Step>): (ids: seq<Id>) {
    seq(|steps|, i requires 0 <= i < |steps| => steps[i].id)
  }

  ghost predicate UniqueIds(steps: seq<Step>) {
    NoDuplicates(Ids(steps))
  }

  /** Every dependency names a step of the plan. */
  ghost predicate Known(steps: seq<Step>) {
    forall i, d :: 0 <= i < |steps| && d in steps[i].dependencies ==> d in Ids(steps)
  }

  /** The dependency lists by id; a later step with the same id wins. */
  ghost function GraphOf(steps: seq<Step>): (g: Graph)
    ensures forall id :: id in g <==> id in Ids(steps)
  {
    if steps == [] then
      map[]
    else
      var last := steps[|steps| - 1];
      var front := steps[..|steps| - 1];
      assert Ids(steps) == Ids(front) + [last.id];
      GraphOf(front)[last.id := last.dependencies]
  }

  lemma {:induction false} GraphOfStep(steps: seq<Step>, i: nat)
    requires UniqueIds(steps) && i < |steps|
    ensures steps[i].id in GraphOf(steps) && GraphOf(steps)[steps[i].id] == steps[i].dependencies
  {
    var front := steps[..|steps| - 1];
    assert Ids(steps) == Ids(front) + [steps[|steps| - 1].id];
    if i < |front| {
      forall a, b | 0 <= a < b < |front| ensures Ids(front)[a] != Ids(front)[b] {
        assert Ids(front)[a] == Ids(steps)[a] && Ids(front)[b] == Ids(steps)[b];
      }
      GraphOfStep(front, i);
      assert Ids(steps)[i] != Ids(steps)[|front|];
    }
  }

  lemma GraphClosed(steps: seq<Step>)
    requires UniqueIds(steps) && Known(steps)
    ensures forall x, d :: Edge(GraphOf(steps), x, d) ==> d in GraphOf(steps)
  {
    forall x, d | Edge(GraphOf(steps), x, d) ensures d in GraphOf(steps) {
      var i := IndexOf(Ids(steps), x);
      GraphOfStep(steps, i);
    }
  }

  // ---- dependency check ----------------------------------------------------------

  /** Dependency `k` of step `i` names the step itself or no step at all. */
  ghost predicate BadAt(steps: seq<Step>, i: nat, k: nat)
    requires i < |steps| && k < |steps[i].dependencies|
  {
    steps[i].dependencies[k] == steps[i].id || steps[i].dependencies[k] !in Ids(steps)
  }

  /** `e` reports the first bad dependency in reading order. */
  ghost predicate FirstBad(steps: seq<Step>, e: PlanError) {
    exists i, k :: 0 <= i < |steps| && 0 <= k < |steps[i].dependencies|
      && BadAt(steps, i, k)
      && NoBadBefore(steps, i, k)
      && e == (if steps[i].dependencies[k] == steps[i].id then SelfDependency(steps[i].id)
               else UnknownDependency(steps[i].id, steps[i].dependencies[k]))
  }

  ghost predicate NoBadBefore(steps: seq<Step>, i: nat, k: nat) {
    forall a, b :: 0 <= a < |steps| && 0 <= b < |steps[a].dependencies| && (a < i || (a == i && b < k))
      ==> !BadAt(steps, a, b)
  }

  method CheckDependencies(steps: seq<Step>) returns (bad: Option<PlanError>)
    ensures bad.None? <==> NoBadBefore(steps, |steps|, 0)
    ensures bad.Some? ==> FirstBad(steps, bad.value)
  {
    for i := 0 to |steps|
      invariant NoBadBefore(steps, i, 0)
    {
      var deps := steps[i].dependencies;
      for k := 0 to |deps|
        invariant NoBadBefore(steps, i, k)
      {
        if deps[k] == steps[i].id {
          assert BadAt(steps, i, k);
          return Some(SelfDependency(steps[i].id));
        }
        if deps[k] !in Ids(steps) {
          assert BadAt(steps, i, k);
          return Some(UnknownDependency(steps[i].id, deps[k]));
        }
      }
    }
    return None;
  }

  // ---- the counters Kahn's algorithm works on ---------------------------------------

  type Incoming = map<Id, int>
  type Children = map<Id, seq<Id>>

  ghost predicate IndexShape(steps: seq<Step>, incoming: Incoming, children: Children) {
    && (forall id :: id in incoming <==> id in Ids(steps))
    && (forall id :: id in children <==> id in Ids(steps))
    && (forall id, c :: id in children && c in children[id] ==> c in Ids(steps))
  }

  /** Counters hold one entry for each listed dependency, repeated ones included. */
  ghost predicate IndexCounts(g: Graph, incoming: Incoming, children: Children)
    requires incoming.Keys == g.Keys && children.Keys == g.Keys
  {
    && (forall x :: x in g ==> incoming[x] == |g[x]|)
    && (forall x, d :: x in g && d in g ==> multiset(children[d])[x] == multiset(g[x])[d])
  }

  /** The counters after the first `n` steps. */
  ghost predicate CountedUpTo(steps: seq<Step>, n: nat, incoming: Incoming, children: Children)
    requires IndexShape(steps, incoming, children)
  {
    forall j :: 0 <= j < |steps| ==> CountedStep(steps, j, n, incoming, children)
  }

  ghost predicate CountedStep(steps: seq<Step>, j: nat, n: nat, incoming: Incoming, children: Children)
    requires j < |steps| && IndexShape(steps, incoming, children)
  {
    var id, deps := Ids(steps)[j], steps[j].dependencies;
    && incoming[id] == (if j < n then |deps| else 0)
    && forall d :: d in children ==> multiset(children[d])[id] == if j < n then multiset(deps)[d] else 0
  }

  /** The child lists with `id` entered once for each of `deps`. */
  ghost predicate Entered(children0: Children, children: Children, id: Id, deps: seq<Id>)
    requires children.Keys == children0.Keys
  {
    forall d, x :: d in children ==>
      multiset(children[d])[x] == multiset(children0[d])[x] + if x == id then multiset(deps)[d] else 0
  }

  lemma EnteredMore(children0: Children, children: Children, id: Id, deps: seq<Id>, dep: Id)
    requires children.Keys == children0.Keys && Entered(children0, children, id, deps) && dep in children
    ensures Entered(children0, children[dep := children[dep] + [id]], id, deps + [dep])
  {
  }

  /** Enters the dependencies of one step. */
  method CountStep(steps: seq<Step>, i: nat, incoming0: Incoming, children0: Children)
    returns (incoming: Incoming, children: Children)
    requires i < |steps| && IndexShape(steps, incoming0, children0)
    requires forall d :: d in steps[i].dependencies ==> d in Ids(steps)
    ensures IndexShape(steps, incoming, children)
    ensures steps[i].id == Ids(steps)[i]
    ensures incoming == incoming0[steps[i].id := incoming0[steps[i].id] + |steps[i].dependencies|]
    ensures forall d, x :: d in children ==>
      multiset(children[d])[x] ==
      multiset(children0[d])[x] + if x == steps[i].id then multiset(steps[i].dependencies)[d] else 0
  {
    incoming, children := incoming0, children0;
    var id, deps := steps[i].id, steps[i].dependencies;
    assert id == Ids(steps)[i];
    for k := 0 to |deps|
      invariant IndexShape(steps, incoming, children)
      invariant incoming == incoming0[id := incoming0[id] + k]
      invariant children.Keys == children0.Keys && Entered(children0, children, id, deps[..k])
    {
      hide Entered;
      assert deps[..k + 1] == deps[..k] + [deps[k]];
      EnteredMore(children0, children, id, deps[..k], deps[k]);
      children := children[deps[k] := children[deps[k]] + [id]];
      incoming := incoming[id := incoming[id] + 1];
    }
    assert deps[..|deps|] == deps;
  }

  method BuildIndex(steps: seq<Step>) returns (incoming: Incoming, children: Children)
    requires Known(steps)
    ensures IndexShape(steps, incoming, children)
    ensures UniqueIds(steps) ==> IndexCounts(GraphOf(steps), incoming, children)
  {
    hide UniqueIds, GraphOf;
    incoming := map id | id in Ids(steps) :: 0;
    children := map id | id in Ids(steps) :: [];
    for i := 0 to |steps|
      invariant IndexShape(steps, incoming, children)
      invariant UniqueIds(steps) ==> CountedUpTo(steps, i, incoming, children)
    {
      ghost var incoming0, children0 := incoming, children;
      incoming, children := CountStep(steps, i, incoming, children);
      if UniqueIds(steps) { CountedNext(steps, i, incoming0, children0, incoming, children); }
    }
    if UniqueIds(steps) { CountedMeansIndexed(steps, incoming, children); }
  }

  lemma CountedNext(steps: seq<Step>, i: nat, incoming0: Incoming, children0: Children, incoming: Incoming, children: Children)
    requires UniqueIds(steps) && i < |steps|
    requires IndexShape(steps, incoming0, children0) && IndexShape(steps, incoming, children)
    requires CountedUpTo(steps, i, incoming0, children0) && steps[i].id == Ids(steps)[i]
    requires incoming == incoming0[steps[i].id := incoming0[steps[i].id] + |steps[i].dependencies|]
    requires forall d, x :: d in children ==>
      multiset(children[d])[x] ==
      multiset(children0[d])[x] + if x == steps[i].id then multiset(steps[i].dependencies)[d] else 0
    ensures CountedUpTo(steps, i + 1, incoming, children)
  {
    var n := i + 1;
    forall j | 0 <= j < |steps| ensures CountedStep(steps, j, n, incoming, children) {
      assert CountedStep(steps, j, i, incoming0, children0);
      assert j != i ==> Ids(steps)[j] != Ids(steps)[i];
    }
  }

  lemma CountedMeansIndexed(steps: seq<Step>, incoming: Incoming, children: Children)
    requires UniqueIds(steps) && IndexShape(steps, incoming, children)
    requires CountedUpTo(steps, |steps|, incoming, children)
    ensures IndexCounts(GraphOf(steps), incoming, children)
  {
    var g := GraphOf(steps);
    forall x | x in g
      ensures incoming[x] == |g[x]|
      ensures forall d :: d in g ==> multiset(children[d])[x] == multiset(g[x])[d]
    {
      var j := IndexOf(Ids(steps), x);
      GraphOfStep(steps, j);
      assert CountedStep(steps, j, |steps|, incoming, children);
    }
  }

  // ---- Kahn's algorithm -----------------------------------------------------------------

  /** Dependencies, counted with repetition, that are not in `done`. */
  ghost function Missing(deps: seq<Id>, done: seq<Id>): nat {
    if deps == [] then 0
    else Missing(deps[1..], done) + if deps[0] in done then 0 else 1
  }

  lemma {:induction false} MissingAfter(deps: seq<Id>, done: seq<Id>, c: Id)
    requires c !in done
    ensures Missing(deps, done + [c]) == Missing(deps, done) - multiset(deps)[c]
  {
    if deps != [] {
      assert deps == [deps[0]] + deps[1..];
      MissingAfter(deps[1..], done, c);
    }
  }

  lemma {:induction false} MissingZero(deps: seq<Id>, done: seq<Id>)
    ensures Missing(deps, done) == 0 <==> forall d :: d in deps ==> d in done
  {
    if deps != [] {
      assert deps == [deps[0]] + deps[1..];
      MissingZero(deps[1..], done);
    }
  }

  lemma {:induction false} MissingNone(deps: seq<Id>)
    ensures Missing(deps, []) == |deps|
  {
    if deps != [] { MissingNone(deps[1..]); }
  }

  ghost predicate Placed(g: Graph, o: seq<Id>, q: seq<Id>) {
    && NoDuplicates(o + q)
    && (forall x :: x in o + q ==> x in g)
    && (forall i, d :: 0 <= i < |o| && Edge(g, o[i], d) ==> d in o[..i])
  }

  /** Loop invariant: `o` is output, `q` is the queue of ids with nothing left to wait for. */
  ghost predicate KahnInv(g: Graph, o: seq<Id>, q: seq<Id>, incoming: Incoming) {
    && incoming.Keys == g.Keys
    && Placed(g, o, q)
    && (forall x :: x in g ==> incoming[x] == Missing(g[x], o))
    && (forall x :: x in g ==> (incoming[x] == 0 <==> x in o || x in q))
  }

  /** The same in the middle of the child loop of `c`, after the first `j` of its children. */
  ghost predicate ChildInv(g: Graph, o: seq<Id>, c: Id, children: seq<Id>, j: nat, q: seq<Id>, incoming: Incoming)
    requires j <= |children|
  {
    && incoming.Keys == g.Keys
    && Placed(g, o + [c], q)
    && (forall x :: x in g ==> incoming[x] == Missing(g[x], o) - multiset(children[..j])[x])
    && (forall x :: x in g ==> (incoming[x] == 0 <==> x in o + [c] || x in q))
  }

  lemma PopKeepsOrder(g: Graph, o: seq<Id>, q: seq<Id>, incoming: Incoming, children: seq<Id>)
    requires KahnInv(g, o, q, incoming) && q != []
    ensures q[0] !in o && ChildInv(g, o, q[0], children, 0, q[1..], incoming)
  {
    var c := q[0];
    forall i | 0 <= i < |o| ensures o[i] != c { assert (o + q)[i] != (o + q)[|o|]; }
    assert o + q == o + [c] + q[1..];
    MissingZero(g[c], o);
    var o' := o + [c];
    forall i, d | 0 <= i < |o'| && Edge(g, o'[i], d) ensures d in o'[..i] {
      if i < |o| {
        assert o'[..i] == o[..i];
      } else {
        assert o'[..i] == o && o'[i] == c;
      }
    }
    forall x | x in g ensures incoming[x] == 0 <==> x in o' || x in q[1..] {
      assert x in o + q <==> x in o' + q[1..];
    }
  }

  lemma PlacedGrows(g: Graph, o: seq<Id>, q: seq<Id>, x: Id)
    requires Placed(g, o, q) && x in g && x !in o && x !in q
    ensures Placed(g, o, q + [x])
  {
    assert o + (q + [x]) == (o + q) + [x];
  }

  lemma ChildStep(g: Graph, o: seq<Id>, c: Id, children: seq<Id>, j: nat, q: seq<Id>, incoming: Incoming)
    requires j < |children| && children[j] in g && c !in o
    requires ChildInv(g, o, c, children, j, q, incoming)
    requires multiset(children)[children[j]] == multiset(g[children[j]])[c]
    ensures var child := children[j];
            var incoming' := incoming[child := incoming[child] - 1];
            incoming[child] > 0
            && ChildInv(g, o, c, children, j + 1, if incoming'[child] == 0 then q + [child] else q, incoming')
  {
    var child := children[j];
    assert children == children[..j + 1] + children[j + 1..];
    assert children[..j + 1] == children[..j] + [child];
    MissingAfter(g[child], o, c);
    assert incoming[child] > 0;
    hide Placed, Missing;
    var incoming' := incoming[child := incoming[child] - 1];
    if incoming'[child] == 0 { PlacedGrows(g, o + [c], q, child); }
  }

  lemma ChildrenDone(g: Graph, o: seq<Id>, c: Id, children: seq<Id>, q: seq<Id>, incoming: Incoming)
    requires c !in o
    requires ChildInv(g, o, c, children, |children|, q, incoming)
    requires forall x :: x in g ==> multiset(children)[x] == multiset(g[x])[c]
    ensures KahnInv(g, o + [c], q, incoming)
  {
    assert children[..|children|] == children;
    forall x | x in g ensures incoming[x] == Missing(g[x], o + [c]) {
      MissingAfter(g[x], o, c);
    }
  }

  /** An emptied queue has output every id, or the rest wait for each other. */
  lemma KahnExit(g: Graph, o: seq<Id>, incoming: Incoming)
    requires KahnInv(g, o, [], incoming)
    requires forall x, d :: Edge(g, x, d) ==> d in g
    ensures |o| <= |g|
    ensures |o| == |g| ==> IsTopological(g, o)
    ensures |o| < |g| ==> !Acyclic(g)
  {
    assert o + [] == o;
    NoDuplicatesBound(o, g.Keys);
    SetOfSeqSize(o);
    var rest := set x | x in g && x !in o;
    assert g.Keys == (set x | x in o) + rest;
    if rest != {} {
      var x :| x in rest;
      NoDuplicatesBound(o + [x], g.Keys);
      KahnStuck(g, o, rest, incoming);
    }
  }

  lemma KahnStuck(g: Graph, o: seq<Id>, rest: set<Id>, incoming: Incoming)
    requires KahnInv(g, o, [], incoming)
    requires forall x, d :: Edge(g, x, d) ==> d in g
    requires rest == (set x | x in g && x !in o) && rest != {}
    ensures !Acyclic(g)
  {
    forall x | x in rest ensures Waits(g, rest, x) {
      MissingZero(g[x], o);
      var d :| d in g[x] && d !in o;
      assert Edge(g, x, d);
    }
    StuckMeansCycle(g, rest);
  }

  lemma {:induction false} SetOfSeqSize<T>(s: seq<T>)
    ensures |set x | x in s| <= |s|
    ensures NoDuplicates(s) ==> |set x | x in s| == |s|
  {
    if s != [] {
      var front, last := s[..|s| - 1], s[|s| - 1];
      SetOfSeqSize(front);
      assert (set x | x in s) == (set x | x in front) + {last};
    }
  }

  ghost function Positive(incoming: Incoming): set<Id> {
    set x | x in incoming && incoming[x] > 0
  }

  lemma PositiveDrops(incoming: Incoming, x: Id)
    requires x in incoming
    ensures |Positive(incoming[x := incoming[x] - 1])| <= |Positive(incoming)| - if incoming[x] == 1 then 1 else 0
  {
    var after := Positive(incoming[x := incoming[x] - 1]);
    if incoming[x] == 1 {
      assert after == Positive(incoming) - {x};
    } else {
      assert after == Positive(incoming);
    }
  }

  lemma {:induction false} MultiplicityOne<T>(s: seq<T>, x: T)
    requires NoDuplicates(s)
    ensures multiset(s)[x] == if x in s then 1 else 0
  {
    if s != [] {
      var front := s[..|s| - 1];
      assert s == front + [s[|s| - 1]];
      MultiplicityOne(front, x);
    }
  }

  lemma PermutationById(a: seq<Step>, b: seq<Step>)
    requires UniqueIds(a) && UniqueIds(b)
    requires forall s :: s in a <==> s in b
    ensures multiset(a) == multiset(b)
  {
    assert forall i :: 0 <= i < |a| ==> Ids(a)[i] == a[i].id;
    assert forall i :: 0 <= i < |b| ==> Ids(b)[i] == b[i].id;
    forall s ensures multiset(a)[s] == multiset(b)[s] {
      MultiplicityOne(a, s);
      MultiplicityOne(b, s);
    }
  }

  method IndexById(steps: seq<Step>) returns (byId: map<Id, Step>)
    ensures forall id :: id in byId <==> id in Ids(steps)
    ensures forall id :: id in byId ==> byId[id] in steps && byId[id].id == id
  {
    byId := map[];
    for i := 0 to |steps|
      invariant forall id :: id in byId <==> id in Ids(steps)[..i]
      invariant forall id :: id in byId ==> byId[id] in steps && byId[id].id == id
    {
      assert Ids(steps)[..i + 1] == Ids(steps)[..i] + [steps[i].id];
      byId := byId[steps[i].id := steps[i]];
    }
    assert Ids(steps)[..|steps|] == Ids(steps);
  }

  method InitiallyReady(steps: seq<Step>, incoming: Incoming) returns (ready: seq<Id>)
    requires forall id :: id in incoming <==> id in Ids(steps)
    ensures forall x :: x in ready <==> x in incoming && incoming[x] == 0
    ensures UniqueIds(steps) ==> NoDuplicates(ready)
  {
    ready := [];
    for i := 0 to |steps|
      invariant UniqueIds(steps) ==> NoDuplicates(ready)
      invariant forall x :: x in ready <==> x in Ids(steps)[..i] && x in incoming && incoming[x] == 0
    {
      var id := steps[i].id;
      assert id == Ids(steps)[i];
      assert Ids(steps)[..i + 1] == Ids(steps)[..i] + [id];
      assert UniqueIds(steps) ==> id !in Ids(steps)[..i];
      if incoming[id] == 0 { ready := ready + [id]; }
    }
    assert Ids(steps)[..|steps|] == Ids(steps);
  }

  lemma KahnStart(g: Graph, ready: seq<Id>, incoming: Incoming)
    requires incoming.Keys == g.Keys && (forall x :: x in g ==> incoming[x] == |g[x]|)
    requires NoDuplicates(ready) && forall x :: x in ready <==> x in incoming && incoming[x] == 0
    ensures KahnInv(g, [], ready, incoming)
  {
    assert [] + ready == ready;
    forall x | x in g ensures incoming[x] == Missing(g[x], []) { MissingNone(g[x]); }
  }

  lemma GraphSize(steps: seq<Step>)
    requires UniqueIds(steps)
    ensures |GraphOf(steps)| == |steps|
  {
    SetOfSeqSize(Ids(steps));
    assert GraphOf(steps).Keys == set x | x in Ids(steps);
  }

  ghost predicate Counts(g: Graph, c: Id, children: seq<Id>) {
    forall x :: x in g ==> multiset(children)[x] == multiset(g[x])[c]
  }

  lemma TrackedStep(g: Graph, o: seq<Id>, c: Id, children: seq<Id>, j: nat, q: seq<Id>, incoming: Incoming)
    requires j < |children| && children[j] in incoming && c !in o
    requires Counts(g, c, children) && ChildInv(g, o, c, children, j, q, incoming)
    ensures var child := children[j];
            var incoming' := incoming[child := incoming[child] - 1];
            incoming[child] > 0
            && ChildInv(g, o, c, children, j + 1, if incoming'[child] == 0 then q + [child] else q, incoming')
  {
    assert children[j] in g;
    hide ChildInv;
    ChildStep(g, o, c, children, j, q, incoming);
  }

  lemma TrackedDone(g: Graph, o: seq<Id>, c: Id, children: seq<Id>, q: seq<Id>, incoming: Incoming)
    requires c !in o && Counts(g, c, children) && ChildInv(g, o, c, children, |children|, q, incoming)
    ensures KahnInv(g, o + [c], q, incoming)
  {
    hide ChildInv, KahnInv;
    ChildrenDone(g, o, c, children, q, incoming);
  }

  /** The child loop for one popped id. */
  method Release(children: seq<Id>, incoming0: Incoming, ready0: seq<Id>, ghost g: Graph, ghost o: seq<Id>, ghost c: Id)
    returns (incoming: Incoming, ready: seq<Id>)
    requires forall x :: x in children ==> x in incoming0
    ensures incoming.Keys == incoming0.Keys
    ensures forall x :: x in ready ==> x in ready0 || x in children
    ensures 2 * |Positive(incoming)| + |ready| <= 2 * |Positive(incoming0)| + |ready0|
    ensures c !in o && Counts(g, c, children) && ChildInv(g, o, c, children, 0, ready0, incoming0)
      ==> KahnInv(g, o + [c], ready, incoming)
  {
    hide KahnInv, ChildInv, Counts, Positive;
    incoming, ready := incoming0, ready0;
    ghost var tracked := c !in o && Counts(g, c, children) && ChildInv(g, o, c, children, 0, ready0, incoming0);
    for j := 0 to |children|
      invariant incoming.Keys == incoming0.Keys
      invariant forall x :: x in ready ==> x in ready0 || x in children
      invariant 2 * |Positive(incoming)| + |ready| <= 2 * |Positive(incoming0)| + |ready0|
      invariant tracked ==> ChildInv(g, o, c, children, j, ready, incoming)
    {
      var child := children[j];
      if tracked { TrackedStep(g, o, c, children, j, ready, incoming); }
      PositiveDrops(incoming, child);
      incoming := incoming[child := incoming[child] - 1];
      if incoming[child] == 0 { ready := ready + [child]; }
    }
    if tracked { TrackedDone(g, o, c, children, ready, incoming); }
  }

  /** The queue loop: pops ids until nothing is ready. */
  method EmptyQueue(steps: seq<Step>, byId: map<Id, Step>, incoming0: Incoming, children: Children, ready0: seq<Id>)
    returns (ordered: seq<Step>, ghost incoming: Incoming)
    requires IndexShape(steps, incoming0, children)
    requires forall id :: id in byId <==> id in Ids(steps)
    requires forall id :: id in byId ==> byId[id] in steps && byId[id].id == id
    requires forall x :: x in ready0 ==> x in Ids(steps)
    requires UniqueIds(steps) ==>
      IndexCounts(GraphOf(steps), incoming0, children) && KahnInv(GraphOf(steps), [], ready0, incoming0)
    ensures forall s :: s in ordered ==> s in steps
    ensures UniqueIds(steps) ==> KahnInv(GraphOf(steps), Ids(ordered), [], incoming)
  {
    hide UniqueIds, GraphOf, KahnInv, ChildInv;
    var counts, ready := incoming0, ready0;
    ordered := [];
    ghost var g := GraphOf(steps);
    ghost var o: seq<Id> := [];
    while ready != []
      invariant counts.Keys == incoming0.Keys
      invariant forall x :: x in ready ==> x in Ids(steps)
      invariant o == Ids(ordered)
      invariant forall s :: s in ordered ==> s in steps
      invariant UniqueIds(steps) ==> KahnInv(g, o, ready, counts)
      decreases 2 * |Positive(counts)| + |ready|
    {
      var current := ready[0];
      if UniqueIds(steps) { PopKeepsOrder(g, o, ready, counts, children[current]); }
      ordered := ordered + [byId[current]];
      counts, ready := Release(children[current], counts, ready[1..], g, o, current);
      o := o + [current];
    }
    incoming := counts;
  }

  /** Dependency order, first-in first-out.  For unique ids it succeeds exactly on closed acyclic plans,
      and a reported cycle is a real one; it terminates on every input. */
  method Order(steps: seq<Step>) returns (r: Result<seq<Step>>)
    ensures UniqueIds(steps) ==> (r.Success? <==> Known(steps) && Acyclic(GraphOf(steps)))
    ensures UniqueIds(steps) && r.Success? ==>
      multiset(r.value) == multiset(steps) && IsTopological(GraphOf(steps), Ids(r.value))
    ensures r.Failure? ==> r.error == DependencyCycle || FirstBad(steps, r.error)
    ensures UniqueIds(steps) && r == Failure(DependencyCycle) ==> Known(steps) && !Acyclic(GraphOf(steps))
  {
    var byId := IndexById(steps);
    var bad := CheckDependencies(steps);
    if bad.Some? {
      if UniqueIds(steps) { BadMeansRejected(steps); }
      return Failure(bad.value);
    }
    assert Known(steps) by { NoBadMeansKnown(steps); }
    var incoming, children := BuildIndex(steps);
    var ready := InitiallyReady(steps, incoming);
    if UniqueIds(steps) { KahnStart(GraphOf(steps), ready, incoming); }
    var ordered, left := EmptyQueue(steps, byId, incoming, children, ready);
    if UniqueIds(steps) { KahnDecides(steps, ordered, left); }
    if |ordered| != |steps| {
      return Failure(DependencyCycle);
    }
    return Success(ordered);
  }

  lemma KahnDecides(steps: seq<Step>, ordered: seq<Step>, left: Incoming)
    requires UniqueIds(steps) && Known(steps)
    requires KahnInv(GraphOf(steps), Ids(ordered), [], left)
    requires forall s :: s in ordered ==> s in steps
    ensures |ordered| == |steps| <==> Acyclic(GraphOf(steps))
    ensures |ordered| == |steps| ==>
      multiset(ordered) == multiset(steps) && IsTopological(GraphOf(steps), Ids(ordered))
  {
    GraphClosed(steps);
    GraphSize(steps);
    KahnExit(GraphOf(steps), Ids(ordered), left);
    if |ordered| == |steps| {
      TopologicalMeansAcyclic(GraphOf(steps), Ids(ordered));
      SameSteps(steps, ordered);
    }
  }

  lemma NoBadMeansKnown(steps: seq<Step>)
    requires NoBadBefore(steps, |steps|, 0)
    ensures Known(steps)
  {
    forall i, d | 0 <= i < |steps| && d in steps[i].dependencies ensures d in Ids(steps) {
      var k :| 0 <= k < |steps[i].dependencies| && steps[i].dependencies[k] == d;
      assert !BadAt(steps, i, k);
    }
  }

  /** A self dependency is a cycle of length one, so the early check rejects no orderable plan. */
  lemma BadMeansRejected(steps: seq<Step>)
    requires UniqueIds(steps) && !NoBadBefore(steps, |steps|, 0)
    ensures !(Known(steps) && Acyclic(GraphOf(steps)))
  {
    var i, k :| 0 <= i < |steps| && 0 <= k < |steps[i].dependencies| && BadAt(steps, i, k);
    assert steps[i].dependencies[k] in steps[i].dependencies;
    if steps[i].dependencies[k] == steps[i].id {
      GraphOfStep(steps, i);
      SelfLoop(GraphOf(steps), steps[i].id);
    }
  }

  lemma SelfLoop(g: Graph, x: Id)
    requires Edge(g, x, x)
    ensures !Acyclic(g)
  {
    assert IsWalk(g, [x, x]) && |[x, x]| >= 2 && [x, x][0] == [x, x][|[x, x]| - 1];
  }

  lemma SameSteps(steps: seq<Step>, ordered: seq<Step>)
    requires UniqueIds(steps) && IsTopological(GraphOf(steps), Ids(ordered))
    requires forall s :: s in ordered ==> s in steps
    ensures multiset(ordered) == multiset(steps)
  {
    forall s | s in steps ensures s in ordered {
      var i :| 0 <= i < |steps| && steps[i] == s;
      assert Ids(steps)[i] == s.id;
      var k := IndexOf(Ids(ordered), s.id);
      assert ordered[k] in ordered;
      var j :| 0 <= j < |steps| && steps[j] == ordered[k];
      assert Ids(steps)[j] == s.id;
    }
    PermutationById(ordered, steps);
  }

  // ---- the structural gate -----------------------------------------------------------------

  /** The id and dependency rules of the plan gate; the checks on tools, arguments and wording are left out. */
  method Validate(steps: seq<Step>, maxSteps: int) returns (r: Result<seq<Step>>)
    ensures r.Success? <==>
      && 0 < |steps| <= (if maxSteps < 1 then 1 else maxSteps)
      && "" !in Ids(steps) && UniqueIds(steps) && Known(steps) && Acyclic(GraphOf(steps))
    ensures r.Success? ==> r.value == steps
    // the first objection is reported
    ensures r == Failure(NoSteps) <==> steps == []
    ensures r == Failure(TooManySteps) <==> |steps| > (if maxSteps < 1 then 1 else maxSteps)
    ensures r == Failure(MissingId) <==>
      0 < |steps| <= (if maxSteps < 1 then 1 else maxSteps) && "" in Ids(steps)
    ensures r == Failure(DuplicateIds) <==>
      0 < |steps| <= (if maxSteps < 1 then 1 else maxSteps) && "" !in Ids(steps) && !UniqueIds(steps)
  {
    var limit := if maxSteps < 1 then 1 else maxSteps;
    if steps == [] { return Failure(NoSteps); }
    if |steps| > limit { return Failure(TooManySteps); }
    if "" in Ids(steps) { return Failure(MissingId); }
    var seen: set<Id> := {};
    for i := 0 to |steps|
      invariant seen == set x | x in Ids(steps)[..i]
    {
      assert Ids(steps)[..i + 1] == Ids(steps)[..i] + [steps[i].id];
      seen := seen + {steps[i].id};
    }
    assert Ids(steps)[..|steps|] == Ids(steps);
    SetSizeMeansUnique(Ids(steps));
    if |seen| != |steps| { return Failure(DuplicateIds); }
    var ordered := Order(steps);
    if ordered.Failure? { return Failure(ordered.error); }
    return Success(steps);
  }

  lemma {:induction false} SetSizeMeansUnique<T>(s: seq<T>)
    ensures |set x | x in s| == |s| <==> NoDuplicates(s)
  {
    SetOfSeqSize(s);
    if s != [] {
      var front, last := s[..|s| - 1], s[|s| - 1];
      SetSizeMeansUnique(front);
      SetOfSeqSize(front);
      assert (set x | x in s) == (set x | x in front) + {last};
      if last in front {
        assert (set x | x in s) == (set x | x in front);
      }
    }
  }
}
