/** Dependency graphs shared by the planner, the executor and the scheduler.

    A graph maps an id to the list of ids it depends on.  Ids that occur only as
    dependencies are dangling: they have no outgoing edges.  Acyclicity is the plain
    "no closed walk" notion; the rest of the project uses it through ranks. */
module Graphs {
  type Id = string
  type Graph = map<Id, seq<Id>>

  ghost predicate Edge(g: Graph, a: Id, b: Id) {
    a in g && b in g[a]
  }

  ghost predicate IsWalk(g: Graph, p: seq<Id>) {
    |p| > 0 && forall i, j :: 0 <= i && j == i + 1 && j < |p| ==> Edge(g, p[i], p[j])
  }

  /** No walk of at least one edge returns to its start. */
  ghost predicate Acyclic(g: Graph) {
    forall p :: IsWalk(g, p) && |p| >= 2 ==> p[0] != p[|p| - 1]
  }

  /** `a` depends on `b`, directly or through other ids. */
  ghost predicate Reaches(g: Graph, a: Id, b: Id) {
    exists p :: IsWalk(g, p) && |p| >= 2 && p[0] == a && p[|p| - 1] == b
  }

  /** Edges inside `s` strictly decrease the rank. */
  ghost predicate RanksOn(g: Graph, s: set<Id>, r: map<Id, nat>) {
    s <= r.Keys && forall a, b :: a in s && b in s && Edge(g, a, b) ==> r[b] < r[a]
  }

  ghost predicate NoDuplicates<T>(s: seq<T>) {
    forall i, j :: 0 <= i < j < |s| ==> s[i] != s[j]
  }

  /** `o` lists the ids of `g` once each, every dependency that is an id of `g` before its dependents. */
  ghost predicate IsTopological(g: Graph, o: seq<Id>) {
    && NoDuplicates(o)
    && (forall id :: id in o <==> id in g)
    && (forall i, d :: 0 <= i < |o| && Edge(g, o[i], d) && d in g ==> d in o[..i])
  }

  ghost function Members(ids: seq<Id>): set<Id> {
    set id | id in ids
  }

  lemma NoMembers(ids: seq<Id>)
    ensures (forall id :: id !in ids) ==> ids == []
  {
    if ids != [] { assert ids[0] in ids; }
  }

  // ---- pigeonhole ------------------------------------------------------------

  lemma SubsetSize<T>(a: set<T>, b: set<T>)
    requires a <= b
    ensures |a| <= |b|
    ensures a < b ==> |a| < |b|
  {
    assert b == a + (b - a);
  }

  lemma {:induction false} NoDuplicatesBound<T>(s: seq<T>, bound: set<T>)
    requires NoDuplicates(s)
    requires forall x :: x in s ==> x in bound
    ensures |s| <= |bound|
  {
    if s != [] {
      var x := s[|s| - 1];
      var rest := s[..|s| - 1];
      forall y | y in rest ensures y in bound - {x} {
        var i :| 0 <= i < |rest| && rest[i] == y;
        assert s[i] != s[|s| - 1];
      }
      NoDuplicatesBound(rest, bound - {x});
    }
  }

  // ---- walks -----------------------------------------------------------------

  lemma Slice(g: Graph, p: seq<Id>, i: nat, j: nat)
    requires IsWalk(g, p) && i < j <= |p|
    ensures IsWalk(g, p[i..j])
  {
    var q := p[i..j];
    forall a, b | 0 <= a && b == a + 1 && b < |q| ensures Edge(g, q[a], q[b]) {
      assert q[a] == p[i + a] && q[b] == p[i + b];
    }
  }

  lemma Prepend(g: Graph, a: Id, p: seq<Id>)
    requires IsWalk(g, p) && Edge(g, a, p[0])
    ensures IsWalk(g, [a] + p)
  {
    var q := [a] + p;
    forall i, j | 0 <= i && j == i + 1 && j < |q| ensures Edge(g, q[i], q[j]) {
      if i > 0 { assert q[i] == p[i - 1] && q[j] == p[j - 1]; }
    }
  }

  lemma EdgeReaches(g: Graph, a: Id, b: Id)
    requires Edge(g, a, b)
    ensures Reaches(g, a, b)
  {
    assert IsWalk(g, [a, b]);
  }

  lemma EdgeThenReaches(g: Graph, a: Id, b: Id, c: Id)
    requires Edge(g, a, b) && Reaches(g, b, c)
    ensures Reaches(g, a, c)
  {
    var p :| IsWalk(g, p) && |p| >= 2 && p[0] == b && p[|p| - 1] == c;
    Prepend(g, a, p);
    assert ([a] + p)[|p|] == c;
  }

  /** Every transitive dependency goes through a direct one. */
  lemma FirstEdge(g: Graph, a: Id, c: Id) returns (b: Id)
    requires Reaches(g, a, c)
    ensures Edge(g, a, b) && (b == c || Reaches(g, b, c))
  {
    var p :| IsWalk(g, p) && |p| >= 2 && p[0] == a && p[|p| - 1] == c;
    b := p[1];
    if |p| > 2 {
      Slice(g, p, 1, |p|);
      assert p[1..|p|][|p| - 2] == c;
    }
  }

  // ---- acyclic graphs are exactly the ranked ones ------------------------------

  ghost predicate Waits(g: Graph, s: set<Id>, x: Id) {
    exists y :: y in s && Edge(g, x, y)
  }

  /** When every member of `s` depends on a member of `s`, walks inside `s` never end. */
  lemma {:induction false} StuckWalk(g: Graph, s: set<Id>, start: Id, n: nat) returns (p: seq<Id>)
    requires start in s
    requires forall x {:trigger Waits(g, s, x)} :: x in s ==> Waits(g, s, x)
    ensures IsWalk(g, p) && |p| == n + 1 && p[0] == start
    ensures forall x :: x in p ==> x in s
    decreases n
  {
    if n == 0 {
      p := [start];
    } else {
      assert Waits(g, s, start);
      var y :| y in s && Edge(g, start, y);
      var q := StuckWalk(g, s, y, n - 1);
      Prepend(g, start, q);
      p := [start] + q;
    }
  }

  lemma RepeatClosesWalk(g: Graph, p: seq<Id>, i: nat, j: nat)
    requires IsWalk(g, p) && i < j < |p| && p[i] == p[j]
    ensures !Acyclic(g)
  {
    Slice(g, p, i, j + 1);
    var q := p[i..j + 1];
    assert IsWalk(g, q) && |q| >= 2 && q[0] == q[|q| - 1];
  }

  /** A set of ids that all wait for each other holds a cycle. */
  lemma StuckMeansCycle(g: Graph, s: set<Id>)
    requires s != {}
    requires forall x {:trigger Waits(g, s, x)} :: x in s ==> Waits(g, s, x)
    ensures !Acyclic(g)
  {
    var start :| start in s;
    var p := StuckWalk(g, s, start, |s|);
    if NoDuplicates(p) {
      NoDuplicatesBound(p, s);
    }
    var i, j :| 0 <= i < j < |p| && p[i] == p[j];
    RepeatClosesWalk(g, p, i, j);
  }

  lemma {:induction false} RankExists(g: Graph, s: set<Id>) returns (r: map<Id, nat>)
    requires Acyclic(g)
    ensures RanksOn(g, s, r)
    decreases |s|
  {
    if s == {} {
      r := map[];
    } else {
      if forall x {:trigger Waits(g, s, x)} :: x in s ==> Waits(g, s, x) {
        StuckMeansCycle(g, s);
      }
      var x :| x in s && !Waits(g, s, x);
      var r' := RankExists(g, s - {x});
      r := map y | y in s :: if y == x then 0 else r'[y] + 1;
    }
  }

  lemma {:induction false} WalkDescends(g: Graph, r: map<Id, nat>, p: seq<Id>)
    requires RanksOn(g, g.Keys, r)
    requires IsWalk(g, p) && |p| >= 2 && p[|p| - 1] in g
    ensures p[0] in g && r[p[|p| - 1]] < r[p[0]]
    decreases |p|
  {
    assert Edge(g, p[0], p[1]);
    if |p| > 2 {
      Slice(g, p, 1, |p|);
      WalkDescends(g, r, p[1..|p|]);
    }
  }

  lemma RankMeansAcyclic(g: Graph, r: map<Id, nat>)
    requires RanksOn(g, g.Keys, r)
    ensures Acyclic(g)
  {
    forall p | IsWalk(g, p) && |p| >= 2 ensures p[0] != p[|p| - 1] {
      assert Edge(g, p[0], p[1]);
      if p[0] == p[|p| - 1] {
        WalkDescends(g, r, p);
      }
    }
  }

  /** A dependency order is a certificate of acyclicity. */
  lemma TopologicalMeansAcyclic(g: Graph, o: seq<Id>)
    requires IsTopological(g, o)
    ensures Acyclic(g)
  {
    var r: map<Id, nat> := map id | id in g :: IndexOf(o, id);
    forall a, b | a in g && b in g && Edge(g, a, b) ensures r[b] < r[a] {
      assert o[r[a]] == a;
      assert b in o[..r[a]];
      var k :| 0 <= k < r[a] && o[k] == b;
      assert o[r[b]] == b;
    }
    RankMeansAcyclic(g, r);
  }

  ghost function IndexOf(o: seq<Id>, id: Id): (k: nat)
    requires id in o
    ensures k < |o| && o[k] == id
  {
    var k :| 0 <= k < |o| && o[k] == id;
    k
  }

  lemma ReachesTransitive(g: Graph, a: Id, b: Id, c: Id)
    requires Reaches(g, a, b) && Reaches(g, b, c)
    ensures Reaches(g, a, c)
  {
    var p :| IsWalk(g, p) && |p| >= 2 && p[0] == a && p[|p| - 1] == b;
    var q :| IsWalk(g, q) && |q| >= 2 && q[0] == b && q[|q| - 1] == c;
    Join(g, p, q);
    var r := p + q[1..];
    assert r[0] == a && r[|r| - 1] == c;
  }

  lemma Join(g: Graph, p: seq<Id>, q: seq<Id>)
    requires IsWalk(g, p) && IsWalk(g, q) && p[|p| - 1] == q[0]
    ensures IsWalk(g, p + q[1..])
  {
    var r, n := p + q[1..], |p|;
    forall i, j | 0 <= i && j == i + 1 && j < |r| ensures Edge(g, r[i], r[j]) {
      if j < n {
        assert Edge(g, p[i], p[i + 1]);
      } else {
        assert r[i] == q[i - n + 1] && r[j] == q[i - n + 2];
        assert Edge(g, q[i - n + 1], q[i - n + 2]);
      }
    }
  }

  lemma ReachesThenEdge(g: Graph, a: Id, b: Id, c: Id)
    requires Reaches(g, a, b) && Edge(g, b, c)
    ensures Reaches(g, a, c)
  {
    EdgeReaches(g, b, c);
    ReachesTransitive(g, a, b, c);
  }

  // ---- replacing the dependencies of one id -----------------------------------------------

  /** The two graphs differ at most in what `id` depends on. */
  ghost predicate AgreeOff(g: Graph, h: Graph, id: Id) {
    forall x, d :: x != id ==> (Edge(g, x, d) <==> Edge(h, x, d))
  }

  lemma {:induction false} WalkOff(g: Graph, h: Graph, p: seq<Id>, id: Id)
    requires AgreeOff(g, h, id) && IsWalk(g, p) && |p| >= 2 && p[0] != id && p[|p| - 1] == id
    ensures Reaches(h, p[0], id)
    decreases |p|
  {
    assert Edge(g, p[0], p[1]);
    if p[1] == id {
      EdgeReaches(h, p[0], id);
    } else {
      Slice(g, p, 1, |p|);
      assert p[1..|p|] == p[1..];
      WalkOff(g, h, p[1..], id);
      EdgeThenReaches(h, p[0], p[1], id);
    }
  }

  lemma ReachesOff(g: Graph, h: Graph, b: Id, id: Id)
    requires AgreeOff(g, h, id) && b != id && Reaches(g, b, id)
    ensures Reaches(h, b, id)
  {
    var p :| IsWalk(g, p) && |p| >= 2 && p[0] == b && p[|p| - 1] == id;
    WalkOff(g, h, p, id);
  }

  /** A closed walk can be entered anywhere. */
  lemma Rotate(g: Graph, p: seq<Id>, k: nat)
    requires IsWalk(g, p) && |p| >= 2 && p[0] == p[|p| - 1] && k < |p|
    ensures Reaches(g, p[k], p[k])
  {
    var q := p[k..] + p[1..k + 1];
    var n := |p| - k;
    assert |q| == |p| && q[0] == p[k];
    forall i, j | 0 <= i && j == i + 1 && j < |q| ensures Edge(g, q[i], q[j]) {
      if j < n {
        assert q[i] == p[k + i] && q[j] == p[k + i + 1];
        assert Edge(g, p[k + i], p[k + i + 1]);
      } else if j == n {
        assert q[i] == p[|p| - 1] == p[0] && q[j] == p[1];
        assert Edge(g, p[0], p[1]);
      } else {
        assert q[i] == p[i - n + 1] && q[j] == p[i - n + 2];
        assert Edge(g, p[i - n + 1], p[i - n + 2]);
      }
    }
    assert q[|q| - 1] == p[k];
  }

  lemma SelfReachCycles(g: Graph, id: Id)
    requires Reaches(g, id, id)
    ensures !Acyclic(g)
  {
    var p :| IsWalk(g, p) && |p| >= 2 && p[0] == id && p[|p| - 1] == id;
  }

  /** Giving `id` other dependencies closes a cycle exactly when one of them already reaches `id`. */
  lemma ReplaceClosesIff(g: Graph, id: Id, dependencies: seq<Id>)
    requires Acyclic(g) && id !in dependencies
    ensures !Acyclic(g[id := dependencies]) <==> exists d :: d in dependencies && Reaches(g, d, id)
  {
    var h := g[id := dependencies];
    assert AgreeOff(g, h, id) && AgreeOff(h, g, id);
    if d :| d in dependencies && Reaches(g, d, id) {
      ReachesOff(g, h, d, id);
      assert Edge(h, id, d);
      EdgeThenReaches(h, id, d, id);
      SelfReachCycles(h, id);
    }
    if !Acyclic(h) {
      var p :| IsWalk(h, p) && |p| >= 2 && p[0] == p[|p| - 1];
      var k := PassesThrough(g, h, p, id);
      Rotate(h, p, k);
      var d := FirstEdge(h, id, id);
      assert d in dependencies;
      ReachesOff(h, g, d, id);
    }
  }

  lemma PassesThrough(g: Graph, h: Graph, p: seq<Id>, id: Id) returns (k: nat)
    requires Acyclic(g) && AgreeOff(h, g, id) && IsWalk(h, p) && |p| >= 2 && p[0] == p[|p| - 1]
    ensures k < |p| && p[k] == id
  {
    assert id in p by {
      if id !in p {
        forall i, j | 0 <= i && j == i + 1 && j < |p| ensures Edge(g, p[i], p[j]) { assert Edge(h, p[i], p[j]); }
      }
    }
    k :| k < |p| && p[k] == id;
  }
}
