/** The global job scheduler: a durable job graph with priorities, deadlines, bounded retries and
    requeueing after a crash. */
module Scheduler {
  import opened Graphs
  import opened Options
  import opened QuietHours

  datatype Status = Queued | Running | Succeeded | Failed | Cancelled

  datatype Job = Job(
    id: Id,
    dependencies: seq<Id>,
    priority: int,
    createdAt: int,
    deadline: Option<int>,
    idempotencyKey: string,
    status: Status,
    attempts: nat,
    maxAttempts: int)

  type Jobs = map<Id, Job>

  /** How one dispatch went. */
  datatype Attempt = NoDispatcher | RoutingFailed | Raised | Completed

  type Outcomes = Id -> Attempt

  ghost function DependencyGraph(jobs: Jobs): (g: Graph)
    ensures g.Keys == jobs.Keys
  {
    map id | id in jobs :: jobs[id].dependencies
  }

  // ---- cycle check ----------------------------------------------------------------------

  /** Search state: finished nodes are listed after everything they depend on; `path` is the current branch. */
  ghost predicate DfsInv(g: Graph, visiting: set<Id>, visited: set<Id>, finished: seq<Id>, path: seq<Id>) {
    && visiting == (set x | x in path) && visiting <= g.Keys && visiting !! visited
    && visited == (set x | x in finished) && visited <= g.Keys
    && NoDuplicates(finished)
    && (forall i, d :: 0 <= i < |finished| && Edge(g, finished[i], d) && d in g ==> d in finished[..i])
    && (path != [] ==> IsWalk(g, path))
  }

  /** `node` is where the branch goes next. */
  ghost predicate Continues(g: Graph, path: seq<Id>, node: Id) {
    path != [] ==> Edge(g, path[|path| - 1], node)
  }

  lemma WalkOn(g: Graph, path: seq<Id>, node: Id)
    requires (path != [] ==> IsWalk(g, path)) && Continues(g, path, node)
    ensures IsWalk(g, path + [node])
  {
    var q := path + [node];
    forall i, j | 0 <= i && j == i + 1 && j < |q| ensures Edge(g, q[i], q[j]) {
      if j < |path| { assert q[i] == path[i] && q[j] == path[j]; }
    }
  }

  lemma ClosesCycle(g: Graph, visiting: set<Id>, visited: set<Id>, finished: seq<Id>, path: seq<Id>, node: Id)
    requires DfsInv(g, visiting, visited, finished, path) && Continues(g, path, node) && node in visiting
    ensures !Acyclic(g)
  {
    var k :| 0 <= k < |path| && path[k] == node;
    WalkOn(g, path, node);
    RepeatClosesWalk(g, path + [node], k, |path|);
  }

  lemma Enter(g: Graph, visiting: set<Id>, visited: set<Id>, finished: seq<Id>, path: seq<Id>, node: Id)
    requires DfsInv(g, visiting, visited, finished, path) && Continues(g, path, node)
    requires node in g && node !in visiting && node !in visited
    ensures DfsInv(g, visiting + {node}, visited, finished, path + [node])
    ensures |g.Keys - (visiting + {node})| < |g.Keys - visiting|
  {
    WalkOn(g, path, node);
    assert visiting + {node} == set x | x in path + [node];
    SubsetSize(g.Keys - (visiting + {node}), g.Keys - visiting);
  }

  lemma Leave(g: Graph, visiting: set<Id>, visited: set<Id>, finished: seq<Id>, path: seq<Id>, node: Id)
    requires DfsInv(g, visiting, visited, finished, path + [node])
    requires (path != [] ==> IsWalk(g, path)) && node !in path
    requires forall d :: d in g[node] && d in g ==> d in visited
    ensures DfsInv(g, visiting - {node}, visited + {node}, finished + [node], path)
  {
    assert node in path + [node];
    assert visiting - {node} == set x | x in path by {
      assert forall x :: x in path + [node] <==> x in path || x == node;
    }
    var finished' := finished + [node];
    assert visited + {node} == set x | x in finished';
    forall i, d | 0 <= i < |finished'| && Edge(g, finished'[i], d) && d in g ensures d in finished'[..i] {
      if i < |finished| {
        assert finished'[..i] == finished[..i];
      } else {
        assert finished'[..i] == finished;
      }
    }
  }

  /** Depth-first search with the nodes on the current branch and the nodes already finished. */
  class CycleCheck {
    const graph: Graph
    var visiting: set<Id>
    var visited: set<Id>
    ghost var finished: seq<Id>

    constructor (graph: Graph)
      ensures this.graph == graph && Valid([])
    {
      this.graph := graph;
      visiting, visited, finished := {}, {}, [];
    }

    ghost predicate Valid(path: seq<Id>)
      reads this
    {
      DfsInv(graph, visiting, visited, finished, path)
    }

    method Visit(node: Id, ghost path: seq<Id>) returns (ok: bool)
      requires Valid(path) && Continues(graph, path, node)
      modifies this
      ensures ok ==> Valid(path) && visiting == old(visiting) && old(visited) <= visited
      ensures ok && node in graph ==> node in visited
      ensures !ok ==> !Acyclic(graph)
      decreases |graph.Keys - visiting|, 1, 0
    {
      if node in visiting {
        ClosesCycle(graph, visiting, visited, finished, path, node);
        return false;
      }
      if node in visited || node !in graph { return true; }
      assert (path != [] ==> IsWalk(graph, path)) && node !in path;
      hide DfsInv, Continues, IsWalk, Acyclic, Edge;
      Enter(graph, visiting, visited, finished, path, node);
      visiting := visiting + {node};
      ok := VisitAll(graph[node], path + [node]);
      if !ok { return; }
      Leave(graph, visiting, visited, finished, path, node);
      visiting := visiting - {node};
      visited := visited + {node};
      finished := finished + [node];
    }

    /** The recursion over the dependencies of the node the branch ends in. */
    method VisitAll(dependencies: seq<Id>, ghost path: seq<Id>) returns (ok: bool)
      requires Valid(path) && path != [] && path[|path| - 1] in graph
      requires dependencies == graph[path[|path| - 1]]
      modifies this
      ensures ok ==> Valid(path) && visiting == old(visiting) && old(visited) <= visited
      ensures ok ==> forall d :: d in dependencies && d in graph ==> d in visited
      ensures !ok ==> !Acyclic(graph)
      decreases |graph.Keys - visiting|, 2, 0
    {
      hide DfsInv, IsWalk, Acyclic;
      for i := 0 to |dependencies|
        invariant Valid(path) && visiting == old(visiting) && old(visited) <= visited
        invariant forall k :: 0 <= k < i && dependencies[k] in graph ==> dependencies[k] in visited
      {
        ok := Visit(dependencies[i], path);
        if !ok { return; }
      }
      ok := true;
    }
  }

  /** Passes exactly the acyclic graphs; edges to unknown ids do not matter. */
  method AssertAcyclic(graph: Graph) returns (ok: bool)
    ensures ok <==> Acyclic(graph)
  {
    var check := new CycleCheck(graph);
    var todo := graph.Keys;
    while todo != {}
      invariant check.graph == graph && check.Valid([])
      invariant todo <= graph.Keys && graph.Keys - todo <= check.visited
      decreases |todo|
    {
      var node :| node in todo;
      todo := todo - {node};
      ok := check.Visit(node, []);
      if !ok { return; }
    }
    assert check.visited == graph.Keys;
    assert forall id :: id in check.finished <==> id in check.visited;
    TopologicalMeansAcyclic(graph, check.finished);
    return true;
  }

  /** A new job whose dependencies are all stored cannot close a cycle: nothing stored points to it. */
  lemma FreshJobClosesNoCycle(g: Graph, id: Id, dependencies: seq<Id>)
    requires Acyclic(g) && id !in g && id !in dependencies
    requires forall x, d :: Edge(g, x, d) ==> d in g
    ensures Acyclic(g[id := dependencies])
  {
    var g' := g[id := dependencies];
    forall p | IsWalk(g', p) && |p| >= 2 ensures p[0] != p[|p| - 1] {
      if p[0] == p[|p| - 1] {
        forall i | 0 <= i < |p| ensures p[i] != id {
          var before := if i == 0 then |p| - 2 else i - 1;
          assert Edge(g', p[before], p[before + 1]);
          assert p[before] != id ==> Edge(g, p[before], p[before + 1]);
        }
        forall i, j | 0 <= i && j == i + 1 && j < |p| ensures Edge(g, p[i], p[j]) {
          assert Edge(g', p[i], p[j]);
        }
        assert IsWalk(g, p);
      }
    }
  }

  // ---- one operation on the stored jobs --------------------------------------------------

  /** Why a submission is turned down; the last is the store's primary key. */
  datatype Refusal = BadAttempts | DependsOnItself | UnknownDependency(dependency: Id) | WouldCycle | IdTaken

  datatype Submission = Accepted | Duplicate(existing: Id) | Refused(why: Refusal)

  ghost predicate Accepts(jobs: Jobs, job: Job) {
    && job.maxAttempts >= 1
    && job.id !in job.dependencies
    && (job.idempotencyKey != "" ==> forall x :: x in jobs ==> jobs[x].idempotencyKey != job.idempotencyKey)
    && (forall d :: d in job.dependencies ==> d in jobs)
    && job.id !in jobs
    && Acyclic(DependencyGraph(jobs)[job.id := job.dependencies])
  }

  predicate Sound(job: Job) {
    job.maxAttempts >= 1 && job.id !in job.dependencies
  }

  predicate KeyTaken(jobs: Jobs, job: Job) {
    job.idempotencyKey != "" && exists x | x in jobs :: jobs[x].idempotencyKey == job.idempotencyKey
  }

  function MissDeadline(job: Job, now: int): Job {
    if job.status == Queued && job.deadline.Some? && now > job.deadline.value then job.(status := Failed) else job
  }

  ghost function MissDeadlines(jobs: Jobs, now: int): (r: Jobs)
    ensures r.Keys == jobs.Keys
  {
    map id | id in jobs :: MissDeadline(jobs[id], now)
  }

  predicate DependenciesDone(jobs: Jobs, id: Id)
    requires id in jobs
  {
    forall d | d in jobs[id].dependencies :: d in jobs && jobs[d].status == Succeeded
  }

  ghost function ReadySet(jobs: Jobs): (ids: set<Id>)
    ensures ids <= jobs.Keys
  {
    set id | id in jobs && jobs[id].status == Queued && DependenciesDone(jobs, id)
  }

  function Started(job: Job): Job {
    job.(status := Running, attempts := job.attempts + 1)
  }

  /** One attempt from start to finish. */
  function Ran(job: Job, attempt: Attempt): Job {
    var running := Started(job);
    match attempt
    case NoDispatcher => running.(status := Failed)
    case RoutingFailed => running.(status := Failed)
    case Raised => running.(status := if running.attempts < running.maxAttempts then Queued else Failed)
    case Completed => running.(status := Succeeded)
  }

  /** The store after the jobs in `done` ran to the end of their attempt and those in `cut` were running at a crash. */
  ghost function AfterRuns(jobs: Jobs, done: set<Id>, cut: set<Id>, outcomes: Outcomes): (r: Jobs)
    ensures r.Keys == jobs.Keys
  {
    map id | id in jobs ::
      if id in done then Ran(jobs[id], outcomes(id)) else if id in cut then Started(jobs[id]) else jobs[id]
  }

  // ---- what a tick means for one job, field by field ---------------------------------------

  predicate Overdue(job: Job, now: int) {
    job.status == Queued && job.deadline.Some? && job.deadline.value < now
  }

  /** Waiting, in time, and every dependency is stored and has succeeded. */
  predicate Runnable(jobs: Jobs, id: Id, now: int)
    requires id in jobs
  {
    && jobs[id].status == Queued
    && (jobs[id].deadline.Some? ==> now <= jobs[id].deadline.value)
    && forall d | d in jobs[id].dependencies :: d in jobs && jobs[d].status == Succeeded
  }

  /** A finished attempt: one more is counted, success only for a completed dispatch, another try only for a raising one
      within the limit, and failure otherwise. */
  predicate EndsAs(job: Job, attempt: Attempt, job': Job) {
    && job' == job.(status := job'.status, attempts := job.attempts + 1)
    && (job'.status == Succeeded <==> attempt == Completed)
    && (job'.status == Queued <==> attempt == Raised && job.attempts + 1 < job.maxAttempts)
    && job'.status in {Succeeded, Queued, Failed}
  }

  lemma RanEnds(job: Job, attempt: Attempt)
    ensures EndsAs(job, attempt, Ran(job, attempt))
  {
  }

  predicate TickedAs(jobs: Jobs, now: int, quiet: bool, outcomes: Outcomes, id: Id, job': Job)
    requires id in jobs
  {
    if Overdue(jobs[id], now) then job' == jobs[id].(status := Failed)
    else if !quiet && Runnable(jobs, id, now) then EndsAs(jobs[id], outcomes(id), job')
    else job' == jobs[id]
  }

  /** A tick fails what is overdue, attempts what can run outside quiet hours, and leaves the rest alone. */
  lemma TickExact(s: State, now: int, quiet: bool, outcomes: Outcomes, id: Id)
    requires id in s.jobs
    ensures Apply(s, Tick(now, quiet, outcomes)).jobs.Keys == s.jobs.Keys
    ensures TickedAs(s.jobs, now, quiet, outcomes, id, Apply(s, Tick(now, quiet, outcomes)).jobs[id])
  {
    hide Ran, EndsAs, DependenciesDone, ReadySet;
    RanEnds(s.jobs[id], outcomes(id));
    ReadyAfterDeadlines(s.jobs, now, id);
  }

  /** Failing overdue jobs makes no other job ready. */
  lemma ReadyAfterDeadlines(jobs: Jobs, now: int, id: Id)
    requires id in jobs
    ensures id in ReadySet(MissDeadlines(jobs, now)) <==> Runnable(jobs, id, now)
  {
    var due := MissDeadlines(jobs, now);
    assert forall d :: d in jobs ==> (due[d].status == Succeeded <==> jobs[d].status == Succeeded);
    assert due[id].dependencies == jobs[id].dependencies;
    assert DependenciesDone(due, id) <==> forall d | d in jobs[id].dependencies :: d in jobs && jobs[d].status == Succeeded;
  }

  /** The process died in a tick: the jobs in `done` ended their attempt, the jobs in `cut` were running. */
  lemma CrashExact(s: State, now: int, quiet: bool, outcomes: Outcomes, done: set<Id>, cut: set<Id>, id: Id)
    requires id in s.jobs && done !! cut
    ensures
      var job, job' := s.jobs[id], Apply(s, Crash(now, quiet, outcomes, done, cut)).jobs[id];
      if Overdue(job, now) then job' == job.(status := Failed)
      else if !quiet && Runnable(s.jobs, id, now) && id in done then EndsAs(job, outcomes(id), job')
      else if !quiet && Runnable(s.jobs, id, now) && id in cut then
        job' == job.(status := Running, attempts := job.attempts + 1)
      else job' == job
  {
    hide Ran, EndsAs, DependenciesDone, ReadySet;
    RanEnds(s.jobs[id], outcomes(id));
    ReadyAfterDeadlines(s.jobs, now, id);
  }

  datatype Op =
    | Submit(job: Job)
    | Cancel(id: Id)
    | Tick(now: int, quiet: bool, outcomes: Outcomes)
    | Crash(now: int, quiet: bool, outcomes: Outcomes, done: set<Id>, cut: set<Id>)
    | CrashListing(now: int, seen: set<Id>)
    | Resume

  /** The stored jobs, and how often a restart requeued each of them. */
  datatype State = State(jobs: Jobs, requeued: map<Id, nat>)

  function Requeues(s: State, id: Id): nat {
    if id in s.requeued then s.requeued[id] else 0
  }

  ghost function Apply(s: State, op: Op): State {
    match op
    case Submit(job) => if Accepts(s.jobs, job) then s.(jobs := s.jobs[job.id := job]) else s
    case Cancel(id) =>
      if id in s.jobs && s.jobs[id].status == Queued then s.(jobs := s.jobs[id := s.jobs[id].(status := Cancelled)]) else s
    case Tick(now, quiet, outcomes) =>
      var due := MissDeadlines(s.jobs, now);
      s.(jobs := if quiet then due else AfterRuns(due, ReadySet(due), {}, outcomes))
    case Crash(now, quiet, outcomes, done, cut) =>
      var due := MissDeadlines(s.jobs, now);
      s.(jobs := if quiet then due else AfterRuns(due, done * ReadySet(due), cut * ReadySet(due), outcomes))
    case CrashListing(now, seen) => s.(jobs := PartlyDue(s.jobs, seen, now, true))
    case Resume =>
      State(
        map id | id in s.jobs ::
          if s.jobs[id].status == Running then s.jobs[id].(status := Queued) else s.jobs[id],
        map id | id in s.jobs ::
          Requeues(s, id) + if s.jobs[id].status == Running then 1 else 0)
  }

  /** Submitted jobs are new: queued and never attempted. */
  predicate Legal(op: Op) {
    op.Submit? ==> op.job.status == Queued && op.job.attempts == 0
  }

  // ---- invariants over whole runs --------------------------------------------------------------

  predicate Attempted(job: Job) {
    job.attempts > 0 || job.status in {Running, Succeeded}
  }

  ghost predicate JobInv(s: State, id: Id)
    requires id in s.jobs
  {
    var job := s.jobs[id];
    && job.id == id && job.maxAttempts >= 1
    && (forall d :: d in job.dependencies ==> d in s.jobs)
    && (Attempted(job) ==> DependenciesDone(s.jobs, id))
    && InBudget(job, Requeues(s, id))
  }

  ghost predicate KeysUnique(jobs: Jobs) {
    forall x, y :: x in jobs && y in jobs && x != y && jobs[x].idempotencyKey == jobs[y].idempotencyKey
      ==> jobs[x].idempotencyKey == ""
  }

  ghost predicate Inv(s: State) {
    && (forall id :: id in s.jobs ==> JobInv(s, id))
    && KeysUnique(s.jobs)
    && Acyclic(DependencyGraph(s.jobs))
  }

  /** A job that has succeeded, failed or been cancelled never changes again. */
  predicate Settled(job: Job) {
    job.status in {Succeeded, Failed, Cancelled}
  }

  lemma SettledAbsorbs(s: State, op: Op, id: Id)
    requires id in s.jobs && Settled(s.jobs[id])
    ensures id in Apply(s, op).jobs && Apply(s, op).jobs[id] == s.jobs[id]
  {
  }

  /** What one operation can do to a stored job that was requeued `k` times. */
  predicate JobStep(job: Job, k: nat, job': Job, k': nat, ready: bool) {
    || (job' == job && k' == k)
    || (job.status == Queued && k' == k && job' == job.(status := job'.status) && job'.status in {Cancelled, Failed})
    || (job.status == Queued && k' == k && ready && (job' == Started(job) || exists a :: job' == Ran(job, a)))
    || (job.status == Running && k' == k + 1 && job' == job.(status := Queued))
  }

  predicate InBudget(job: Job, k: nat) {
    job.attempts <= job.maxAttempts + k && (job.status == Queued ==> job.attempts < job.maxAttempts + k)
  }

  lemma JobStepKeeps(job: Job, k: nat, job': Job, k': nat, ready: bool)
    requires JobStep(job, k, job', k', ready)
    ensures job'.id == job.id && job'.maxAttempts == job.maxAttempts && job'.dependencies == job.dependencies
    ensures job'.idempotencyKey == job.idempotencyKey
    ensures InBudget(job, k) ==> InBudget(job', k')
    ensures Attempted(job') ==> Attempted(job) || ready
  {
  }

  lemma StoredJobSteps(s: State, op: Op, id: Id)
    requires id in s.jobs
    ensures id in Apply(s, op).jobs
    ensures JobStep(s.jobs[id], Requeues(s, id), Apply(s, op).jobs[id], Requeues(Apply(s, op), id),
                    DependenciesDone(s.jobs, id))
  {
    match op
    case Submit(_) =>
    case Cancel(_) =>
    case Resume =>
    case Tick(now, quiet, outcomes) => DueMeans(s.jobs, now, id);
    case Crash(now, quiet, outcomes, _, _) => DueMeans(s.jobs, now, id);
    case CrashListing(_, _) =>
  }

  /** Missing deadlines takes jobs out of the queue and makes none ready. */
  lemma DueMeans(jobs: Jobs, now: int, id: Id)
    requires id in jobs
    ensures id in ReadySet(MissDeadlines(jobs, now)) ==>
      MissDeadlines(jobs, now)[id] == jobs[id] && jobs[id].status == Queued && DependenciesDone(jobs, id)
  {
    if id in ReadySet(MissDeadlines(jobs, now)) {
      forall d | d in jobs[id].dependencies ensures d in jobs && jobs[d].status == Succeeded {
        assert MissDeadlines(jobs, now)[d].status == Succeeded;
      }
    }
  }

  /** Operations other than submission change neither the set of jobs nor what the graph is made of. */
  lemma SameGraph(s: State, op: Op)
    requires !op.Submit?
    ensures Apply(s, op).jobs.Keys == s.jobs.Keys
    ensures DependencyGraph(Apply(s, op).jobs) == DependencyGraph(s.jobs)
    ensures KeysUnique(s.jobs) ==> KeysUnique(Apply(s, op).jobs)
  {
    var s' := Apply(s, op);
    assert s'.jobs.Keys == s.jobs.Keys;
    hide Apply, ReadySet, MissDeadlines, AfterRuns;
    forall id | id in s.jobs
      ensures s'.jobs[id].dependencies == s.jobs[id].dependencies
      ensures s'.jobs[id].idempotencyKey == s.jobs[id].idempotencyKey
    {
      StoredJobSteps(s, op, id);
      JobStepKeeps(s.jobs[id], Requeues(s, id), s'.jobs[id], Requeues(s', id), DependenciesDone(s.jobs, id));
    }
  }

  lemma StoredStay(s: State, op: Op)
    ensures s.jobs.Keys <= Apply(s, op).jobs.Keys
  {
    hide Accepts, ReadySet;
  }

  lemma StepKeepsJob(s: State, op: Op, id: Id)
    requires Inv(s) && Legal(op) && id in s.jobs
    ensures id in Apply(s, op).jobs && JobInv(Apply(s, op), id)
  {
    hide KeysUnique, Acyclic, ReadySet, MissDeadlines, AfterRuns, JobStep, InBudget, Accepts;
    var s' := Apply(s, op);
    assert JobInv(s, id);
    StoredJobSteps(s, op, id);
    StoredStay(s, op);
    JobStepKeeps(s.jobs[id], Requeues(s, id), s'.jobs[id], Requeues(s', id), DependenciesDone(s.jobs, id));
    hide Apply, Ran, Started, Requeues, Attempted;
    if DependenciesDone(s.jobs, id) {
      forall d | d in s.jobs[id].dependencies ensures d in s'.jobs && s'.jobs[d].status == Succeeded {
        SettledAbsorbs(s, op, d);
      }
    }
  }

  lemma SubmitKeepsInv(s: State, job: Job)
    requires Inv(s) && Legal(Submit(job)) && Accepts(s.jobs, job)
    ensures Inv(Apply(s, Submit(job)))
  {
    var s' := Apply(s, Submit(job));
    assert DependencyGraph(s'.jobs) == DependencyGraph(s.jobs)[job.id := job.dependencies];
    hide Acyclic, KeysUnique;
    SubmittedJobInv(s, job);
    SubmitKeepsKeys(s.jobs, job);
    hide JobInv, Accepts;
    forall id | id in s'.jobs ensures JobInv(s', id) {
      if id in s.jobs { StepKeepsJob(s, Submit(job), id); }
    }
  }

  lemma SubmittedJobInv(s: State, job: Job)
    requires Legal(Submit(job)) && Accepts(s.jobs, job)
    ensures JobInv(Apply(s, Submit(job)), job.id)
  {
    hide Acyclic, KeysUnique;
  }

  lemma SubmitKeepsKeys(jobs: Jobs, job: Job)
    requires KeysUnique(jobs) && Accepts(jobs, job)
    ensures KeysUnique(jobs[job.id := job])
  {
    hide Acyclic;
  }

  lemma StepKeepsInv(s: State, op: Op)
    requires Inv(s) && Legal(op)
    ensures Inv(Apply(s, op))
  {
    hide ReadySet, MissDeadlines, AfterRuns, JobInv, KeysUnique, Acyclic, Accepts;
    if op.Submit? {
      if Accepts(s.jobs, op.job) { SubmitKeepsInv(s, op.job); }
    } else {
      SameGraph(s, op);
      forall id | id in Apply(s, op).jobs ensures JobInv(Apply(s, op), id) { StepKeepsJob(s, op, id); }
    }
  }

  ghost function Run(s: State, ops: seq<Op>): State {
    if ops == [] then s else Apply(Run(s, ops[..|ops| - 1]), ops[|ops| - 1])
  }

  const EMPTY := State(map[], map[])

  /** Safety of every run from the empty store: dependencies first, attempts bounded by the budget plus the
      requeues, one job per idempotency key, never a cycle. */
  lemma {:induction false} RunsAreSafe(ops: seq<Op>)
    requires forall op :: op in ops ==> Legal(op)
    ensures Inv(Run(EMPTY, ops))
  {
    if ops == [] {
      assert Acyclic(DependencyGraph(EMPTY.jobs)) by { RankMeansAcyclic(DependencyGraph(EMPTY.jobs), map[]); }
    } else {
      assert ops[|ops| - 1] in ops;
      RunsAreSafe(ops[..|ops| - 1]);
      StepKeepsInv(Run(EMPTY, ops[..|ops| - 1]), ops[|ops| - 1]);
    }
  }

  /** Whatever a run did by its `n`-th operation to a settled job is final. */
  lemma {:induction false} SettledForGood(s: State, ops: seq<Op>, n: nat, id: Id)
    requires n <= |ops| && id in Run(s, ops[..n]).jobs && Settled(Run(s, ops[..n]).jobs[id])
    ensures id in Run(s, ops).jobs && Run(s, ops).jobs[id] == Run(s, ops[..n]).jobs[id]
    decreases |ops|
  {
    if n == |ops| {
      assert ops[..n] == ops;
    } else {
      var front := ops[..|ops| - 1];
      assert front[..n] == ops[..n];
      SettledForGood(s, front, n, id);
      SettledAbsorbs(Run(s, front), ops[|ops| - 1], id);
    }
  }

  /** In a reachable store the depth-first check turns a submission down exactly when its id is taken and one of its
      dependencies depends on the stored job of that id. */
  lemma CycleCheckFiresIff(s: State, job: Job)
    requires Inv(s) && job.id !in job.dependencies
    requires forall d :: d in job.dependencies ==> d in s.jobs
    ensures !Acyclic(DependencyGraph(s.jobs)[job.id := job.dependencies]) <==>
      job.id in s.jobs && exists d :: d in job.dependencies && Reaches(DependencyGraph(s.jobs), d, job.id)
  {
    var g := DependencyGraph(s.jobs);
    if job.id in s.jobs {
      ReplaceClosesIff(g, job.id, job.dependencies);
    } else {
      CycleCheckIsRedundant(s, job);
    }
  }

  /** So it never does for a fresh id. */
  lemma CycleCheckIsRedundant(s: State, job: Job)
    requires Inv(s) && job.id !in job.dependencies && job.id !in s.jobs
    requires forall d :: d in job.dependencies ==> d in s.jobs
    ensures Acyclic(DependencyGraph(s.jobs)[job.id := job.dependencies])
  {
    var g := DependencyGraph(s.jobs);
    forall x, d | Edge(g, x, d) ensures d in g { assert JobInv(s, x); }
    FreshJobClosesNoCycle(g, job.id, job.dependencies);
  }

  /** And it does for this one: `b` was stored depending on `a`, and `a` comes again depending on `b`. */
  lemma CycleCheckCanFire() returns (ops: seq<Op>, job: Job)
    ensures (forall op :: op in ops ==> Legal(op)) && Inv(Run(EMPTY, ops))
    ensures job.id !in job.dependencies && forall d :: d in job.dependencies ==> d in Run(EMPTY, ops).jobs
    ensures !Acyclic(DependencyGraph(Run(EMPTY, ops).jobs)[job.id := job.dependencies])
  {
    var a := Job("a", [], 0, 0, None, "", Queued, 0, 1);
    var b := a.(id := "b", dependencies := ["a"]);
    ops, job := [Submit(a), Submit(b)], a.(dependencies := ["b"]);
    RunsAreSafe(ops);
    TwoStored(a, b, ops);
    var s := Run(EMPTY, ops);
    hide Run, Inv, Acyclic, Apply;
    assert Edge(DependencyGraph(s.jobs), "b", "a");
    EdgeReaches(DependencyGraph(s.jobs), "b", "a");
    assert "b" in job.dependencies && Reaches(DependencyGraph(s.jobs), "b", "a");
    CycleCheckFiresIff(s, job);
  }

  lemma TwoStored(a: Job, b: Job, ops: seq<Op>)
    requires a == Job("a", [], 0, 0, None, "", Queued, 0, 1) && b == a.(id := "b", dependencies := ["a"])
    requires ops == [Submit(a), Submit(b)]
    ensures Run(EMPTY, ops) == State(map["a" := a, "b" := b], map[])
  {
    assert ops[..1] == [Submit(a)] && ops[..1][..0] == [];
    RankMeansAcyclic(DependencyGraph(map[])["a" := []], map["a" := 0]);
    assert Run(EMPTY, ops[..1]) == State(map["a" := a], map[]);
    RankMeansAcyclic(DependencyGraph(map["a" := a])["b" := ["a"]], map["a" := 0, "b" := 1]);
  }

  // ---- progress -----------------------------------------------------------------------------------

  /** Nothing is running and nothing queued could run. */
  ghost predicate Idle(jobs: Jobs) {
    ReadySet(jobs) == {} && forall id :: id in jobs ==> jobs[id].status != Running
  }

  lemma {:induction false} BlockedBy(s: State, r: map<Id, nat>, id: Id) returns (cause: Id)
    requires Inv(s) && Idle(s.jobs) && id in s.jobs && s.jobs[id].status == Queued
    requires RanksOn(DependencyGraph(s.jobs), s.jobs.Keys, r)
    ensures Reaches(DependencyGraph(s.jobs), id, cause)
    ensures cause in s.jobs && s.jobs[cause].status in {Failed, Cancelled}
    decreases r[id]
  {
    var g := DependencyGraph(s.jobs);
    assert JobInv(s, id) && id !in ReadySet(s.jobs);
    var d :| d in s.jobs[id].dependencies && s.jobs[d].status != Succeeded;
    assert Edge(g, id, d);
    if s.jobs[d].status == Queued {
      cause := BlockedBy(s, r, d);
      EdgeThenReaches(g, id, d, cause);
    } else {
      cause := d;
      EdgeReaches(g, id, d);
    }
  }

  /** No deadlock: when a reachable store is idle, every queued job waits for one that failed or was cancelled. */
  lemma IdleMeansBlocked(s: State, id: Id)
    requires Inv(s) && Idle(s.jobs) && id in s.jobs && s.jobs[id].status == Queued
    ensures exists cause ::
      Reaches(DependencyGraph(s.jobs), id, cause) && cause in s.jobs && s.jobs[cause].status in {Failed, Cancelled}
  {
    var r := RankExists(DependencyGraph(s.jobs), s.jobs.Keys);
    var cause := BlockedBy(s, r, id);
  }

  /** Attempts a queued job may still cost; a requeued job gets one more even when its budget is spent. */
  function Remaining(job: Job): nat {
    if job.status != Queued then 0
    else if job.attempts < job.maxAttempts then job.maxAttempts - job.attempts
    else 1
  }

  /** One token for each remaining attempt of each job; their number is the sum of `Remaining`. */
  ghost function Tokens(jobs: Jobs): set<(Id, nat)> {
    set id, k: nat | id in jobs && k < Remaining(jobs[id]) :: (id, k)
  }

  lemma TickRemaining(s: State, now: int, outcomes: Outcomes)
    ensures var s' := Apply(s, Tick(now, false, outcomes));
            && s'.jobs.Keys == s.jobs.Keys
            && forall id :: id in s.jobs ==>
              && Remaining(s'.jobs[id]) <= Remaining(s.jobs[id])
              && (id in ReadySet(MissDeadlines(s.jobs, now)) ==> Remaining(s'.jobs[id]) < Remaining(s.jobs[id]))
  {
    hide DependenciesDone;
  }

  /** A tick outside quiet hours with something to run or a deadline to miss uses up tokens. */
  lemma TickUsesTokens(s: State, now: int, outcomes: Outcomes)
    ensures |Tokens(Apply(s, Tick(now, false, outcomes)).jobs)| <= |Tokens(s.jobs)|
    ensures ReadySet(MissDeadlines(s.jobs, now)) != {} ==>
      |Tokens(Apply(s, Tick(now, false, outcomes)).jobs)| < |Tokens(s.jobs)|
  {
    var s' := Apply(s, Tick(now, false, outcomes));
    TickRemaining(s, now, outcomes);
    hide Apply, Remaining, ReadySet, MissDeadlines;
    assert Tokens(s'.jobs) <= Tokens(s.jobs);
    var ready := ReadySet(MissDeadlines(s.jobs, now));
    if ready != {} {
      var id :| id in ready;
      var k := Remaining(s.jobs[id]) - 1;
      assert (id, k) in Tokens(s.jobs) && (id, k) !in Tokens(s'.jobs);
    }
    SubsetSize(Tokens(s'.jobs), Tokens(s.jobs));
  }

  /** One tick outside quiet hours. */
  datatype Pulse = Pulse(now: int, outcomes: Outcomes)

  ghost function RunPulses(s: State, pulses: seq<Pulse>): State {
    if pulses == [] then s
    else
      var front, last := pulses[..|pulses| - 1], pulses[|pulses| - 1];
      Apply(RunPulses(s, front), Tick(last.now, false, last.outcomes))
  }

  ghost predicate AllProductive(s: State, pulses: seq<Pulse>) {
    forall i :: 0 <= i < |pulses| ==> ReadySet(MissDeadlines(RunPulses(s, pulses[..i]).jobs, pulses[i].now)) != {}
  }

  /** Without new submissions or requeues only so many ticks find work, whatever their outcomes. */
  lemma {:induction false} ProductiveTicksBounded(s: State, pulses: seq<Pulse>)
    requires AllProductive(s, pulses)
    ensures |pulses| + |Tokens(RunPulses(s, pulses).jobs)| <= |Tokens(s.jobs)|
  {
    hide Apply, Tokens, ReadySet, MissDeadlines;
    if pulses != [] {
      var front, last := pulses[..|pulses| - 1], pulses[|pulses| - 1];
      assert ReadySet(MissDeadlines(RunPulses(s, front).jobs, last.now)) != {};
      forall i | 0 <= i < |front|
        ensures ReadySet(MissDeadlines(RunPulses(s, front[..i]).jobs, front[i].now)) != {}
      {
        assert front[..i] == pulses[..i] && front[i] == pulses[i];
      }
      ProductiveTicksBounded(s, front);
      TickUsesTokens(RunPulses(s, front), last.now, last.outcomes);
    }
  }

  /** The plain budget `maxAttempts - attempts` is no such measure: a reachable requeued job can be attempted
      beyond its budget while the sum over queued jobs stays where it was. */
  lemma PlainBudgetStalls() returns (ops: seq<Op>, before: State, after: State, id: Id)
    ensures ops != [] && (forall op :: op in ops ==> Legal(op)) && ops[|ops| - 1].Tick?
    ensures before == Run(EMPTY, ops[..|ops| - 1]) && after == Run(EMPTY, ops)
    ensures before.jobs.Keys == after.jobs.Keys == {id}
    ensures before.jobs[id].status == Queued && before.jobs[id].maxAttempts - before.jobs[id].attempts == 0
    ensures after.jobs[id].status == Failed && after.jobs[id].attempts > after.jobs[id].maxAttempts
  {
    hide Run, Apply;
    var job := Job("j", [], 0, 0, None, "", Queued, 0, 1);
    var fails: Outcomes := _ => Raised;
    id := "j";
    ops := [Submit(job), Crash(0, false, fails, {}, {"j"}), Resume, Tick(0, false, fails)];
    before := State(map["j" := job.(status := Queued, attempts := 1)], map["j" := 1]);
    after := State(map["j" := job.(status := Failed, attempts := 2)], map["j" := 1]);
    StallingRun(job, fails, before, after);
    RunFour(EMPTY, ops);
  }

  lemma StallingRun(job: Job, fails: Outcomes, before: State, after: State)
    requires job == Job("j", [], 0, 0, None, "", Queued, 0, 1) && fails("j") == Raised
    requires before == State(map["j" := job.(status := Queued, attempts := 1)], map["j" := 1])
    requires after == State(map["j" := job.(status := Failed, attempts := 2)], map["j" := 1])
    ensures Apply(Apply(Apply(EMPTY, Submit(job)), Crash(0, false, fails, {}, {"j"})), Resume) == before
    ensures Apply(before, Tick(0, false, fails)) == after
  {
    hide Apply, Accepts;
    var s1 := State(map["j" := job], map[]);
    FirstSubmission(job);
    OneJobRuns(s1, Crash(0, false, fails, {}, {"j"}));
    OneJobRequeued(State(map["j" := Started(job)], map[]));
    OneJobRuns(before, Tick(0, false, fails));
  }

  lemma FirstSubmission(job: Job)
    requires job.id == "j" && job.dependencies == [] && job.maxAttempts >= 1
    ensures Apply(EMPTY, Submit(job)) == State(map["j" := job], map[])
  {
    RankMeansAcyclic(map["j" := []], map["j" := 0]);
    assert DependencyGraph(map[])["j" := []] == map["j" := []];
  }

  lemma OneJobRuns(s: State, op: Op)
    requires s.jobs.Keys == {"j"} && s.jobs["j"].dependencies == [] && s.jobs["j"].deadline == None
    requires s.jobs["j"].status == Queued && (op.Tick? || (op.Crash? && op.done == {} && op.cut == {"j"})) && !op.quiet
    ensures Apply(s, op) == s.(jobs :=
      map["j" := if op.Tick? then Ran(s.jobs["j"], op.outcomes("j")) else Started(s.jobs["j"])])
  {
    var due := MissDeadlines(s.jobs, op.now);
    assert due == s.jobs;
    assert "j" in ReadySet(due);
  }

  lemma OneJobRequeued(s: State)
    requires s.jobs.Keys == {"j"} && s.jobs["j"].status == Running && s.requeued == map[]
    ensures Apply(s, Resume) == State(map["j" := s.jobs["j"].(status := Queued)], map["j" := 1])
  {
  }

  lemma RunFour(s: State, ops: seq<Op>)
    requires |ops| == 4
    ensures Run(s, ops[..3]) == Apply(Apply(Apply(s, ops[0]), ops[1]), ops[2])
    ensures Run(s, ops) == Apply(Apply(Apply(Apply(s, ops[0]), ops[1]), ops[2]), ops[3])
  {
    hide Apply;
    assert ops[..3][..2] == ops[..2] && ops[..2][..1] == ops[..1] && ops[..1][..0] == [];
    assert Run(s, ops[..1]) == Apply(s, ops[0]);
    assert Run(s, ops[..2]) == Apply(Run(s, ops[..1]), ops[1]);
  }

  // ---- order -------------------------------------------------------------------------------------

  /** Lexicographic order on ids. */
  predicate LexLe(a: string, b: string) {
    a == [] || (b != [] && (a[0] < b[0] || (a[0] == b[0] && LexLe(a[1..], b[1..]))))
  }

  lemma {:induction false} LexTotal(a: string, b: string)
    ensures LexLe(a, b) || LexLe(b, a)
  {
    if a != [] && b != [] { LexTotal(a[1..], b[1..]); }
  }

  lemma {:induction false} LexTransitive(a: string, b: string, c: string)
    requires LexLe(a, b) && LexLe(b, c)
    ensures LexLe(a, c)
  {
    if a != [] && b != [] && c != [] && a[0] == b[0] == c[0] { LexTransitive(a[1..], b[1..], c[1..]); }
  }

  /** Higher priority first, then older, then smaller id. */
  predicate Precedes(a: Job, b: Job) {
    || a.priority > b.priority
    || (a.priority == b.priority && a.createdAt < b.createdAt)
    || (a.priority == b.priority && a.createdAt == b.createdAt && LexLe(a.id, b.id))
  }

  lemma PrecedesTotal(a: Job, b: Job)
    ensures Precedes(a, b) || Precedes(b, a)
  {
    LexTotal(a.id, b.id);
  }

  lemma PrecedesTransitive(a: Job, b: Job, c: Job)
    requires Precedes(a, b) && Precedes(b, c)
    ensures Precedes(a, c)
  {
    if LexLe(a.id, b.id) && LexLe(b.id, c.id) { LexTransitive(a.id, b.id, c.id); }
  }

  /** The comparison of ids: a prefix comes first, else the first character that differs decides. */
  lemma {:induction false} LexLeMeans(a: string, b: string)
    ensures LexLe(a, b) <==> a <= b || exists k :: FirstDifference(a, b, k) && a[k] < b[k]
  {
    if a == [] || b == [] {
    } else if a[0] != b[0] {
      assert FirstDifference(a, b, 0);
      forall k | 0 < k <= |a| && k <= |b| ensures a[..k] != b[..k] { assert a[..k][0] != b[..k][0]; }
    } else {
      var x, y := a[1..], b[1..];
      LexLeMeans(x, y);
      assert a == [a[0]] + x && b == [b[0]] + y;
      assert a <= b <==> x <= y by { if a <= b { assert x == b[..|a|][1..]; } }
      forall k | FirstDifference(x, y, k) ensures FirstDifference(a, b, k + 1) && a[k + 1] == x[k] && b[k + 1] == y[k] {
        assert a[..k + 1] == [a[0]] + x[..k] && b[..k + 1] == [b[0]] + y[..k];
      }
      forall k | FirstDifference(a, b, k)
        ensures k > 0 && FirstDifference(x, y, k - 1) && a[k] == x[k - 1] && b[k] == y[k - 1]
      {
        assert x[..k - 1] == a[..k][1..] && y[..k - 1] == b[..k][1..];
      }
    }
  }

  predicate FirstDifference(a: string, b: string, k: int) {
    0 <= k < |a| && k < |b| && a[..k] == b[..k] && a[k] != b[k]
  }

  /** Priority decides, among equals age, and only then the id. */
  ghost predicate BestFirst(jobs: Jobs, ids: seq<Id>) {
    forall i, j :: 0 <= i < j < |ids| && ids[i] in jobs && ids[j] in jobs ==>
      var a, b := jobs[ids[i]], jobs[ids[j]];
      && a.priority >= b.priority
      && (a.priority == b.priority ==> a.createdAt <= b.createdAt)
      && (a.priority == b.priority && a.createdAt == b.createdAt ==> LexLe(a.id, b.id))
  }

  lemma SameRanks(jobs: Jobs, now: int, ids: seq<Id>)
    requires BestFirst(MissDeadlines(jobs, now), ids)
    ensures BestFirst(jobs, ids)
  {
    hide LexLe;
    var due := MissDeadlines(jobs, now);
    forall id | id in jobs
      ensures due[id].priority == jobs[id].priority && due[id].createdAt == jobs[id].createdAt && due[id].id == jobs[id].id
    {
    }
  }

  lemma RankedBestFirst(jobs: Jobs, ids: seq<Id>)
    requires Ranked(jobs, ids)
    ensures BestFirst(jobs, ids)
  {
  }

  ghost predicate Ranked(jobs: Jobs, ids: seq<Id>) {
    && (forall id :: id in ids ==> id in jobs)
    && (forall i, j :: 0 <= i < j < |ids| ==> Precedes(jobs[ids[i]], jobs[ids[j]]))
  }

  method InsertRanked(jobs: Jobs, ids: seq<Id>, id: Id) returns (r: seq<Id>)
    requires Ranked(jobs, ids) && id in jobs && id !in ids && NoDuplicates(ids)
    ensures Ranked(jobs, r) && NoDuplicates(r)
    ensures forall x :: x in r <==> x in ids || x == id
  {
    var i := 0;
    while i < |ids| && Precedes(jobs[ids[i]], jobs[id])
      invariant 0 <= i <= |ids|
      invariant forall k :: 0 <= k < i ==> Precedes(jobs[ids[k]], jobs[id])
    {
      i := i + 1;
    }
    forall k | i <= k < |ids| ensures Precedes(jobs[id], jobs[ids[k]]) {
      PrecedesTotal(jobs[id], jobs[ids[i]]);
      if k > i { PrecedesTransitive(jobs[id], jobs[ids[i]], jobs[ids[k]]); }
    }
    r := ids[..i] + [id] + ids[i..];
    assert forall x :: x in ids <==> x in ids[..i] || x in ids[i..];
  }

  // ---- the scheduler --------------------------------------------------------------------------------

  class GlobalScheduler {
    const quietHours: Option<(int, int)>
    var jobs: Jobs
    ghost var requeued: map<Id, nat>

    constructor (quietHours: Option<(int, int)>)
      ensures this.quietHours == quietHours && View() == EMPTY
    {
      this.quietHours := quietHours;
      jobs := map[];
      requeued := map[];
    }

    ghost function View(): State
      reads this
    {
      State(jobs, requeued)
    }

    method SubmitJob(job: Job) returns (r: Submission)
      modifies this
      ensures View() == Apply(old(View()), Submit(job))
      ensures r == Accepted <==> Accepts(old(jobs), job)
      ensures jobs == if r == Accepted then old(jobs)[job.id := job] else old(jobs)
      // the first objection decides
      ensures r == Refused(BadAttempts) <==> job.maxAttempts < 1
      ensures r == Refused(DependsOnItself) <==> job.maxAttempts >= 1 && job.id in job.dependencies
      ensures r.Duplicate? <==> Sound(job) && KeyTaken(old(jobs), job)
      ensures r.Duplicate? ==> r.existing in jobs && jobs[r.existing].idempotencyKey == job.idempotencyKey
      ensures (exists d :: r == Refused(UnknownDependency(d))) <==>
        Sound(job) && !KeyTaken(old(jobs), job) && exists d :: d in job.dependencies && d !in old(jobs)
      ensures forall d :: r == Refused(UnknownDependency(d)) ==> d in job.dependencies && d !in old(jobs)
      ensures r == Refused(WouldCycle) <==>
        && Sound(job) && !KeyTaken(old(jobs), job) && (forall d :: d in job.dependencies ==> d in old(jobs))
        && !Acyclic(DependencyGraph(old(jobs))[job.id := job.dependencies])
      ensures r == Refused(IdTaken) ==> job.id in old(jobs)
    {
      if job.maxAttempts < 1 { return Refused(BadAttempts); }
      if job.id in job.dependencies { return Refused(DependsOnItself); }
      if job.idempotencyKey != "" && exists x | x in jobs :: jobs[x].idempotencyKey == job.idempotencyKey {
        var x :| x in jobs && jobs[x].idempotencyKey == job.idempotencyKey;
        return Duplicate(x);
      }
      if exists d | d in job.dependencies :: d !in jobs {
        var d :| d in job.dependencies && d !in jobs;
        return Refused(UnknownDependency(d));
      }
      var graph: Graph := map id | id in jobs :: jobs[id].dependencies;
      var ok := AssertAcyclic(graph[job.id := job.dependencies]);
      if !ok { return Refused(WouldCycle); }
      if job.id in jobs { return Refused(IdTaken); }
      jobs := jobs[job.id := job];
      return Accepted;
    }

    /** Cancels a queued job; any other is refused unchanged. */
    method CancelJob(id: Id) returns (ok: bool)
      modifies this
      ensures View() == Apply(old(View()), Cancel(id))
      ensures ok <==> id in old(jobs) && old(jobs)[id].status == Queued
      ensures jobs == if ok then old(jobs)[id := old(jobs)[id].(status := Cancelled)] else old(jobs)
    {
      if id !in jobs || jobs[id].status != Queued { return false; }
      jobs := jobs[id := jobs[id].(status := Cancelled)];
      return true;
    }

    /** One job of the pass over the store. */
    method Consider(id: Id, now: int, quiet: bool, applyDeadlines: bool, picked0: set<Id>, ghost before: Jobs, ghost seen: set<Id>)
      returns (picked: set<Id>)
      requires id in before && id !in seen
      requires jobs == PartlyDue(before, seen, now, applyDeadlines) && picked0 == Eligible(before, seen, now, quiet)
      modifies this`jobs
      ensures jobs == PartlyDue(before, seen + {id}, now, applyDeadlines)
      ensures picked == Eligible(before, seen + {id}, now, quiet)
    {
      hide PartlyDue, Eligible, DependenciesDone;
      PickStep(before, seen, now, quiet, applyDeadlines, id);
      picked := picked0;
      var job := jobs[id];
      if job.status == Queued {
        if job.deadline.Some? && now > job.deadline.value {
          if applyDeadlines { jobs := jobs[id := job.(status := Failed)]; }
        } else if DependenciesDone(jobs, id) && !quiet {
          picked := picked + {id};
        }
      }
    }

    /** The jobs to run now, best first; missed deadlines are failed on the way when asked to. */
    method Ready(now: int, hour: int, applyDeadlines: bool) returns (ready: seq<Id>)
      modifies this`jobs
      ensures jobs == if applyDeadlines then MissDeadlines(old(jobs), now) else old(jobs)
      ensures Ranked(jobs, ready) && NoDuplicates(ready) && BestFirst(jobs, ready)
      ensures forall id :: id in ready <==>
        id in old(jobs) && !InQuietHours(quietHours, hour) && Runnable(old(jobs), id, now)
      ensures forall id :: id in ready <==>
        !InQuietHours(quietHours, hour) && id in ReadySet(MissDeadlines(old(jobs), now))
    {
      hide PartlyDue, Eligible, DependenciesDone, MissDeadlines, ReadySet, Ranked, Runnable, BestFirst;
      var quiet := InQuietHours(quietHours, hour);
      ghost var before, seen: set<Id> := jobs, {};
      PickedNone(jobs, now, quiet, applyDeadlines);
      var todo := jobs.Keys;
      var picked: set<Id> := {};
      while todo != {}
        invariant todo <= before.Keys
        invariant seen == before.Keys - todo
        invariant jobs == PartlyDue(before, seen, now, applyDeadlines)
        invariant picked == Eligible(before, seen, now, quiet)
        decreases |todo|
      {
        var id :| id in todo;
        NextOfTodo(before.Keys, todo, seen, id);
        picked := Consider(id, now, quiet, applyDeadlines, picked, before, seen);
        todo, seen := todo - {id}, seen + {id};
      }
      assert seen == before.Keys;
      PickedAll(before, now, quiet, applyDeadlines);
      ready := RankAll(picked);
      RankedBestFirst(jobs, ready);
      forall id | id in before ensures id in ReadySet(MissDeadlines(before, now)) <==> Runnable(before, id, now) {
        ReadyAfterDeadlines(before, now, id);
      }
    }

    method RankAll(picked: set<Id>) returns (ready: seq<Id>)
      requires picked <= jobs.Keys
      ensures Ranked(jobs, ready) && NoDuplicates(ready)
      ensures forall id :: id in ready <==> id in picked
    {
      ready := [];
      var todo := picked;
      while todo != {}
        invariant todo <= picked
        invariant Ranked(jobs, ready) && NoDuplicates(ready)
        invariant forall id :: id in ready <==> id in picked - todo
        decreases |todo|
      {
        var id :| id in todo;
        todo := todo - {id};
        ready := InsertRanked(jobs, ready, id);
      }
    }

    /** One attempt: stored as running, then as whatever the dispatch made of it. */
    method RunOne(id: Id, attempt: Attempt)
      requires id in jobs
      modifies this`jobs
      ensures jobs == old(jobs)[id := Ran(old(jobs)[id], attempt)]
      ensures EndsAs(old(jobs)[id], attempt, jobs[id])
    {
      var job := Started(jobs[id]);
      jobs := jobs[id := job];
      match attempt
      case NoDispatcher => jobs := jobs[id := job.(status := Failed)];
      case RoutingFailed => jobs := jobs[id := job.(status := Failed)];
      case Raised =>
        if job.attempts < job.maxAttempts {
          jobs := jobs[id := job.(status := Queued)];
        } else {
          jobs := jobs[id := job.(status := Failed)];
        }
      case Completed => jobs := jobs[id := job.(status := Succeeded)];
    }

    method RunFirst(ready: seq<Id>, n: nat, outcomes: Outcomes)
      requires n <= |ready| && NoDuplicates(ready) && forall id :: id in ready ==> id in jobs
      modifies this`jobs
      ensures jobs == AfterRuns(old(jobs), Members(ready[..n]), {}, outcomes)
    {
      hide Members, AfterRuns, Ran;
      MembersNone();
      NothingRan(jobs, outcomes);
      assert ready[..0] == [];
      for k := 0 to n
        invariant jobs == AfterRuns(old(jobs), Members(ready[..k]), {}, outcomes)
      {
        MembersNext(ready, k);
        AfterOneMore(old(jobs), Members(ready[..k]), ready[k], outcomes);
        RunOne(ready[k], outcomes(ready[k]));
      }
    }

    method TickOnce(now: int, hour: int, outcomes: Outcomes) returns (ran: seq<Id>)
      modifies this
      ensures View() == Apply(old(View()), Tick(now, InQuietHours(quietHours, hour), outcomes))
      ensures forall id :: id in ran <==>
        !InQuietHours(quietHours, hour) && id in ReadySet(MissDeadlines(old(jobs), now))
      ensures Ranked(MissDeadlines(old(jobs), now), ran) && NoDuplicates(ran) && BestFirst(old(jobs), ran)
      ensures jobs.Keys == old(jobs).Keys
      ensures forall id :: id in old(jobs) ==>
        TickedAs(old(jobs), now, InQuietHours(quietHours, hour), outcomes, id, jobs[id])
      ensures forall id :: id in ran <==>
        id in old(jobs) && !InQuietHours(quietHours, hour) && Runnable(old(jobs), id, now)
    {
      hide TickedAs, Runnable, BestFirst;
      ghost var s := View();
      ghost var due := MissDeadlines(jobs, now);
      ran := Ready(now, hour, true);
      RunFirst(ran, |ran|, outcomes);
      assert ran[..|ran|] == ran;
      ghost var done := Members(ran);
      if InQuietHours(quietHours, hour) {
        assert done == {};
        NothingRan(due, outcomes);
      } else {
        assert done == ReadySet(due);
      }
      SameRanks(s.jobs, now, ran);
      forall id | id in s.jobs
        ensures jobs.Keys == s.jobs.Keys
        ensures TickedAs(s.jobs, now, InQuietHours(quietHours, hour), outcomes, id, jobs[id])
      {
        TickExact(s, now, InQuietHours(quietHours, hour), outcomes, id);
      }
    }

    /** The process dies while the job after the first `k` ready ones is being dispatched. */
    method CrashDuringTick(now: int, hour: int, outcomes: Outcomes, k: nat) returns (ghost done: set<Id>, ghost cut: set<Id>)
      modifies this
      ensures View() == Apply(old(View()), Crash(now, InQuietHours(quietHours, hour), outcomes, done, cut))
      ensures |cut| <= 1 && done !! cut
    {
      hide Ranked, DependenciesDone, Members, AfterRuns;
      ghost var due := MissDeadlines(jobs, now);
      var ready := Ready(now, hour, true);
      var n := if k < |ready| then k else |ready|;
      done := Members(ready[..n]);
      cut := {};
      RunFirst(ready, n, outcomes);
      if n < |ready| {
        var id := ready[n];
        MembersNext(ready, n);
        cut := {id};
        CutOne(due, done, id, outcomes);
        jobs := jobs[id := Started(jobs[id])];
      }
      MembersPrefix(ready, n);
      if InQuietHours(quietHours, hour) {
        NoMembers(ready);
        MembersNone();
        assert ready[..n] == [];
        NothingRan(due, outcomes);
      } else {
        assert done * ReadySet(due) == done && cut * ReadySet(due) == cut;
      }
    }

    /** The process dies in the pass that lists the ready jobs, after the `k` jobs it had come to. */
    method CrashWhileListing(now: int, hour: int, k: nat) returns (ghost seen: set<Id>)
      modifies this
      ensures View() == Apply(old(View()), CrashListing(now, seen))
      ensures seen <= old(jobs).Keys && |seen| <= k
    {
      hide PartlyDue, Eligible, DependenciesDone;
      var quiet := InQuietHours(quietHours, hour);
      ghost var before := jobs;
      seen := {};
      PickedNone(jobs, now, quiet, true);
      var todo, n := jobs.Keys, 0;
      var picked: set<Id> := {};
      while todo != {} && n < k
        invariant n == |seen| <= k && todo <= before.Keys && seen == before.Keys - todo
        invariant jobs == PartlyDue(before, seen, now, true) && picked == Eligible(before, seen, now, quiet)
        invariant requeued == old(requeued)
        decreases |todo|
      {
        var id :| id in todo;
        NextOfTodo(before.Keys, todo, seen, id);
        picked := Consider(id, now, quiet, true, picked, before, seen);
        todo, seen, n := todo - {id}, seen + {id}, n + 1;
      }
    }

    /** After a restart: whatever was running is queued again. */
    method ResumeInterrupted() returns (reset: set<Id>)
      modifies this
      ensures View() == Apply(old(View()), Resume)
      ensures reset == set id | id in old(jobs) && old(jobs)[id].status == Running
      ensures jobs.Keys == old(jobs).Keys && forall id :: id in old(jobs) ==>
        jobs[id] == if id in reset then old(jobs)[id].(status := Queued) else old(jobs)[id]
    {
      hide PartlyReset, WasRunning;
      ghost var before, seen: set<Id> := jobs, {};
      ResetNone(before);
      reset := {};
      var todo := jobs.Keys;
      while todo != {}
        invariant todo <= before.Keys && seen == before.Keys - todo
        invariant jobs == PartlyReset(before, seen) && reset == WasRunning(before, seen)
        invariant requeued == old(requeued)
        decreases |todo|
      {
        var id :| id in todo;
        NextOfTodo(before.Keys, todo, seen, id);
        reset := ResetOne(id, reset, before, seen);
        todo, seen := todo - {id}, seen + {id};
      }
      ResetAll(State(before, requeued), seen);
      requeued := Apply(State(before, requeued), Resume).requeued;
    }

    /** One job of that pass. */
    method ResetOne(id: Id, reset0: set<Id>, ghost before: Jobs, ghost seen: set<Id>) returns (reset: set<Id>)
      requires id in before && id !in seen
      requires jobs == PartlyReset(before, seen) && reset0 == WasRunning(before, seen)
      modifies this`jobs
      ensures jobs == PartlyReset(before, seen + {id}) && reset == WasRunning(before, seen + {id})
    {
      ResetStep(before, seen, id);
      hide PartlyReset, WasRunning;
      reset := reset0;
      if jobs[id].status == Running {
        jobs := jobs[id := jobs[id].(status := Queued)];
        reset := reset + {id};
      }
    }

    method TickOrIdle(pulse: Pulse) returns (idle: bool)
      requires quietHours == None && Inv(View()) && forall id :: id in jobs ==> jobs[id].status != Running
      modifies this
      ensures Inv(View()) && forall id :: id in jobs ==> jobs[id].status != Running
      ensures |Tokens(jobs)| <= |Tokens(old(jobs))|
      ensures if idle then Idle(jobs) else |Tokens(jobs)| < |Tokens(old(jobs))|
    {
      hide Inv, Tokens, Ranked, ReadySet, MissDeadlines, AfterRuns;
      ghost var s := View();
      StepKeepsInv(s, Tick(pulse.now, false, pulse.outcomes));
      TickUsesTokens(s, pulse.now, pulse.outcomes);
      TickLeavesNoneRunning(s, pulse.now, pulse.outcomes);
      var ran := TickOnce(pulse.now, 12, pulse.outcomes);
      idle := ran == [];
      if idle {
        assert ReadySet(MissDeadlines(s.jobs, pulse.now)) == {};
        NothingRan(MissDeadlines(s.jobs, pulse.now), pulse.outcomes);
      } else {
        assert ran[0] in ran;
      }
    }

    /** Ticks until a tick finds nothing to run.  It stops, and then every job still queued waits for one
        that failed or was cancelled. */
    method RunUntilIdle(pulses: nat -> Pulse) returns (ticks: nat)
      requires quietHours == None && Inv(View()) && forall id :: id in jobs ==> jobs[id].status != Running
      modifies this
      ensures Inv(View()) && Idle(jobs)
      ensures ticks <= |Tokens(old(jobs))| + 1
      ensures forall id :: id in jobs && jobs[id].status == Queued ==>
        exists cause :: Reaches(DependencyGraph(jobs), id, cause) && cause in jobs && jobs[cause].status in {Failed, Cancelled}
    {
      ticks := 0;
      var idle := false;
      while !idle
        invariant Inv(View()) && forall id :: id in jobs ==> jobs[id].status != Running
        invariant idle ==> Idle(jobs)
        invariant ticks + |Tokens(jobs)| <= |Tokens(old(jobs))| + if idle then 1 else 0
        decreases !idle, |Tokens(jobs)|
      {
        hide Inv, Tokens, DependenciesDone, Ranked, Idle;
        idle := TickOrIdle(pulses(ticks));
        ticks := ticks + 1;
      }
      forall id | id in jobs && jobs[id].status == Queued
        ensures exists cause :: Reaches(DependencyGraph(jobs), id, cause) && cause in jobs && jobs[cause].status in {Failed, Cancelled}
      {
        IdleMeansBlocked(View(), id);
      }
    }
  }

  ghost function PartlyReset(jobs: Jobs, seen: set<Id>): (r: Jobs)
    ensures r.Keys == jobs.Keys
  {
    map id | id in jobs :: if id in seen && jobs[id].status == Running then jobs[id].(status := Queued) else jobs[id]
  }

  lemma ResetStep(jobs: Jobs, seen: set<Id>, id: Id)
    requires id in jobs && id !in seen
    ensures PartlyReset(jobs, seen)[id] == jobs[id]
    ensures PartlyReset(jobs, seen + {id})
         == if jobs[id].status == Running then PartlyReset(jobs, seen)[id := jobs[id].(status := Queued)]
            else PartlyReset(jobs, seen)
    ensures WasRunning(jobs, seen + {id})
         == WasRunning(jobs, seen) + if jobs[id].status == Running then {id} else {}
  {
  }

  ghost function WasRunning(jobs: Jobs, seen: set<Id>): set<Id> {
    set id | id in jobs && id in seen && jobs[id].status == Running
  }

  lemma ResetNone(jobs: Jobs)
    ensures PartlyReset(jobs, {}) == jobs && WasRunning(jobs, {}) == {}
  {
  }

  lemma ResetAll(s: State, seen: set<Id>)
    requires seen == s.jobs.Keys
    ensures PartlyReset(s.jobs, seen) == Apply(s, Resume).jobs
    ensures WasRunning(s.jobs, seen) == set id | id in s.jobs && s.jobs[id].status == Running
  {
  }

  lemma MembersNone()
    ensures Members([]) == {}
  {
  }

  lemma MembersNext(ids: seq<Id>, k: nat)
    requires k < |ids| && NoDuplicates(ids)
    ensures ids[k] in ids && ids[k] !in Members(ids[..k])
    ensures Members(ids[..k + 1]) == Members(ids[..k]) + {ids[k]}
  {
    assert ids[..k + 1] == ids[..k] + [ids[k]];
  }

  lemma MembersPrefix(ids: seq<Id>, n: nat)
    requires n <= |ids|
    ensures forall id :: id in Members(ids[..n]) ==> id in ids
  {
  }

  lemma AfterOneMore(jobs: Jobs, done: set<Id>, id: Id, outcomes: Outcomes)
    requires id in jobs && id !in done
    ensures AfterRuns(jobs, done, {}, outcomes)[id] == jobs[id]
    ensures AfterRuns(jobs, done + {id}, {}, outcomes)
         == AfterRuns(jobs, done, {}, outcomes)[id := Ran(jobs[id], outcomes(id))]
  {
  }

  lemma CutOne(jobs: Jobs, done: set<Id>, id: Id, outcomes: Outcomes)
    requires id in jobs && id !in done
    ensures AfterRuns(jobs, done, {}, outcomes)[id] == jobs[id]
    ensures AfterRuns(jobs, done, {id}, outcomes) == AfterRuns(jobs, done, {}, outcomes)[id := Started(jobs[id])]
  {
  }

  lemma NothingRan(jobs: Jobs, outcomes: Outcomes)
    ensures AfterRuns(jobs, {}, {}, outcomes) == jobs
  {
  }

  lemma TickLeavesNoneRunning(s: State, now: int, outcomes: Outcomes)
    requires forall id :: id in s.jobs ==> s.jobs[id].status != Running
    ensures forall id :: id in Apply(s, Tick(now, false, outcomes)).jobs ==>
      Apply(s, Tick(now, false, outcomes)).jobs[id].status != Running
  {
  }

  ghost function PartlyDue(jobs: Jobs, seen: set<Id>, now: int, apply: bool): (r: Jobs)
    ensures r.Keys == jobs.Keys
  {
    map id | id in jobs :: if apply && id in seen then MissDeadline(jobs[id], now) else jobs[id]
  }

  ghost function Eligible(jobs: Jobs, seen: set<Id>, now: int, quiet: bool): (ids: set<Id>)
    ensures ids <= jobs.Keys
  {
    set id | id in jobs && id in seen && !quiet
      && jobs[id].status == Queued && MissDeadline(jobs[id], now) == jobs[id] && DependenciesDone(jobs, id)
  }

  /** Failing overdue jobs on the way does not change what the others see of their dependencies. */
  lemma PickStep(jobs: Jobs, seen: set<Id>, now: int, quiet: bool, apply: bool, id: Id)
    requires id in jobs && id !in seen
    ensures
      var part := PartlyDue(jobs, seen, now, apply);
      && part[id] == jobs[id]
      && PartlyDue(jobs, seen + {id}, now, apply)
         == (if apply then part[id := MissDeadline(jobs[id], now)] else part)
      && Eligible(jobs, seen + {id}, now, quiet)
         == Eligible(jobs, seen, now, quiet)
          + if !quiet && jobs[id].status == Queued && MissDeadline(jobs[id], now) == jobs[id] && DependenciesDone(part, id)
            then {id} else {}
  {
    var part := PartlyDue(jobs, seen, now, apply);
    forall d | d in jobs[id].dependencies
      ensures (d in jobs && jobs[d].status == Succeeded) <==> (d in part && part[d].status == Succeeded)
    {
    }
    assert DependenciesDone(part, id) == DependenciesDone(jobs, id);
  }

  lemma NextOfTodo(all: set<Id>, todo: set<Id>, seen: set<Id>, id: Id)
    requires seen == all - todo && todo <= all && id in todo
    ensures id !in seen && todo - {id} <= all && seen + {id} == all - (todo - {id})
    ensures |todo - {id}| < |todo|
  {
  }

  lemma PickedNone(jobs: Jobs, now: int, quiet: bool, apply: bool)
    ensures PartlyDue(jobs, {}, now, apply) == jobs && Eligible(jobs, {}, now, quiet) == {}
  {
  }

  lemma PickedAll(jobs: Jobs, now: int, quiet: bool, apply: bool)
    ensures PartlyDue(jobs, jobs.Keys, now, apply) == if apply then MissDeadlines(jobs, now) else jobs
    ensures forall id :: id in Eligible(jobs, jobs.Keys, now, quiet) <==> !quiet && id in ReadySet(MissDeadlines(jobs, now))
  {
    forall id ensures id in Eligible(jobs, jobs.Keys, now, quiet) <==> !quiet && id in ReadySet(MissDeadlines(jobs, now)) {
      DueExact(jobs, now, id);
    }
  }

  lemma DueExact(jobs: Jobs, now: int, id: Id)
    ensures id in ReadySet(MissDeadlines(jobs, now)) <==>
      id in jobs && jobs[id].status == Queued && MissDeadline(jobs[id], now) == jobs[id] && DependenciesDone(jobs, id)
  {
    if id in jobs {
      forall d | d in jobs[id].dependencies
        ensures (d in jobs && jobs[d].status == Succeeded)
           <==> (d in MissDeadlines(jobs, now) && MissDeadlines(jobs, now)[d].status == Succeeded)
      {
      }
    }
  }
}
