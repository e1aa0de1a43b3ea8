/** The recovery loop: execute, verify, classify, then retry, replan, skip, escalate or fail.

    Execution, verification and replanning are arbitrary functions of the number of the decision they
    serve, so a contract about all of them is a contract about any behaviour of the callbacks. */
module Recovery {
  import opened Graphs
  import opened Options

  // ---- classification and policy -------------------------------------------------------------

  datatype FailureClass =
    | Transient | Timeout | ToolFailure | PermissionFailure | ModelFailure
    | DependencyFailure | VerificationFailure | LogicalFailure | Unknown

  datatype Action = Retry | Replan | Skip | Escalate | Fail

  datatype RunStatus = Completed | Failed | Cancelled

  /** A tool result by what the classifier reads in its error text. */
  datatype ToolResult = ToolResult(success: bool, saysDenied: bool, saysTimedOut: bool, saysTransient: bool)

  datatype ExecutionResult = ExecutionResult(status: RunStatus, results: seq<ToolResult>, timedOut: bool, skipped: bool)

  datatype Verification = Passed | Rejected | Inconclusive

  function ClassifyToolResult(r: ToolResult): FailureClass {
    if r.saysDenied then PermissionFailure
    else if r.saysTimedOut then Timeout
    else if r.saysTransient then Transient
    else ToolFailure
  }

  function FirstFailed(results: seq<ToolResult>): Option<ToolResult> {
    if results == [] then None
    else if !results[0].success then Some(results[0])
    else FirstFailed(results[1..])
  }

  /** Root cause first: denials, then deadlines, then failed tools, then the run, then the verification. */
  function Classify(r: ExecutionResult, v: Verification): FailureClass {
    if exists t | t in r.results :: t.saysDenied then PermissionFailure
    else if r.timedOut then Timeout
    else if FirstFailed(r.results).Some? then ClassifyToolResult(FirstFailed(r.results).value)
    else if r.status == Failed then (if r.skipped then DependencyFailure else Unknown)
    else if v == Rejected then VerificationFailure
    else Unknown
  }

  lemma {:induction false} FirstFailedMeans(results: seq<ToolResult>)
    ensures FirstFailed(results).Some? ==> FirstFailed(results).value in results
  {
    if results != [] && results[0].success { FirstFailedMeans(results[1..]); }
  }

  datatype Policy = Policy(maxRetries: int, maxReplans: int, overrides: map<FailureClass, Action>)

  predicate Retryable(c: FailureClass) {
    c in {Timeout, Transient, ToolFailure, ModelFailure}
  }

  predicate ShouldRetry(p: Policy, c: FailureClass, retries: int) {
    Retryable(c) && retries < p.maxRetries
  }

  function ActionFor(p: Policy, c: FailureClass, retries: int, replans: int): Action {
    if c in p.overrides then p.overrides[c]
    else if c == PermissionFailure then Escalate
    else if Retryable(c) then (if ShouldRetry(p, c, retries) then Retry else Escalate)
    else if c == VerificationFailure then (if replans < p.maxReplans then Replan else Escalate)
    else Fail
  }

  /** Permission failures are retried exactly when an override says so; the policy's own documentation
      claims that no policy ever does. */
  lemma PermissionRetriedIffOverridden(p: Policy, retries: int, replans: int)
    ensures ActionFor(p, PermissionFailure, retries, replans) == Retry
       <==> PermissionFailure in p.overrides && p.overrides[PermissionFailure] == Retry
  {
  }

  /** A denial anywhere in a run decides its class, and without an override it goes to a human. */
  lemma DenialEscalates(p: Policy, r: ExecutionResult, v: Verification, retries: int, replans: int)
    ensures Classify(r, v) == PermissionFailure <==> exists t :: t in r.results && t.saysDenied
    ensures Classify(r, v) == PermissionFailure && PermissionFailure !in p.overrides ==>
      ActionFor(p, Classify(r, v), retries, replans) == Escalate
  {
    FirstFailedMeans(r.results);
  }

  lemma PermissionCanBeRetried() returns (p: Policy)
    ensures forall retries, replans :: ActionFor(p, PermissionFailure, retries, replans) == Retry
  {
    p := Policy(3, 1, map[PermissionFailure := Retry]);
  }

  // ---- classes and answers, read off the execution ------------------------------------------------

  predicate Denied(r: ExecutionResult) {
    exists t | t in r.results :: t.saysDenied
  }

  /** The first failed tool result, in plan order. */
  predicate FirstFailureAt(r: ExecutionResult, k: int) {
    0 <= k < |r.results| && !r.results[k].success && forall j :: 0 <= j < k ==> r.results[j].success
  }

  predicate AllToolsOk(r: ExecutionResult) {
    forall t | t in r.results :: t.success
  }

  /** Nothing but the verdict speaks against the execution. */
  predicate CleanRun(r: ExecutionResult) {
    !Denied(r) && !r.timedOut && AllToolsOk(r)
  }

  predicate InTimeFailureAt(r: ExecutionResult, k: int) {
    !Denied(r) && !r.timedOut && FirstFailureAt(r, k)
  }

  /** What each class means. */
  predicate HasClass(r: ExecutionResult, v: Verification, c: FailureClass) {
    && (c == PermissionFailure <==> Denied(r))
    && (c == Timeout <==>
        !Denied(r) && (r.timedOut || exists k | 0 <= k < |r.results| :: FirstFailureAt(r, k) && r.results[k].saysTimedOut))
    && (c == Transient <==>
        exists k | 0 <= k < |r.results| :: InTimeFailureAt(r, k) && !r.results[k].saysTimedOut && r.results[k].saysTransient)
    && (c == ToolFailure <==>
        exists k | 0 <= k < |r.results| :: InTimeFailureAt(r, k) && !r.results[k].saysTimedOut && !r.results[k].saysTransient)
    && (c == DependencyFailure <==> CleanRun(r) && r.status == Failed && r.skipped)
    && (c == VerificationFailure <==> CleanRun(r) && r.status != Failed && v == Rejected)
    && (c == Unknown <==> CleanRun(r) && if r.status == Failed then !r.skipped else v != Rejected)
    && c !in {ModelFailure, LogicalFailure}
  }

  lemma ClassMeans(r: ExecutionResult, v: Verification)
    ensures HasClass(r, v, Classify(r, v))
  {
    FirstFailedIff(r.results);
    if FirstFailed(r.results).Some? {
      var k :| FirstFailureAt(r, k) && FirstFailed(r.results).value == r.results[k];
      forall j | FirstFailureAt(r, j) ensures j == k { FirstFailureUnique(r, j, k); }
      assert r.results[k] in r.results;
    }
  }

  lemma FirstFailureUnique(r: ExecutionResult, j: int, k: int)
    requires FirstFailureAt(r, j) && FirstFailureAt(r, k)
    ensures j == k
  {
  }

  lemma {:induction false} FirstFailedIff(results: seq<ToolResult>)
    ensures FirstFailed(results).None? <==> forall t | t in results :: t.success
    ensures FirstFailed(results).Some? ==> exists k ::
      && 0 <= k < |results| && !results[k].success && (forall j :: 0 <= j < k ==> results[j].success)
      && FirstFailed(results).value == results[k]
  {
    if results != [] {
      var rest := results[1..];
      assert results == [results[0]] + rest;
      FirstFailedIff(rest);
      if results[0].success && FirstFailed(rest).Some? {
        var k :| 0 <= k < |rest| && !rest[k].success && (forall j :: 0 <= j < k ==> rest[j].success)
                 && FirstFailed(rest).value == rest[k];
        assert !results[k + 1].success && FirstFailed(results).value == results[k + 1];
        assert forall j :: 1 <= j < k + 1 ==> results[j] == rest[j - 1];
      } else if !results[0].success {
        assert FirstFailed(results).value == results[0];
      }
    }
  }

  /** The answer to an execution that did not pass, after so many retries and replans. */
  predicate Responds(p: Policy, r: ExecutionResult, v: Verification, retries: int, replans: int, e: Entry) {
    && HasClass(r, v, e.kind)
    && (e.kind in p.overrides ==> e.action == p.overrides[e.kind])
    && (e.kind !in p.overrides ==>
        && (Denied(r) ==> e.action == Escalate)
        && (!Denied(r) && (r.timedOut || !AllToolsOk(r)) ==>
              e.action == if retries < p.maxRetries then Retry else Escalate)
        && (CleanRun(r) && r.status != Failed && v == Rejected ==>
              e.action == if replans < p.maxReplans then Replan else Escalate)
        && (CleanRun(r) && (r.status == Failed || v != Rejected) ==> e.action == Fail))
  }

  lemma PolicyResponds(p: Policy, r: ExecutionResult, v: Verification, retries: int, replans: int, e: Entry)
    requires e.kind == Classify(r, v) && e.action == ActionFor(p, e.kind, retries, replans)
    ensures Responds(p, r, v, retries, replans, e)
  {
    ClassMeans(r, v);
    FailureSomewhere(r);
    hide Classify, FirstFailed;
  }

  lemma FailureSomewhere(r: ExecutionResult)
    ensures !AllToolsOk(r) <==> exists k | 0 <= k < |r.results| :: FirstFailureAt(r, k)
  {
    FirstFailedIff(r.results);
    if !AllToolsOk(r) {
      var k :| 0 <= k < |r.results| && !r.results[k].success && (forall j :: 0 <= j < k ==> r.results[j].success);
      assert FirstFailureAt(r, k);
    }
  }

  // ---- the loop ----------------------------------------------------------------------------------

  datatype Outcome = Recovered | GaveUp | Escalated | Partial

  /** One decision: the executions made so far, what was seen and what was decided. */
  datatype Entry = Entry(attempt: int, kind: FailureClass, action: Action, note: Note)

  datatype Note = Decided | PlanRejected | VerifierFailed

  datatype Result = Result(
    status: Outcome,
    attempts: int,
    retries: nat,
    replans: nat,
    versions: seq<string>,
    audit: seq<Entry>,
    finalVerification: Option<Verification>)

  datatype VerifyAnswer = Verdict(v: Verification) | Raised(kind: FailureClass)

  /** What the replan provider and the plan gates make of a request: a candidate that passes every gate but
      the identity check, a refusal the loop catches, or another exception. */
  datatype ReplanAnswer = Candidate(plan: string) | Refused | ReplanRaised

  /** An execution, or an exception of the callback, which nobody catches. */
  datatype Execution = Finished(result: ExecutionResult) | ExecuteRaised

  datatype Environment = Environment(
    execute: (nat, string) -> Execution,
    verify: (nat, string, ExecutionResult) -> VerifyAnswer,
    replan: Option<(nat, string) -> ReplanAnswer>)

  predicate Counts(e: Entry, a: Action) {
    e.action == a && e.note == Decided
  }

  function CountOf(audit: seq<Entry>, a: Action): nat {
    if audit == [] then 0
    else CountOf(audit[..|audit| - 1], a) + if Counts(audit[|audit| - 1], a) then 1 else 0
  }

  /** Each decision was taken when executions were one more than the retries and replans decided before. */
  ghost predicate AuditBalanced(audit: seq<Entry>) {
    forall i :: 0 <= i < |audit| && audit[i].note == Decided ==>
      audit[i].attempt == 1 + CountOf(audit[..i], Retry) + CountOf(audit[..i], Replan)
  }

  /** Each decision is the policy's, given the retries and replans decided before it. */
  ghost predicate AuditFollows(p: Policy, audit: seq<Entry>) {
    forall i :: 0 <= i < |audit| && audit[i].note == Decided ==>
      audit[i].action == ActionFor(p, audit[i].kind, CountOf(audit[..i], Retry), CountOf(audit[..i], Replan))
  }

  lemma CountAppend(audit: seq<Entry>, e: Entry, a: Action)
    ensures CountOf(audit + [e], a) == CountOf(audit, a) + if Counts(e, a) then 1 else 0
  {
    assert (audit + [e])[..|audit|] == audit;
  }

  /** An entry that may follow: a note, or the decision due at this point. */
  ghost predicate Follows(p: Policy, audit: seq<Entry>, e: Entry) {
    e.note == Decided ==>
      && e.attempt == 1 + CountOf(audit, Retry) + CountOf(audit, Replan)
      && e.action == ActionFor(p, e.kind, CountOf(audit, Retry), CountOf(audit, Replan))
  }

  lemma AuditAppend(p: Policy, audit: seq<Entry>, e: Entry)
    requires AuditBalanced(audit) && AuditFollows(p, audit) && Follows(p, audit, e)
    ensures AuditBalanced(audit + [e]) && AuditFollows(p, audit + [e])
  {
    hide ActionFor;
    var audit' := audit + [e];
    forall i | 0 <= i < |audit'| ensures audit'[..i] == if i < |audit| then audit[..i] else audit {}
  }

  function Budget(n: int): nat {
    if n < 0 then 0 else n
  }

  /** The policy's bounds hold as far as no override decides for a retry, or for a replan. */
  predicate InPolicy(p: Policy, retries: nat, replans: nat) {
    && (Retry !in p.overrides.Values ==> retries <= Budget(p.maxRetries))
    && (Replan !in p.overrides.Values ==> replans <= Budget(p.maxReplans))
  }

  /** What every outcome of the loop satisfies. */
  ghost predicate Sound(p: Policy, r: Result, plan: string) {
    && r.retries == CountOf(r.audit, Retry)
    && |r.versions| == r.replans + 1 && r.versions[0] == plan && NoDuplicates(r.versions)
    && AuditBalanced(r.audit) && AuditFollows(p, r.audit)
    && InPolicy(p, r.retries, r.replans)
  }

  /** In the audit of any sound outcome a permission failure is answered with a retry exactly if an override says so,
      and with an escalation if no override speaks of it. */
  lemma PermissionEntries(p: Policy, r: Result, plan: string, i: nat)
    requires Sound(p, r, plan) && i < |r.audit|
    requires r.audit[i].note == Decided && r.audit[i].kind == PermissionFailure
    ensures r.audit[i].action == Retry <==>
      PermissionFailure in p.overrides && p.overrides[PermissionFailure] == Retry
    ensures PermissionFailure !in p.overrides ==> r.audit[i].action == Escalate
  {
    var before := r.audit[..i];
    PermissionRetriedIffOverridden(p, CountOf(before, Retry), CountOf(before, Replan));
  }

  /** The counters and records the loop updates. */
  datatype Progress = Progress(
    seen: set<string>,
    versions: seq<string>,
    audit: seq<Entry>,
    retries: nat,
    replans: nat,
    executions: nat)

  /** At the head of the loop; `holding` says whether an execution is waiting to be judged. */
  ghost predicate LoopInv(p: Policy, plan: string, g: Progress, holding: bool) {
    && g.seen == (set v | v in g.versions)
    && |g.versions| == g.replans + 1 && g.versions[0] == plan && NoDuplicates(g.versions)
    && g.retries == CountOf(g.audit, Retry) && g.replans == CountOf(g.audit, Replan)
    && g.executions == g.retries + g.replans + (if holding then 1 else 0)
    && AuditBalanced(g.audit) && AuditFollows(p, g.audit)
    && InPolicy(p, g.retries, g.replans)
    && GoesOn(g.audit)
  }

  /** Only a retry or a replan leads on. */
  predicate GoesOn(audit: seq<Entry>) {
    audit == [] || EndsWith(audit, Retry) || EndsWith(audit, Replan)
  }

  function End(g: Progress, status: Outcome, v: Option<Verification>): Result {
    Result(status, g.executions, g.retries, g.replans, g.versions, g.audit, v)
  }

  /** The last record, if any. */
  predicate EndsWith(audit: seq<Entry>, action: Action) {
    audit != [] && audit[|audit| - 1].action == action
  }

  /** Which outcome goes with which end: recovery is reported exactly on a completed execution that passed,
      and giving up has one of four reasons. */
  predicate EndsAs(r: Result, last: Option<ExecutionResult>, maxAttempts: int, canReplan: bool) {
    && (r.status == Recovered <==>
          last.Some? && last.value.status == Completed && r.finalVerification == Some(Passed))
    && (r.status == Escalated <==> EndsWith(r.audit, Escalate))
    && (r.status == Partial <==> EndsWith(r.audit, Skip))
    && (r.status == GaveUp ==>
          || r.attempts >= maxAttempts
          || (last.Some? && last.value.status == Cancelled)
          || EndsWith(r.audit, Fail)
          || (EndsWith(r.audit, Replan) && !canReplan))
  }

  function Latest(versions: seq<string>, plan: string): string {
    if versions == [] then plan else versions[|versions| - 1]
  }

  /** What stands behind a recovery: the newest plan version was executed with this result (or the result was handed
      over), and the verifier passed that very result (or it was handed over as passed). */
  ghost predicate Vouched(env: Environment, version: string, last: ExecutionResult,
                          prior: Option<ExecutionResult>, priorVerification: Option<Verification>)
  {
    && (Some(last) == prior || exists k :: env.execute(k, version) == Finished(last))
    && ((Some(last) == prior && priorVerification == Some(Passed)) || VerifierPassed(env, version, last))
  }

  ghost predicate VerifierPassed(env: Environment, version: string, last: ExecutionResult) {
    exists k :: env.verify(k, version, last) == Verdict(Passed)
  }

  lemma EndsSound(p: Policy, plan: string, g: Progress, holding: bool, r: Result)
    requires LoopInv(p, plan, g, holding)
    requires r.retries == g.retries && r.replans == g.replans && r.versions == g.versions
    requires r.audit == g.audit || exists e :: r.audit == g.audit + [e] && e.note != Decided
    ensures Sound(p, r, plan)
  {
    if r.audit != g.audit {
      var e :| r.audit == g.audit + [e] && e.note != Decided;
      AuditAppend(p, g.audit, e);
      CountAppend(g.audit, e, Retry);
    }
  }

  /** The policy's next decision. */
  ghost predicate IsDecision(p: Policy, g: Progress, e: Entry) {
    e.note == Decided && e.attempt == g.executions && e.action == ActionFor(p, e.kind, g.retries, g.replans)
  }

  /** A decided retry leads back to the head of the loop. */
  lemma RetryKeeps(p: Policy, plan: string, g: Progress, e: Entry)
    requires LoopInv(p, plan, g, true) && IsDecision(p, g, e) && e.action == Retry
    ensures LoopInv(p, plan, g.(audit := g.audit + [e], retries := g.retries + 1), false)
  {
    AuditAppend(p, g.audit, e);
    CountAppend(g.audit, e, Retry);
    CountAppend(g.audit, e, Replan);
    ActionWithinPolicy(p, e.kind, g.retries, g.replans);
    hide AuditBalanced, AuditFollows, CountOf, ActionFor, NoDuplicates, InPolicy;
  }

  /** So does a decided replan with a new plan version. */
  lemma ReplanKeeps(p: Policy, plan: string, g: Progress, e: Entry, v: string)
    requires LoopInv(p, plan, g, true) && IsDecision(p, g, e) && e.action == Replan && v !in g.seen
    ensures LoopInv(p, plan, g.(audit := g.audit + [e], replans := g.replans + 1,
                                versions := g.versions + [v], seen := g.seen + {v}), false)
  {
    AuditAppend(p, g.audit, e);
    CountAppend(g.audit, e, Retry);
    CountAppend(g.audit, e, Replan);
    ActionWithinPolicy(p, e.kind, g.retries, g.replans);
    DistinctGrows(g.versions, v);
    hide AuditBalanced, AuditFollows, CountOf, ActionFor, NoDuplicates, InPolicy;
  }

  /** Any other decision ends soundly. */
  lemma StopsSound(p: Policy, plan: string, g: Progress, e: Entry, status: Outcome, v: Option<Verification>)
    requires LoopInv(p, plan, g, true) && IsDecision(p, g, e) && e.action != Retry
    ensures Sound(p, End(g.(audit := g.audit + [e]), status, v), plan)
  {
    AuditAppend(p, g.audit, e);
    CountAppend(g.audit, e, Retry);
    hide AuditBalanced, AuditFollows, CountOf, ActionFor, NoDuplicates, InPolicy;
  }

  ghost predicate GrowsDistinct(versions: seq<string>, v: string) {
    NoDuplicates(versions + [v]) && (set w | w in versions + [v]) == (set w | w in versions) + {v}
  }

  lemma DistinctGrows(versions: seq<string>, v: string)
    requires NoDuplicates(versions) && v !in versions
    ensures GrowsDistinct(versions, v)
  {
    forall w ensures w in versions + [v] <==> w in versions || w == v {}
  }

  /** A retry or replan the policy decides stays within the policy. */
  lemma ActionWithinPolicy(p: Policy, kind: FailureClass, retries: nat, replans: nat)
    requires InPolicy(p, retries, replans)
    ensures ActionFor(p, kind, retries, replans) == Retry ==> InPolicy(p, retries + 1, replans)
    ensures ActionFor(p, kind, retries, replans) == Replan ==> InPolicy(p, retries, replans + 1)
  {
    assert kind in p.overrides ==> p.overrides[kind] in p.overrides.Values;
  }

  lemma NoteKeepsSound(p: Policy, plan: string, r: Result, e: Entry)
    requires Sound(p, r, plan) && e.note != Decided
    ensures Sound(p, r.(audit := r.audit + [e]), plan)
  {
    AuditAppend(p, r.audit, e);
    CountAppend(r.audit, e, Retry);
  }

  lemma NothingTold(p: Policy, env: Environment, prior: Option<ExecutionResult>, priorVerification: Option<Verification>,
                    versions: seq<string>)
    ensures Told(p, env, prior, priorVerification, [], versions, []) && AllLedOn(env, [], versions, [], 0)
  {
  }

  lemma StartsLoop(p: Policy, plan: string, holding: bool)
    ensures LoopInv(p, plan, Progress({plan}, [plan], [], 0, 0, if holding then 1 else 0), holding)
  {
  }

  lemma Executed(p: Policy, env: Environment, plan: string, prior: Option<ExecutionResult>,
                 priorVerification: Option<Verification>, round: nat, current: string, g: Progress, judged: seq<Judged>)
    requires Continues(p, env, plan, prior, priorVerification, round, current, g, false, judged)
    ensures Continues(p, env, plan, prior, priorVerification, round, current, g.(executions := g.executions + 1), true, judged)
  {
  }

  // ---- the executions behind the audit ---------------------------------------------------------

  /** An execution that was decided upon: the plan version, what it reported and what the verifier said. */
  datatype Judged = Judged(version: string, result: ExecutionResult, v: Verification)

  /** The `i`-th one: handed over, or made and verified in the `i`-th round, on the newest version of that time. */
  ghost predicate Happened(env: Environment, prior: Option<ExecutionResult>, priorVerification: Option<Verification>,
                           i: nat, j: Judged)
  {
    && (if i == 0 && prior.Some? then prior == Some(j.result)
        else env.execute(i, j.version) == Finished(j.result) && j.result.status != Cancelled)
    && (if i == 0 && prior.Some? && priorVerification.Some? then priorVerification == Some(j.v)
        else env.verify(i, j.version, j.result) == Verdict(j.v))
    && !(j.result.status == Completed && j.v == Passed)
  }

  /** One entry for each execution decided upon, in order, answering what really happened. */
  ghost predicate Told(p: Policy, env: Environment, prior: Option<ExecutionResult>, priorVerification: Option<Verification>,
                       audit: seq<Entry>, versions: seq<string>, judged: seq<Judged>)
  {
    |judged| <= |audit| &&
    forall i :: 0 <= i < |judged| ==>
      Happened(env, prior, priorVerification, i, judged[i]) && Answers(p, audit[..i], audit[i], versions, judged[i])
  }

  /** Entry `e`, after the entries `before`, answers this execution of the version that was newest then. */
  ghost predicate Answers(p: Policy, before: seq<Entry>, e: Entry, versions: seq<string>, j: Judged) {
    && e.note == Decided
    && CountOf(before, Replan) < |versions| && j.version == versions[CountOf(before, Replan)]
    && Responds(p, j.result, j.v, CountOf(before, Retry), CountOf(before, Replan), e)
  }

  /** The `i`-th decision led to another round: a retry, or a replan whose candidate is new and became the next version. */
  ghost predicate LedOn(env: Environment, audit: seq<Entry>, versions: seq<string>, judged: seq<Judged>, i: nat)
    requires i < |judged| <= |audit|
  {
    var c := CountOf(audit[..i], Replan);
    || audit[i].action == Retry
    || (&& audit[i].action == Replan && env.replan.Some? && c + 1 < |versions|
        && env.replan.value(i, judged[i].version) == Candidate(versions[c + 1])
        && versions[c + 1] !in versions[..c + 1])
  }

  /** The `i`-th decision was the last: no retry, and no replan that came up with a new plan. */
  ghost predicate Stopped(env: Environment, audit: seq<Entry>, versions: seq<string>, judged: seq<Judged>, i: nat)
    requires i < |judged| <= |audit|
  {
    && audit[i].action != Retry
    && (audit[i].action == Replan && env.replan.Some? ==>
          match env.replan.value(i, judged[i].version)
          case Candidate(plan) => plan in versions
          case Refused => true
          case ReplanRaised => false)
  }

  ghost predicate AllLedOn(env: Environment, audit: seq<Entry>, versions: seq<string>, judged: seq<Judged>, n: nat) {
    n <= |judged| <= |audit| && forall i :: 0 <= i < n ==> LedOn(env, audit, versions, judged, i)
  }

  /** Every decision led on, except perhaps the last, which then ended the loop. */
  ghost predicate EndsWhereStopped(env: Environment, audit: seq<Entry>, versions: seq<string>, judged: seq<Judged>) {
    var n := |judged|;
    || AllLedOn(env, audit, versions, judged, n)
    || (n > 0 && AllLedOn(env, audit, versions, judged, n - 1) && Stopped(env, audit, versions, judged, n - 1))
  }

  lemma LedOnLonger(env: Environment, audit: seq<Entry>, versions: seq<string>, judged: seq<Judged>, n: nat,
                    audit': seq<Entry>, versions': seq<string>, judged': seq<Judged>)
    requires AllLedOn(env, audit, versions, judged, n) && audit <= audit' && versions <= versions' && judged <= judged'
    requires |judged'| <= |audit'|
    ensures AllLedOn(env, audit', versions', judged', n)
  {
    hide CountOf;
    forall i | 0 <= i < n ensures LedOn(env, audit', versions', judged', i) {
      assert LedOn(env, audit, versions, judged, i);
      assert audit'[..i] == audit[..i] && audit'[i] == audit[i] && judged'[i] == judged[i];
      var c := CountOf(audit[..i], Replan);
      if c + 1 < |versions| { assert versions'[..c + 1] == versions[..c + 1]; }
    }
  }

  /** Nothing follows the decisions but at most one note. */
  ghost predicate OnlyNoteAfter(audit: seq<Entry>, n: nat) {
    |audit| == n || (|audit| == n + 1 && audit[n].note != Decided)
  }

  lemma ToldMore(p: Policy, env: Environment, prior: Option<ExecutionResult>, priorVerification: Option<Verification>,
                 audit: seq<Entry>, versions: seq<string>, judged: seq<Judged>, e: Entry, j: Judged)
    requires Told(p, env, prior, priorVerification, audit, versions, judged) && |audit| == |judged|
    requires Happened(env, prior, priorVerification, |judged|, j) && e.note == Decided
    requires |versions| == CountOf(audit, Replan) + 1 && j.version == versions[|versions| - 1]
    requires Responds(p, j.result, j.v, CountOf(audit, Retry), CountOf(audit, Replan), e)
    ensures Told(p, env, prior, priorVerification, audit + [e], versions, judged + [j])
  {
    hide Happened, Responds, CountOf;
    var audit', judged', n := audit + [e], judged + [j], |judged|;
    assert Answers(p, audit, e, versions, j);
    hide Answers;
    assert audit'[..n] == audit && audit'[n] == e && judged'[n] == j;
    forall i | 0 <= i <= n
      ensures Happened(env, prior, priorVerification, i, judged'[i]) && Answers(p, audit'[..i], audit'[i], versions, judged'[i])
    {
      if i < n { assert audit'[..i] == audit[..i]; }
    }
  }

  lemma ToldLonger(p: Policy, env: Environment, prior: Option<ExecutionResult>, priorVerification: Option<Verification>,
                   audit: seq<Entry>, versions: seq<string>, judged: seq<Judged>, audit': seq<Entry>, versions': seq<string>)
    requires Told(p, env, prior, priorVerification, audit, versions, judged) && audit <= audit' && versions <= versions'
    ensures Told(p, env, prior, priorVerification, audit', versions', judged)
  {
    hide Happened, Responds, CountOf;
    forall i | 0 <= i < |judged| ensures Answers(p, audit'[..i], audit'[i], versions', judged[i]) {
      assert audit'[..i] == audit[..i];
      assert Answers(p, audit[..i], audit[i], versions, judged[i]);
    }
  }

  lemma JudgedHappened(env: Environment, prior: Option<ExecutionResult>, priorVerification: Option<Verification>,
                       i: nat, j: Judged)
    requires if i == 0 && prior.Some? then prior == Some(j.result)
             else env.execute(i, j.version) == Finished(j.result) && j.result.status != Cancelled
    requires if i == 0 && prior.Some? && priorVerification.Some? then priorVerification == Some(j.v)
             else env.verify(i, j.version, j.result) == Verdict(j.v)
    requires !(j.result.status == Completed && j.v == Passed)
    ensures Happened(env, prior, priorVerification, i, j)
  {
  }

  lemma CountsAt(p: Policy, plan: string, g: Progress, holding: bool)
    requires LoopInv(p, plan, g, holding)
    ensures g.retries == CountOf(g.audit, Retry) && g.replans == CountOf(g.audit, Replan)
    ensures |g.versions| == g.replans + 1 && GoesOn(g.audit)
  {
  }

  /** Has an execution verified, if nobody did; ends on a verifier that raises and on success. */
  method Judge(p: Policy, env: Environment, plan: string, round: nat, current: string, g: Progress,
               result: ExecutionResult, known: Option<Verification>, maxAttempts: int)
    returns (done: Option<Result>, v: Verification)
    requires LoopInv(p, plan, g, true)
    ensures done.Some? ==>
      Sound(p, done.value, plan) && done.value.attempts == g.executions
      && EndsAs(done.value, Some(result), maxAttempts, env.replan.Some?)
      && g.audit <= done.value.audit && OnlyNoteAfter(done.value.audit, |g.audit|) && done.value.versions == g.versions
    ensures done.Some? && done.value.status == Recovered ==>
      && done.value.versions == g.versions
      && (known == Some(Passed) || VerifierPassed(env, current, result))
    ensures done.None? ==> !(result.status == Completed && v == Passed)
    ensures done.None? ==> if known.Some? then v == known.value else env.verify(round, current, result) == Verdict(v)
  {
    hide Sound, LoopInv;
    CountsAt(p, plan, g, true);
    v := Passed;
    if known.Some? {
      v := known.value;
    } else {
      match env.verify(round, current, result)
      case Raised(kind) =>
        var r := End(g.(audit := g.audit + [Entry(g.executions, kind, Fail, VerifierFailed)]), GaveUp, None);
        EndsSound(p, plan, g, true, r);
        return Some(r), v;
      case Verdict(verdict) => v := verdict;
    }
    if result.status == Completed && v == Passed {
      var r := End(g, Recovered, Some(v));
      EndsSound(p, plan, g, true, r);
      return Some(r), v;
    }
    done := None;
  }

  /** Classifies a judged execution, records the policy's decision and carries it out: back to the head of the
      loop after a retry or an accepted replan, to an end otherwise. */
  method Decide(p: Policy, env: Environment, plan: string, round: nat, current: string, g: Progress,
                result: ExecutionResult, v: Verification, maxAttempts: int)
    returns (done: Option<Result>, escaped: bool, next: Progress, plan': string)
    requires LoopInv(p, plan, g, true)
    requires !(result.status == Completed && v == Passed)
    ensures
      var kind := Classify(result, v);
      var e := Entry(g.executions, kind, ActionFor(p, kind, g.retries, g.replans), Decided);
      && Responds(p, result, v, g.retries, g.replans, e)
      && g.audit + [e] <= (if done.Some? then done.value.audit else next.audit)
      && (done.Some? ==> OnlyNoteAfter(done.value.audit, |g.audit| + 1) && done.value.versions == g.versions)
      && (done.None? && !escaped ==> next.audit == g.audit + [e])
      && (escaped <==> e.action == Replan && env.replan.Some? && env.replan.value(round, current).ReplanRaised?)
      && (escaped ==> done.None?)
      && (done.None? && !escaped <==>
            || e.action == Retry
            || (e.action == Replan && env.replan.Some? && Accepted(env.replan.value(round, current), g.seen)))
      && (done.None? && !escaped ==> plan' == if e.action == Retry then current else env.replan.value(round, current).plan)
      && (done.None? && !escaped ==> next.versions == if e.action == Retry then g.versions else g.versions + [plan'])
    ensures done.Some? ==>
      Sound(p, done.value, plan) && done.value.attempts == g.executions
      && EndsAs(done.value, Some(result), maxAttempts, env.replan.Some?) && done.value.status != Recovered
    ensures done.None? && !escaped ==> LoopInv(p, plan, next, false) && next.executions == g.executions
  {
    hide Sound, LoopInv, Classify, ActionFor, Responds;
    var kind := Classify(result, v);
    var e := Entry(g.executions, kind, ActionFor(p, kind, g.retries, g.replans), Decided);
    PolicyResponds(p, result, v, g.retries, g.replans, e);
    next, plan', done, escaped := g.(audit := g.audit + [e]), current, None, false;
    if e.action == Retry {
      RetryKeeps(p, plan, g, e);
      next := next.(retries := g.retries + 1);
      return;
    }
    if e.action == Replan {
      var r := End(next, GaveUp, Some(v));
      StopsSound(p, plan, g, e, GaveUp, Some(v));
      if env.replan.None? { return Some(r), false, next, plan'; }
      var answer := env.replan.value(round, current);
      if answer.ReplanRaised? { return None, true, next, plan'; }
      if !Accepted(answer, g.seen) {
        var rejected := Entry(g.executions, kind, Fail, PlanRejected);
        NoteKeepsSound(p, plan, r, rejected);
        return Some(r.(audit := r.audit + [rejected])), false, next, plan';
      }
      plan' := answer.plan;
      ReplanKeeps(p, plan, g, e, plan');
      next := next.(replans := g.replans + 1, versions := g.versions + [plan'], seen := g.seen + {plan'});
      return;
    }
    var status := match e.action case Skip => Partial case Escalate => Escalated case _ => GaveUp;
    StopsSound(p, plan, g, e, status, Some(v));
    done := Some(End(next, status, Some(v)));
  }

  /** A replacement plan is taken when it passes every gate and differs from all earlier ones. */
  predicate Accepted(answer: ReplanAnswer, seen: set<string>) {
    answer.Candidate? && answer.plan !in seen
  }

  /** Some callback raises what the loop does not catch. */
  ghost predicate MayEscape(env: Environment) {
    exists k, q :: CallRaises(env, k, q)
  }

  predicate CallRaises(env: Environment, k: nat, q: string) {
    env.execute(k, q).ExecuteRaised? || (env.replan.Some? && env.replan.value(k, q).ReplanRaised?)
  }

  /** The result in hand: handed over, or of the execution of this round. */
  ghost predicate InHand(env: Environment, prior: Option<ExecutionResult>, priorVerification: Option<Verification>,
                         round: nat, current: string, result: ExecutionResult, known: Option<Verification>)
  {
    if round == 0 && prior.Some? then prior == Some(result) && known == priorVerification
    else env.execute(round, current) == Finished(result) && result.status != Cancelled && known.None?
  }

  lemma PassVouches(env: Environment, prior: Option<ExecutionResult>, priorVerification: Option<Verification>,
                    round: nat, current: string, result: ExecutionResult, known: Option<Verification>)
    requires InHand(env, prior, priorVerification, round, current, result, known)
    requires known == Some(Passed) || VerifierPassed(env, current, result)
    ensures Vouched(env, current, result, prior, priorVerification)
  {
  }

  /** What one cycle leaves for the next. */
  ghost predicate Continues(p: Policy, env: Environment, plan: string, prior: Option<ExecutionResult>,
                            priorVerification: Option<Verification>, round: nat, current: string, g: Progress,
                            holding: bool, judged: seq<Judged>)
  {
    && LoopInv(p, plan, g, holding) && current == Latest(g.versions, plan)
    && |judged| == |g.audit| == round
    && Told(p, env, prior, priorVerification, g.audit, g.versions, judged)
    && AllLedOn(env, g.audit, g.versions, judged, round)
  }

  /** An end of the loop: a sound outcome that ends as it says, an audit that tells the executions and their answers and
      stops where one of them stopped, and no recovery but on an execution that passed. */
  ghost predicate Ends(p: Policy, env: Environment, plan: string, prior: Option<ExecutionResult>,
                       priorVerification: Option<Verification>, maxAttempts: int, r: Result,
                       last: Option<ExecutionResult>, judged: seq<Judged>)
  {
    && Sound(p, r, plan) && EndsAs(r, last, maxAttempts, env.replan.Some?)
    && Told(p, env, prior, priorVerification, r.audit, r.versions, judged) && OnlyNoteAfter(r.audit, |judged|)
    && EndsWhereStopped(env, r.audit, r.versions, judged)
    && (r.status == Recovered ==>
          last.Some? && Vouched(env, Latest(r.versions, plan), last.value, prior, priorVerification))
  }

  lemma SeenAre(p: Policy, plan: string, g: Progress)
    requires LoopInv(p, plan, g, true)
    ensures forall v :: v in g.seen <==> v in g.versions
  {
  }

  lemma StopsHere(env: Environment, g: Progress, audit: seq<Entry>, judged: seq<Judged>, current: string, e: Entry, round: nat)
    requires |judged| == round + 1 && |g.audit| == round && g.audit + [e] <= audit && judged[round].version == current
    requires forall v :: v in g.seen <==> v in g.versions
    requires e.action != Retry
    requires !(e.action == Replan && env.replan.Some? &&
               (Accepted(env.replan.value(round, current), g.seen) || env.replan.value(round, current).ReplanRaised?))
    ensures Stopped(env, audit, g.versions, judged, round)
  {
    assert audit[round] == e;
  }

  lemma LeadsOn(env: Environment, g: Progress, audit: seq<Entry>, versions: seq<string>, judged: seq<Judged>,
                current: string, e: Entry, round: nat, plan': string)
    requires |judged| == round + 1 && |g.audit| == round && audit == g.audit + [e] && judged[round].version == current
    requires (forall v :: v in g.seen <==> v in g.versions) && |g.versions| == CountOf(g.audit, Replan) + 1
    requires versions == if e.action == Retry then g.versions else g.versions + [plan']
    requires e.action == Retry || (e.action == Replan && env.replan.Some?
      && Accepted(env.replan.value(round, current), g.seen) && plan' == env.replan.value(round, current).plan)
    requires AllLedOn(env, audit, versions, judged, round)
    ensures AllLedOn(env, audit, versions, judged, round + 1)
  {
    hide CountOf;
    assert audit[..round] == g.audit && audit[round] == e;
    if e.action == Replan { assert versions[..|g.versions|] == g.versions; }
    assert LedOn(env, audit, versions, judged, round);
  }

  /** Judges the result in hand and decides upon it. */
  method Cycle(p: Policy, env: Environment, plan: string, round: nat, current: string, g: Progress, result: ExecutionResult,
               known: Option<Verification>, maxAttempts: int, ghost prior: Option<ExecutionResult>,
               ghost priorVerification: Option<Verification>, ghost judged0: seq<Judged>)
    returns (done: Option<Result>, escaped: bool, next: Progress, plan': string, ghost judged: seq<Judged>)
    requires Continues(p, env, plan, prior, priorVerification, round, current, g, true, judged0)
    requires InHand(env, prior, priorVerification, round, current, result, known)
    ensures escaped ==> done.None? && CallRaises(env, round, current)
    ensures done.Some? ==>
      && done.value.attempts == g.executions
      && Ends(p, env, plan, prior, priorVerification, maxAttempts, done.value, Some(result), judged)
    ensures done.None? && !escaped ==>
      && next.executions == g.executions
      && Continues(p, env, plan, prior, priorVerification, round + 1, plan', next, false, judged)
  {
    hide Sound, LoopInv, EndsAs, VerifierPassed, Classify, ActionFor, Told, Happened, Responds, CountOf, Vouched,
         OnlyNoteAfter, NoDuplicates, AllLedOn, LedOn, Stopped;
    judged, next, plan', escaped := judged0, g, current, false;
    CountsAt(p, plan, g, true);
    var v: Verification;
    done, v := Judge(p, env, plan, round, current, g, result, known, maxAttempts);
    if done.Some? {
      ToldLonger(p, env, prior, priorVerification, g.audit, g.versions, judged, done.value.audit, done.value.versions);
      LedOnLonger(env, g.audit, g.versions, judged, round, done.value.audit, done.value.versions, judged);
      if done.value.status == Recovered { PassVouches(env, prior, priorVerification, round, current, result, known); }
      return;
    }
    ghost var j := Judged(current, result, v);
    JudgedHappened(env, prior, priorVerification, round, j);
    done, escaped, next, plan' := Decide(p, env, plan, round, current, g, result, v, maxAttempts);
    if escaped { return; }
    ghost var e := (if done.Some? then done.value.audit else next.audit)[|g.audit|];
    ToldMore(p, env, prior, priorVerification, g.audit, g.versions, judged, e, j);
    judged := judged + [j];
    SeenAre(p, plan, g);
    if done.Some? {
      ToldLonger(p, env, prior, priorVerification, g.audit + [e], g.versions, judged, done.value.audit, done.value.versions);
      LedOnLonger(env, g.audit, g.versions, judged0, round, done.value.audit, done.value.versions, judged);
      StopsHere(env, g, done.value.audit, judged, current, e, round);
    } else {
      ToldLonger(p, env, prior, priorVerification, g.audit + [e], g.versions, judged, next.audit, next.versions);
      LedOnLonger(env, g.audit, g.versions, judged0, round, next.audit, next.versions, judged);
      LeadsOn(env, g, next.audit, next.versions, judged, current, e, round, plan');
    }
  }

  /** Runs the loop.  `prior` hands over a first execution already made, perhaps already verified; it counts
      toward the budget.  `last` is the last execution seen.  There is no result if a callback's exception escapes. */
  method RunWithPrior(p: Policy, env: Environment, plan: string, maxAttempts: int,
                      prior: Option<ExecutionResult>, priorVerification: Option<Verification>)
    returns (r: Option<Result>, last: Option<ExecutionResult>, executions: nat, ghost judged: seq<Judged>)
    ensures r.None? ==> MayEscape(env)
    // sound, told execution by execution, ended where a decision stopped, and recovered only on what really passed
    ensures r.Some? ==> Ends(p, env, plan, prior, priorVerification, maxAttempts, r.value, last, judged)
    ensures executions <= maxAttempts || executions == (if prior.Some? then 1 else 0)
    ensures r.Some? ==>
      r.value.attempts == executions || (r.value.attempts == 0 && r.value.status == Recovered && prior.Some?)
  {
    executions := if prior.Some? then 1 else 0;
    var g := Progress({plan}, [plan], [], 0, 0, executions);
    var current := plan;
    var result, verification := prior, priorVerification;
    last, judged := prior, [];
    var round: nat := 0;
    hide *;
    if result.Some? && verification == Some(Passed) && result.value.status == Completed {
      var r := Result(Recovered, 0, 0, 0, [plan], [], verification);
      RecoveredAtOnce(p, env, plan, prior, priorVerification, maxAttempts, r);
      return Some(r), last, executions, judged;
    }
    StartContinues(p, env, plan, prior, priorVerification);
    while true
      invariant result.Some? ==> result == last && result == prior && verification == priorVerification
      invariant result.None? ==> verification.None? || last.None?
      invariant result.Some? <==> round == 0 && prior.Some?
      invariant Continues(p, env, plan, prior, priorVerification, round, current, g, result.Some?, judged)
      invariant executions == g.executions
      invariant executions <= maxAttempts || executions == (if prior.Some? then 1 else 0)
      decreases maxAttempts - executions, if result.Some? then 1 else 0
    {
      if result.None? {
        if executions >= maxAttempts {
          var end := End(g, GaveUp, verification);
          GivesUp(p, env, plan, prior, priorVerification, maxAttempts, round, current, g, false, verification, last, judged);
          EndMeans(g, GaveUp, verification);
          return Some(end), last, executions, judged;
        }
        var execution := env.execute(round, current);
        executions := executions + 1;
        if execution.ExecuteRaised? {
          Escapes(env, round, current);
          return None, last, executions, judged;
        }
        result, last, verification := Some(execution.result), Some(execution.result), None;
        Executed(p, env, plan, prior, priorVerification, round, current, g, judged);
        g := g.(executions := executions);
        if execution.result.status == Cancelled {
          var end := End(g, GaveUp, None);
          GivesUp(p, env, plan, prior, priorVerification, maxAttempts, round, current, g, true, None, last, judged);
          EndMeans(g, GaveUp, None);
          return Some(end), last, executions, judged;
        }
      }
      InHandIf(env, prior, priorVerification, round, current, result.value, verification);
      var done: Option<Result>;
      var escaped: bool;
      ghost var asked := current;
      done, escaped, g, current, judged :=
        Cycle(p, env, plan, round, current, g, result.value, verification, maxAttempts, prior, priorVerification, judged);
      if done.Some? {
        return done, last, executions, judged;
      }
      if escaped {
        Escapes(env, round, asked);
        return None, last, executions, judged;
      }
      result, verification, round := None, None, round + 1;
    }
  }

  lemma StartContinues(p: Policy, env: Environment, plan: string, prior: Option<ExecutionResult>,
                       priorVerification: Option<Verification>)
    ensures Continues(p, env, plan, prior, priorVerification, 0, plan,
                      Progress({plan}, [plan], [], 0, 0, if prior.Some? then 1 else 0), prior.Some?, [])
  {
    StartsLoop(p, plan, prior.Some?);
    NothingTold(p, env, prior, priorVerification, [plan]);
    hide LoopInv, Told, AllLedOn;
  }

  /** A prior execution that completed and passed. */
  lemma RecoveredAtOnce(p: Policy, env: Environment, plan: string, prior: Option<ExecutionResult>,
                        priorVerification: Option<Verification>, maxAttempts: int, r: Result)
    requires prior.Some? && prior.value.status == Completed && priorVerification == Some(Passed)
    requires r == Result(Recovered, 0, 0, 0, [plan], [], priorVerification)
    ensures Ends(p, env, plan, prior, priorVerification, maxAttempts, r, prior, [])
  {
    NothingTold(p, env, prior, priorVerification, [plan]);
    hide Told, AllLedOn;
  }

  lemma Escapes(env: Environment, round: nat, current: string)
    requires CallRaises(env, round, current)
    ensures MayEscape(env)
  {
  }

  lemma InHandIf(env: Environment, prior: Option<ExecutionResult>, priorVerification: Option<Verification>,
                 round: nat, current: string, result: ExecutionResult, known: Option<Verification>)
    requires if round == 0 && prior.Some? then prior == Some(result) && known == priorVerification
             else env.execute(round, current) == Finished(result) && result.status != Cancelled && known.None?
    ensures InHand(env, prior, priorVerification, round, current, result, known)
  {
  }

  lemma EndMeans(g: Progress, status: Outcome, v: Option<Verification>)
    ensures End(g, status, v).status == status && End(g, status, v).attempts == g.executions
  {
  }

  /** The ends at the head of the loop: no attempt left, or a cancelled execution. */
  lemma GivesUp(p: Policy, env: Environment, plan: string, prior: Option<ExecutionResult>,
                priorVerification: Option<Verification>, maxAttempts: int, round: nat, current: string, g: Progress,
                holding: bool, v: Option<Verification>, last: Option<ExecutionResult>, judged: seq<Judged>)
    requires Continues(p, env, plan, prior, priorVerification, round, current, g, holding, judged)
    requires v.None? || last.None?
    requires g.executions >= maxAttempts || (last.Some? && last.value.status == Cancelled)
    ensures Ends(p, env, plan, prior, priorVerification, maxAttempts, End(g, GaveUp, v), last, judged)
  {
    EndsSound(p, plan, g, holding, End(g, GaveUp, v));
    CountsAt(p, plan, g, holding);
    hide Sound, Told, LoopInv, AllLedOn, CountOf, Vouched, LedOn, Stopped, NoDuplicates;
  }
}
