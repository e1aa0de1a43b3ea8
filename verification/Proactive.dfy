/** The proactive engine: triggers fire into proposals that a human or a low-risk rule approves and that are run
    once approved.

    Proposal identifiers, clock readings and what the injected callables do are parameters. */
module Proactive {
  import opened Options
  import opened QuietHours

  datatype Kind = Scheduled | SystemCondition | TaskCompleted | ResourceCondition | RepeatedPattern | UserEvent

  function KindName(k: Kind): string {
    match k
    case Scheduled => "SCHEDULED"
    case SystemCondition => "SYSTEM_CONDITION"
    case TaskCompleted => "TASK_COMPLETED"
    case ResourceCondition => "RESOURCE_CONDITION"
    case RepeatedPattern => "REPEATED_PATTERN"
    case UserEvent => "USER_EVENT"
  }

  /** The category names operators write down. */
  lemma KindNames(k: Kind)
    ensures KindName(k) == "SCHEDULED" <==> k == Scheduled
    ensures KindName(k) == "SYSTEM_CONDITION" <==> k == SystemCondition
    ensures KindName(k) == "TASK_COMPLETED" <==> k == TaskCompleted
    ensures KindName(k) == "RESOURCE_CONDITION" <==> k == ResourceCondition
    ensures KindName(k) == "REPEATED_PATTERN" <==> k == RepeatedPattern
    ensures KindName(k) == "USER_EVENT" <==> k == UserEvent
  {
  }

  datatype Risk = Low | Medium | High | Critical

  datatype ProposalState = Proposed | Approved | Rejected | Executed | Failed

  datatype Trigger = Trigger(kind: Kind, summary: string, cooldown: real, enabled: bool)

  datatype Config = Config(
    enabled: bool,
    quietStart: int,
    quietEnd: int,
    allowed: set<string>,
    maxPerHour: int,
    requireApproval: bool)

  const HOUR: real := 3600.0

  // ---- pacing -----------------------------------------------------------------------------------

  /** A proposal made: its key, its time, and the cooldown its trigger had then. */
  datatype Firing = Firing(trigger: string, subject: string, at: real, cooldown: real)

  /** The times still within the hour before `now`. */
  function Recent(times: seq<real>, now: real): seq<real> {
    if times == [] then []
    else Recent(times[..|times| - 1], now) + if now - times[|times| - 1] < HOUR then [times[|times| - 1]] else []
  }

  function Times(fired: seq<Firing>): seq<real> {
    seq(|fired|, i requires 0 <= i < |fired| => fired[i].at)
  }

  function LastFired(fired: seq<Firing>, trigger: string, subject: string): real {
    if fired == [] then 0.0
    else
      var f := fired[|fired| - 1];
      if f.trigger == trigger && f.subject == subject then f.at else LastFired(fired[..|fired| - 1], trigger, subject)
  }

  /** How many proposals were made in (t - 3600, t]. */
  function InHourBefore(fired: seq<Firing>, t: real): nat {
    if fired == [] then 0
    else
      var f := fired[|fired| - 1];
      InHourBefore(fired[..|fired| - 1], t) + if t - HOUR < f.at <= t then 1 else 0
  }

  /** The proposals of the 3600 seconds that end at `t`. */
  ghost function WithinHour(fired: seq<Firing>, t: real): set<int> {
    set i | 0 <= i < |fired| && t - 3600.0 < fired[i].at <= t
  }

  lemma {:induction false} HourCount(fired: seq<Firing>, t: real)
    ensures InHourBefore(fired, t) == |WithinHour(fired, t)|
  {
    if fired != [] {
      var n := |fired| - 1;
      HourCount(fired[..n], t);
      assert WithinHour(fired, t) == WithinHour(fired[..n], t) + if t - 3600.0 < fired[n].at <= t then {n} else {};
    }
  }

  /** The rule spelled out: a cooldown after every earlier proposal of the key, or after time zero if there is none, and
      room in the hour. */
  ghost predicate Free(fired: seq<Firing>, trigger: string, subject: string, cooldown: real, maxPerHour: int, now: real) {
    && (forall f :: f in fired && f.trigger == trigger && f.subject == subject ==> now - f.at >= cooldown)
    && ((exists f :: f in fired && f.trigger == trigger && f.subject == subject) || now >= cooldown)
    && |WithinHour(fired, now)| < maxPerHour
  }

  lemma FreeIff(fired: seq<Firing>, f: Firing, maxPerHour: int)
    requires Ordered(fired)
    ensures MayFire(fired, f, maxPerHour) <==> Free(fired, f.trigger, f.subject, f.cooldown, maxPerHour, f.at)
  {
    HourCount(fired, f.at);
    LastIsLatest(fired, f.trigger, f.subject);
    hide LastFired, InHourBefore, WithinHour;
  }

  lemma {:induction false} LastIsLatest(fired: seq<Firing>, trigger: string, subject: string)
    requires Ordered(fired)
    ensures forall f :: f in fired && f.trigger == trigger && f.subject == subject ==> f.at <= LastFired(fired, trigger, subject)
    ensures (exists f :: f in fired && f.trigger == trigger && f.subject == subject && f.at == LastFired(fired, trigger, subject))
         || ((forall f :: f in fired ==> f.trigger != trigger || f.subject != subject)
             && LastFired(fired, trigger, subject) == 0.0)
  {
    if fired != [] {
      var n := |fired| - 1;
      var front, last := fired[..n], fired[n];
      assert fired == front + [last];
      LastIsLatest(front, trigger, subject);
      forall f | f in front ensures f.at <= last.at {
        var i :| 0 <= i < n && front[i] == f;
        assert fired[i] == f;
      }
      assert last in fired;
    }
  }

  ghost predicate Ordered(fired: seq<Firing>) {
    forall i, j :: 0 <= i < j < |fired| ==> fired[i].at <= fired[j].at
  }

  ghost predicate NotAfter(fired: seq<Firing>, now: real) {
    forall f :: f in fired ==> f.at <= now
  }

  /** The rule a firing is judged by, over everything proposed before it. */
  predicate MayFire(fired: seq<Firing>, f: Firing, maxPerHour: int) {
    f.at - LastFired(fired, f.trigger, f.subject) >= f.cooldown && InHourBefore(fired, f.at) < maxPerHour
  }

  /** Every firing obeyed the rule. */
  ghost predicate Paced(fired: seq<Firing>, maxPerHour: int) {
    forall i :: 0 <= i < |fired| ==> MayFire(fired[..i], fired[i], maxPerHour)
  }

  lemma PacedAppend(fired: seq<Firing>, f: Firing, maxPerHour: int)
    requires Paced(fired, maxPerHour) && MayFire(fired, f, maxPerHour)
    ensures Paced(fired + [f], maxPerHour)
  {
    hide MayFire;
    var fired' := fired + [f];
    forall i | 0 <= i < |fired'| ensures MayFire(fired'[..i], fired'[i], maxPerHour) {
      assert fired'[..i] == if i < |fired| then fired[..i] else fired;
    }
  }

  /** Dropping what is out of the hour now and again later is dropping it later. */
  lemma {:induction false} RecentTwice(times: seq<real>, cut: real, now: real)
    requires cut <= now
    ensures Recent(Recent(times, cut), now) == Recent(times, now)
  {
    if times != [] {
      var front, last := times[..|times| - 1], times[|times| - 1];
      RecentTwice(front, cut, now);
      var kept := Recent(front, cut);
      assert (kept + [last])[..|kept|] == kept;
      assert kept + [] == kept && Recent(kept, now) + [] == Recent(kept, now);
    }
  }

  lemma RecentAppend(times: seq<real>, t: real, now: real)
    ensures Recent(times + [t], now) == Recent(times, now) + if now - t < HOUR then [t] else []
  {
    assert (times + [t])[..|times|] == times;
  }

  /** Up to now, the times still within the hour are the proposals of the hour before. */
  lemma {:induction false} RecentCounts(fired: seq<Firing>, now: real)
    requires NotAfter(fired, now)
    ensures |Recent(Times(fired), now)| == InHourBefore(fired, now)
  {
    if fired != [] {
      var front, f := fired[..|fired| - 1], fired[|fired| - 1];
      assert Times(fired) == Times(front) + [f.at];
      RecentAppend(Times(front), f.at, now);
      assert forall g :: g in front ==> g in fired;
      RecentCounts(front, now);
    }
  }

  lemma {:induction false} EarlierWindow(fired: seq<Firing>, now: real, t: real)
    requires NotAfter(fired, now) && now <= t
    ensures InHourBefore(fired, t) <= InHourBefore(fired, now)
  {
    if fired != [] {
      assert forall g :: g in fired[..|fired| - 1] ==> g in fired;
      assert fired[|fired| - 1] in fired;
      EarlierWindow(fired[..|fired| - 1], now, t);
    }
  }

  /** In no hour, whenever it ends, are more proposals made than allowed. */
  lemma RateLimit(fired: seq<Firing>, maxPerHour: int, t: real)
    requires Ordered(fired) && Paced(fired, maxPerHour)
    ensures |WithinHour(fired, t)| <= if maxPerHour < 0 then 0 else maxPerHour
  {
    HourBounded(fired, maxPerHour, t);
    HourCount(fired, t);
  }

  lemma {:induction false} HourBounded(fired: seq<Firing>, maxPerHour: int, t: real)
    requires Ordered(fired) && Paced(fired, maxPerHour)
    ensures InHourBefore(fired, t) <= if maxPerHour < 0 then 0 else maxPerHour
  {
    if fired != [] {
      var n := |fired| - 1;
      var front, f := fired[..n], fired[n];
      assert MayFire(fired[..n], f, maxPerHour);
      forall i | 0 <= i < n ensures MayFire(front[..i], front[i], maxPerHour) {
        assert front[..i] == fired[..i] && MayFire(fired[..i], fired[i], maxPerHour);
      }
      HourBounded(front, maxPerHour, t);
      if t - HOUR < f.at <= t {
        forall g | g in front ensures g.at <= f.at {
          var i :| 0 <= i < |front| && front[i] == g;
          assert fired[i] == g;
        }
        EarlierWindow(front, f.at, t);
      }
    }
  }

  lemma {:induction false} LastFiredAtLeast(fired: seq<Firing>, i: nat)
    requires Ordered(fired) && i < |fired|
    ensures fired[i].at <= LastFired(fired, fired[i].trigger, fired[i].subject)
    decreases |fired|
  {
    var n := |fired| - 1;
    if i < n { LastFiredAtLeast(fired[..n], i); }
  }

  /** Two proposals of one key are at least the cooldown apart that holds at the later one. */
  lemma CooldownKept(fired: seq<Firing>, maxPerHour: int, i: nat, j: nat)
    requires Ordered(fired) && Paced(fired, maxPerHour) && i < j < |fired|
    requires fired[i].trigger == fired[j].trigger && fired[i].subject == fired[j].subject
    ensures fired[j].at - fired[i].at >= fired[j].cooldown
  {
    assert MayFire(fired[..j], fired[j], maxPerHour);
    LastFiredAtLeast(fired[..j], i);
  }

  // ---- proposals ------------------------------------------------------------------------------------

  class ProactiveProposal {
    const trigger: string
    const subject: string
    const summary: string
    const risk: Risk
    var state: ProposalState
    /** How often it was run, and how often its verifier raised. */
    ghost var runs: nat
    ghost var unverified: nat

    constructor (trigger: string, subject: string, summary: string, risk: Risk)
      ensures this.trigger == trigger && this.subject == subject && this.summary == summary && this.risk == risk
      ensures state == Proposed && Consistent() && runs == 0
    {
      this.trigger, this.subject, this.summary, this.risk := trigger, subject, summary, risk;
      state, runs, unverified := Proposed, 0, 0;
    }

    /** Nothing runs before it is approved; after that it runs once, and once more for each time its verifier raised. */
    ghost predicate Consistent()
      reads this
    {
      && (state == Proposed || state == Rejected ==> runs == 0)
      && runs == unverified + if state == Executed || state == Failed then 1 else 0
    }
  }

  /** What the injected callables do. */
  datatype Behaviour = Raises | Returns(verified: bool) | VerifierRaises

  type Memory = map<(string, string), real>

  function Recall(m: Memory, trigger: string, subject: string): real {
    if (trigger, subject) in m then m[(trigger, subject)] else 0.0
  }

  ghost predicate Remembers(m: Memory, fired: seq<Firing>) {
    forall t, s :: Recall(m, t, s) == LastFired(fired, t, s)
  }

  class ProactiveEngine {
    const config: Config
    var triggers: map<string, Trigger>
    var proposals: map<string, ProactiveProposal>
    var lastFired: Memory
    var proposalTimes: seq<real>
    /** Every proposal made so far, and the last clock reading. */
    ghost var fired: seq<Firing>
    ghost var clock: real
    ghost var cut: real

    constructor (config: Config, now: real)
      ensures Valid() && this.config == config && clock == now
      ensures triggers == map[] && proposals == map[] && fired == []
    {
      this.config := config;
      triggers, proposals, lastFired, proposalTimes := map[], map[], map[], [];
      fired, clock, cut := [], now, now;
    }

    ghost predicate Valid()
      reads this, proposals.Values
    {
      Timing() && Standing()
    }

    /** The pruned list and the last times reflect all proposals ever made, and those were paced. */
    ghost predicate Timing()
      reads this`fired, this`clock, this`cut, this`proposalTimes, this`lastFired
    {
      && Ordered(fired) && NotAfter(fired, clock) && Paced(fired, config.maxPerHour)
      && cut <= clock && proposalTimes == Recent(Times(fired), cut)
      && Remembers(lastFired, fired)
    }

    /** Every proposal is stored once and in a state its runs account for. */
    ghost predicate Standing()
      reads this`proposals, proposals.Values
    {
      && (forall i :: i in proposals ==> proposals[i].Consistent())
      && (forall i, j :: i in proposals && j in proposals && proposals[i] == proposals[j] ==> i == j)
    }

    method AddTrigger(id: string, trigger: Trigger)
      requires Valid()
      modifies this`triggers
      ensures Valid() && triggers == old(triggers)[id := trigger]
    {
      triggers := triggers[id := trigger];
    }

    method RemoveTrigger(id: string) returns (known: bool)
      requires Valid()
      modifies this`triggers
      ensures Valid() && triggers == old(triggers) - {id} && known == (id in old(triggers))
    {
      known := id in triggers;
      triggers := triggers - {id};
    }

    predicate Quiet(now: real) {
      InQuietHours(Some((config.quietStart, config.quietEnd)), (now / HOUR).Floor % 24)
    }

    /** A firing gets past the operator's switches. */
    predicate Open(id: string, now: real)
      reads this
    {
      && id in triggers && config.enabled && triggers[id].enabled
      && (config.allowed == {} || KindName(triggers[id].kind) in config.allowed)
      && !Quiet(now)
    }

    /** The clock moves on. */
    ghost method Wait(now: real)
      requires Valid() && clock <= now
      modifies this`clock
      ensures Valid() && clock == now
    {
      hide Standing, Remembers, Paced, Ordered, Recent;
      clock := now;
    }

    /** Turns a fired trigger into a proposal, or suppresses it.  The list of times is pruned on the way, yet a
        firing gets through exactly when the rule over everything proposed so far lets it. */
    method Evaluate(id: string, subject: string, risk: Risk, summary: string, name: string, glance: real, now: real)
      returns (proposal: ProactiveProposal?)
      requires Valid() && clock <= glance <= now && name !in proposals
      modifies this
      ensures Valid() && clock == now && triggers == old(triggers)
      ensures proposal != null <==>
        && old(Open(id, glance))
        && MayFire(old(fired), Firing(id, subject, now, triggers[id].cooldown), config.maxPerHour)
      ensures proposal != null <==>
        && id in triggers && config.enabled && triggers[id].enabled
        && (config.allowed == {} || KindName(triggers[id].kind) in config.allowed)
        && !InQuietHours(Some((config.quietStart, config.quietEnd)), (glance / 3600.0).Floor % 24)
        && Free(old(fired), id, subject, triggers[id].cooldown, config.maxPerHour, now)
      ensures proposal != null ==>
        && fresh(proposal) && proposals == old(proposals)[name := proposal]
        && fired == old(fired) + [Firing(id, subject, now, triggers[id].cooldown)]
        && proposal.trigger == id && proposal.subject == subject && proposal.risk == risk
        && proposal.summary == (if summary != "" then summary else triggers[id].summary)
        && proposal.state == (if !config.requireApproval && risk == Low then Approved else Proposed)
        && proposal.runs == 0
      ensures proposal == null ==> proposals == old(proposals) && fired == old(fired)
    {
      FreeIfThere(id, subject, now);
      hide Timing, Standing, Recent, MayFire, Free;
      var through := GetsThrough(id, subject, glance, now);
      if !through { return null; }
      var trigger := triggers[id];
      proposal := new ProactiveProposal(id, subject, if summary != "" then summary else trigger.summary, risk);
      if !config.requireApproval && risk == Low { proposal.state := Approved; }
      Enter(name, proposal, now, Firing(id, subject, now, trigger.cooldown));
    }

    lemma FreeIfThere(id: string, subject: string, now: real)
      requires Ordered(fired)
      ensures id in triggers ==>
        (MayFire(fired, Firing(id, subject, now, triggers[id].cooldown), config.maxPerHour)
         <==> Free(fired, id, subject, triggers[id].cooldown, config.maxPerHour, now))
    {
      if id in triggers { FreeIff(fired, Firing(id, subject, now, triggers[id].cooldown), config.maxPerHour); }
    }

    /** The checks before a proposal is made: the switches, quiet hours, the cooldown of the key and the hourly cap. */
    method GetsThrough(id: string, subject: string, glance: real, now: real) returns (ok: bool)
      requires Valid() && clock <= glance <= now
      modifies this`clock, this`proposalTimes, this`cut
      ensures Valid() && clock == now
      ensures ok <==>
        && Open(id, glance)
        && MayFire(fired, Firing(id, subject, now, triggers[id].cooldown), config.maxPerHour)
      ensures ok ==> cut == now
    {
      hide Standing;
      Wait(now);
      if id !in triggers || !config.enabled || !triggers[id].enabled { return false; }
      var trigger := triggers[id];
      if config.allowed != {} && KindName(trigger.kind) !in config.allowed { return false; }
      if Quiet(glance) { return false; }
      hide MayFire, Recent, InHourBefore, LastFired, Ordered, NotAfter, Paced, Remembers;
      ghost var f := Firing(id, subject, now, trigger.cooldown);
      Recalled(lastFired, fired, id, subject);
      if now - Recall(lastFired, id, subject) < trigger.cooldown {
        TooSoon(fired, f, config.maxPerHour);
        return false;
      }
      Prune(now);
      Judged(fired, f, config.maxPerHour);
      ok := |proposalTimes| < config.maxPerHour;
    }

    /** Enters a new proposal made now. */
    method Enter(name: string, proposal: ProactiveProposal, now: real, ghost f: Firing)
      requires Valid() && name !in proposals && proposal !in proposals.Values && proposal.Consistent()
      requires cut == clock == f.at == now && f.trigger == proposal.trigger && f.subject == proposal.subject
      requires MayFire(fired, f, config.maxPerHour)
      modifies this`proposals, this`proposalTimes, this`lastFired, this`fired
      ensures Valid() && proposals == old(proposals)[name := proposal] && fired == old(fired) + [f]
    {
      hide MayFire, Recent, InHourBefore, LastFired, Ordered, NotAfter, Paced, Remembers;
      FiredMore(fired, f, config.maxPerHour);
      RemembersMore(lastFired, fired, f);
      assert forall i :: i in proposals ==> proposals[i] in proposals.Values;
      proposals := proposals[name := proposal];
      proposalTimes := proposalTimes + [now];
      lastFired := lastFired[(proposal.trigger, proposal.subject) := now];
      fired := fired + [f];
    }

    method Prune(now: real)
      requires Valid() && clock == now
      modifies this`proposalTimes, this`cut
      ensures Valid() && cut == now
      ensures |proposalTimes| == InHourBefore(fired, now)
    {
      hide Standing, Remembers, Paced, Ordered;
      ghost var all := Times(fired);
      RecentTwice(all, cut, now);
      RecentCounts(fired, now);
      var times, kept: seq<real> := proposalTimes, [];
      for i := 0 to |times|
        invariant kept == Recent(times[..i], now)
        modifies {}
      {
        assert times[..i + 1] == times[..i] + [times[i]];
        RecentAppend(times[..i], times[i], now);
        if now - times[i] < HOUR { kept := kept + [times[i]]; }
      }
      assert times[..|times|] == times;
      proposalTimes := kept;
      cut := now;
    }

    method Approve(name: string) returns (ok: bool)
      requires Valid()
      modifies if name in proposals then {proposals[name]} else {}
      ensures Valid() && (ok <==> name in proposals && old(proposals[name].state) == Proposed)
      ensures name in proposals ==>
        && proposals[name].state == (if ok then Approved else old(proposals[name].state))
        && proposals[name].runs == old(proposals[name].runs)
    {
      hide Timing;
      if name !in proposals || proposals[name].state != Proposed { return false; }
      proposals[name].state := Approved;
      return true;
    }

    method Reject(name: string) returns (ok: bool)
      requires Valid()
      modifies if name in proposals then {proposals[name]} else {}
      ensures Valid() && (ok <==> name in proposals && old(proposals[name].state) == Proposed)
      ensures name in proposals ==>
        && proposals[name].state == (if ok then Rejected else old(proposals[name].state))
        && proposals[name].runs == old(proposals[name].runs)
    {
      hide Timing;
      if name !in proposals || proposals[name].state != Proposed { return false; }
      proposals[name].state := Rejected;
      return true;
    }

    /** Runs an approved proposal through the injected callables.  An exception of the verifier escapes and
        leaves the proposal approved. */
    method Execute(name: string, behaviour: Behaviour) returns (ok: bool)
      requires Valid()
      modifies if name in proposals then {proposals[name]} else {}
      ensures Valid()
      ensures ok <==> name in proposals && old(proposals[name].state) == Approved && !behaviour.VerifierRaises?
      ensures name in proposals && old(proposals[name].state) == Approved ==>
        && proposals[name].runs == old(proposals[name].runs) + 1
        && proposals[name].state ==
             match behaviour
             case Raises => Failed
             case Returns(verified) => if verified then Executed else Failed
             case VerifierRaises => Approved
      ensures name in proposals && old(proposals[name].state) != Approved ==>
        proposals[name].runs == old(proposals[name].runs) && proposals[name].state == old(proposals[name].state)
    {
      hide Timing;
      if name !in proposals { return false; }
      var p := proposals[name];
      if p.state != Approved { return false; }
      p.runs := p.runs + 1;
      match behaviour {
        case Raises => p.state := Failed;
        case Returns(verified) => p.state := if verified then Executed else Failed;
        case VerifierRaises =>
          p.unverified := p.unverified + 1;
          return false;
      }
      ok := true;
    }
  }

  lemma TooSoon(fired: seq<Firing>, f: Firing, maxPerHour: int)
    requires f.at - LastFired(fired, f.trigger, f.subject) < f.cooldown
    ensures !MayFire(fired, f, maxPerHour)
  {
  }

  lemma Judged(fired: seq<Firing>, f: Firing, maxPerHour: int)
    requires f.at - LastFired(fired, f.trigger, f.subject) >= f.cooldown
    ensures MayFire(fired, f, maxPerHour) <==> InHourBefore(fired, f.at) < maxPerHour
  {
  }

  lemma Recalled(m: Memory, fired: seq<Firing>, trigger: string, subject: string)
    requires Remembers(m, fired)
    ensures Recall(m, trigger, subject) == LastFired(fired, trigger, subject)
  {
  }

  lemma RemembersMore(m: Memory, fired: seq<Firing>, f: Firing)
    requires Remembers(m, fired)
    ensures Remembers(m[(f.trigger, f.subject) := f.at], fired + [f])
  {
    var m', more := m[(f.trigger, f.subject) := f.at], fired + [f];
    assert more[..|fired|] == fired;
    forall t, s ensures Recall(m', t, s) == LastFired(more, t, s) {
      assert Recall(m, t, s) == LastFired(fired, t, s);
    }
  }

  lemma FiredMore(fired: seq<Firing>, f: Firing, maxPerHour: int)
    requires Ordered(fired) && NotAfter(fired, f.at) && Paced(fired, maxPerHour) && MayFire(fired, f, maxPerHour)
    ensures var more := fired + [f];
      && Ordered(more) && NotAfter(more, f.at) && Paced(more, maxPerHour)
      && Recent(Times(more), f.at) == Recent(Times(fired), f.at) + [f.at]
  {
    hide MayFire;
    var more := fired + [f];
    PacedAppend(fired, f, maxPerHour);
    assert more[..|fired|] == fired;
    assert Times(more) == Times(fired) + [f.at];
    RecentAppend(Times(fired), f.at, f.at);
    forall i, j | 0 <= i < j < |more| ensures more[i].at <= more[j].at {
      assert fired[i] in fired;
    }
  }

  /** One approved proposal run twice: the verifier raises the first time. */
  method ExecutedTwice() returns (engine: ProactiveEngine, proposal: ProactiveProposal?)
    ensures fresh(engine) && engine.Valid() && proposal != null
    ensures engine.proposals == map["p" := proposal] && proposal.state == Executed && proposal.runs == 2
  {
    hide ProactiveEngine.Valid, MayFire;
    engine := new ProactiveEngine(Config(true, 0, 0, {}, 1, false), 0.0);
    engine.AddTrigger("t", Trigger(Scheduled, "", 0.0, true));
    FirstMayFire(Firing("t", "", 0.0, 0.0));
    proposal := engine.Evaluate("t", "", Low, "", "p", 0.0, 0.0);
    var ok := engine.Execute("p", VerifierRaises);
    ok := engine.Execute("p", Returns(true));
  }

  lemma FirstMayFire(f: Firing)
    requires f.at - 0.0 >= f.cooldown
    ensures MayFire([], f, 1)
  {
  }
}
