/** The circuit breaker under any interleaving of callers.

    A call is two locked blocks with the wrapped function between them: `Begin` before it, `RecordSuccess` or
    `RecordFailure` after it.  A wrapped function that itself ends with a circuit-open error leaves without
    the second block. */
module Circuit {

  datatype Position = Closed | Open | HalfOpen

  /** The guarded fields. */
  datatype Core = Core(state: Position, failures: nat, openedAt: real, probing: bool)

  datatype Settings = Settings(threshold: int, reset: real) {
    predicate Valid() { threshold >= 1 && reset >= 0.0 }
  }

  /** What can happen: a caller enters, succeeds, fails or leaves with a circuit-open error; somebody looks at
      the position. */
  datatype Event =
    | Enter(caller: string, at: real)
    | Success(caller: string, at: real)
    | Failure(caller: string, at: real)
    | Leave(caller: string, at: real)
    | Look(at: real)

  datatype Admission = Pass | CircuitIsOpen | ProbeInFlight

  const INITIAL: Core := Core(Closed, 0, 0.0, false)

  /** Reading the position moves an open circuit to half-open when the timeout is over. */
  function Advance(cfg: Settings, c: Core, now: real): Core {
    if c.state == Open && now - c.openedAt >= cfg.reset then c.(state := HalfOpen, probing := false) else c
  }

  function Admit(cfg: Settings, c: Core, now: real): Admission {
    var a := Advance(cfg, c, now);
    if a.state == Open then CircuitIsOpen
    else if a.state == HalfOpen && a.probing then ProbeInFlight
    else Pass
  }

  function Step(cfg: Settings, c: Core, e: Event): Core {
    match e
    case Enter(_, now) =>
      var a := Advance(cfg, c, now);
      if a.state == HalfOpen then a.(probing := true) else a
    case Success(_, _) => Core(Closed, 0, c.openedAt, false)
    case Failure(_, now) =>
      if c.state == HalfOpen || c.failures + 1 >= cfg.threshold
      then Core(Open, c.failures + 1, now, false)
      else c.(failures := c.failures + 1)
    case Leave(_, _) => c
    case Look(now) => Advance(cfg, c, now)
  }

  function Run(cfg: Settings, events: seq<Event>): Core {
    if events == [] then INITIAL
    else Step(cfg, Run(cfg, events[..|events| - 1]), events[|events| - 1])
  }

  // ---- the rule over the whole past ------------------------------------------------------------

  /** Failures recorded since the last success. */
  function Trailing(events: seq<Event>): nat {
    if events == [] then 0
    else
      match events[|events| - 1]
      case Success(_, _) => 0
      case Failure(_, _) => Trailing(events[..|events| - 1]) + 1
      case _ => Trailing(events[..|events| - 1])
  }

  function LastFailureAt(events: seq<Event>): real {
    if events == [] then 0.0
    else
      match events[|events| - 1]
      case Failure(_, at) => at
      case _ => LastFailureAt(events[..|events| - 1])
  }

  /** The failures after which no call succeeded. */
  ghost function InARow(events: seq<Event>): set<int> {
    set i | 0 <= i < |events| && InRow(events, i)
  }

  ghost predicate InRow(events: seq<Event>, i: int)
    requires 0 <= i < |events|
  {
    events[i].Failure? && forall j :: i < j < |events| ==> !events[j].Success?
  }

  lemma {:induction false} TrailingCounts(events: seq<Event>)
    ensures Trailing(events) == |InARow(events)|
  {
    if events != [] {
      TrailingCounts(events[..|events| - 1]);
      InARowNext(events);
      hide InARow;
    }
  }

  lemma InARowNext(events: seq<Event>)
    requires events != []
    ensures var n := |events| - 1;
      InARow(events) ==
        match events[n]
        case Success(_, _) => {}
        case Failure(_, _) => InARow(events[..n]) + {n}
        case _ => InARow(events[..n])
    ensures |events| - 1 !in InARow(events[..|events| - 1])
  {
    var n := |events| - 1;
    var front := events[..n];
    forall i | 0 <= i < n ensures InRow(events, i) <==> !events[n].Success? && InRow(front, i) { InRowLess(events, i); }
    hide InRow;
    assert InRow(events, n) <==> events[n].Failure? by { LastInRow(events); }
  }

  lemma InRowLess(events: seq<Event>, i: int)
    requires 0 <= i < |events| - 1
    ensures InRow(events, i) <==> !events[|events| - 1].Success? && InRow(events[..|events| - 1], i)
  {
    var front := events[..|events| - 1];
    assert forall j :: 0 <= j < |front| ==> front[j] == events[j];
  }

  lemma LastInRow(events: seq<Event>)
    requires events != []
    ensures InRow(events, |events| - 1) <==> events[|events| - 1].Failure?
  {
  }

  /** The time of the last failure, or zero if there was none. */
  lemma {:induction false} LastFailureMeans(events: seq<Event>)
    ensures (forall i :: 0 <= i < |events| ==> !events[i].Failure?) ==> LastFailureAt(events) == 0.0
    ensures forall i ::
      0 <= i < |events| && events[i].Failure? && (forall j :: i < j < |events| ==> !events[j].Failure?) ==>
        LastFailureAt(events) == events[i].at
  {
    if events != [] {
      var front := events[..|events| - 1];
      LastFailureMeans(front);
      assert forall j :: 0 <= j < |front| ==> front[j] == events[j];
    }
  }

  predicate Tripped(cfg: Settings, events: seq<Event>) {
    Trailing(events) >= cfg.threshold
  }

  /** Somebody was let in on trial since a call last recorded its end. */
  predicate Probed(cfg: Settings, events: seq<Event>)
    decreases |events|, 0
  {
    events != [] &&
    var front := events[..|events| - 1];
    match events[|events| - 1]
    case Enter(_, now) => Probed(cfg, front) || (Tripped(cfg, front) && MayEnter(cfg, front, now))
    case Success(_, _) => false
    case Failure(_, _) => false
    case _ => Probed(cfg, front)
  }

  /** Everybody may enter until enough failures in a row; then one caller per timeout after the last failure. */
  predicate MayEnter(cfg: Settings, events: seq<Event>, now: real)
    decreases |events|, 1
  {
    !Tripped(cfg, events) || (now - LastFailureAt(events) >= cfg.reset && !Probed(cfg, events))
  }

  /** The clock does not go back along the run, nor before `now`. */
  predicate OrderedUpTo(events: seq<Event>, now: real) {
    events == [] ||
    var last := events[|events| - 1];
    last.at <= now && OrderedUpTo(events[..|events| - 1], last.at)
  }

  /** How the four fields reflect the past at time `now`. */
  ghost predicate Reflects(cfg: Settings, c: Core, events: seq<Event>, now: real) {
    && c.failures == Trailing(events)
    && (c.state == Closed <==> !Tripped(cfg, events))
    && (c.state != Closed ==> c.openedAt == LastFailureAt(events))
    && (c.state == HalfOpen ==> now - c.openedAt >= cfg.reset)
    && (c.probing ==> c.state == HalfOpen)
    && c.probing == Probed(cfg, events)
  }

  /** One step keeps the fields in line with the past. */
  lemma StepReflects(cfg: Settings, c: Core, events: seq<Event>, before: real, e: Event)
    requires cfg.Valid() && Reflects(cfg, c, events, before) && before <= e.at
    ensures Reflects(cfg, Step(cfg, c, e), events + [e], e.at)
  {
    var events' := events + [e];
    assert events'[..|events'| - 1] == events;
  }

  /** Four fields are enough: at every point of every run the breaker lets in exactly whom the rule over the
      whole past lets in, and the refusals tell why. */
  lemma {:induction false} FieldsReflectPast(cfg: Settings, events: seq<Event>, now: real)
    requires cfg.Valid() && OrderedUpTo(events, now)
    ensures Reflects(cfg, Run(cfg, events), events, now)
    ensures Admit(cfg, Run(cfg, events), now) ==
      if MayEnter(cfg, events, now) then Pass
      else if now - LastFailureAt(events) >= cfg.reset then ProbeInFlight
      else CircuitIsOpen
  {
    if events != [] {
      var front, e := events[..|events| - 1], events[|events| - 1];
      FieldsReflectPast(cfg, front, e.at);
      StepReflects(cfg, Run(cfg, front), front, e.at, e);
      assert front + [e] == events;
    }
  }

  /** What the documentation calls the three positions, at every point of every run. */
  lemma PositionsMean(cfg: Settings, events: seq<Event>, now: real)
    requires cfg.Valid() && OrderedUpTo(events, now)
    ensures var c := Run(cfg, events);
            && (c.state == Closed <==> c.failures < cfg.threshold)
            && (c.probing ==> c.state == HalfOpen)
  {
    FieldsReflectPast(cfg, events, now);
  }

  // ---- whole runs --------------------------------------------------------------------------------

  predicate Ends(e: Event) {
    e.Success? || e.Failure?
  }

  /** Event `i` is a caller let in. */
  predicate Entered(cfg: Settings, events: seq<Event>, i: nat)
    requires i < |events|
  {
    events[i].Enter? && Admit(cfg, Run(cfg, events[..i]), events[i].at) == Pass
  }

  /** Let in while the circuit was not closed. */
  predicate EnteredOnTrial(cfg: Settings, events: seq<Event>, i: nat)
    requires i < |events|
  {
    Entered(cfg, events, i) && Run(cfg, events[..i]).state != Closed
  }

  lemma {:induction false} OrderedPrefix(events: seq<Event>, now: real, i: nat)
    requires OrderedUpTo(events, now) && i <= |events|
    ensures OrderedUpTo(events[..i], if i < |events| then events[i].at else now)
    ensures i < |events| ==> events[i].at <= now
    decreases |events|
  {
    if i < |events| {
      var front, last := events[..|events| - 1], events[|events| - 1];
      OrderedPrefix(front, last.at, i);
      assert events[..i] == front[..i];
    } else {
      assert events[..i] == events;
    }
  }

  /** Once a caller is let in on trial, the rule refuses everybody until some call records its end. */
  lemma {:induction false} TrialShutsDoor(cfg: Settings, events: seq<Event>, now: real, i: nat, j: nat)
    requires cfg.Valid() && OrderedUpTo(events, now)
    requires i < j <= |events| && EnteredOnTrial(cfg, events, i)
    requires forall k :: i < k < j ==> !Ends(events[k])
    ensures Tripped(cfg, events[..j]) && Probed(cfg, events[..j])
    decreases j
  {
    var front := events[..j - 1];
    assert events[..j][..j - 1] == front && events[..j][j - 1] == events[j - 1];
    if j == i + 1 {
      OrderedPrefix(events, now, i);
      FieldsReflectPast(cfg, front, events[i].at);
    } else {
      TrialShutsDoor(cfg, events, now, i, j - 1);
    }
  }

  /** Between two callers let in on trial some call recorded its end: one trial per half-open period. */
  lemma OneTrialPerPeriod(cfg: Settings, events: seq<Event>, now: real, i: nat, j: nat)
    requires cfg.Valid() && OrderedUpTo(events, now)
    requires i < j < |events| && EnteredOnTrial(cfg, events, i) && Entered(cfg, events, j)
    ensures exists k :: i < k < j && Ends(events[k])
  {
    if forall k :: i < k < j ==> !Ends(events[k]) {
      TrialShutsDoor(cfg, events, now, i, j);
      OrderedPrefix(events, now, j);
      FieldsReflectPast(cfg, events[..j], events[j].at);
    }
  }

  lemma {:induction false} TrippedStays(cfg: Settings, events: seq<Event>, now: real, i: nat, j: nat)
    requires OrderedUpTo(events, now) && i < j <= |events| && events[i].Failure? && Tripped(cfg, events[..i + 1])
    requires forall k :: i < k < j ==> !events[k].Success?
    ensures Tripped(cfg, events[..j]) && events[i].at <= LastFailureAt(events[..j])
    decreases j
  {
    var front := events[..j - 1];
    assert events[..j][..j - 1] == front && events[..j][j - 1] == events[j - 1];
    if j > i + 1 {
      TrippedStays(cfg, events, now, i, j - 1);
      OrderedPrefix(events, now, j - 1);
      var upto := events[..j - 1];
      OrderedPrefix(upto, events[j - 1].at, i);
    }
  }

  /** A failure that leaves the circuit open keeps everybody out for the timeout, unless a call succeeds. */
  lemma NobodyBeforeReset(cfg: Settings, events: seq<Event>, now: real, i: nat, j: nat)
    requires cfg.Valid() && OrderedUpTo(events, now)
    requires i < j < |events| && events[i].Failure? && Run(cfg, events[..i + 1]).state == Open
    requires Entered(cfg, events, j) && forall k :: i < k < j ==> !events[k].Success?
    ensures events[i].at + cfg.reset <= events[j].at
  {
    OrderedPrefix(events, now, i + 1);
    FieldsReflectPast(cfg, events[..i + 1], if i + 1 < |events| then events[i + 1].at else now);
    TrippedStays(cfg, events, now, i, j);
    OrderedPrefix(events, now, j);
    FieldsReflectPast(cfg, events[..j], events[j].at);
  }

  // ---- who is still out --------------------------------------------------------------------------

  /** The fields together with the callers let in that have not left. */
  datatype System = System(core: Core, outside: set<string>)

  /** A caller enters when it is not in a call, and ends or leaves only a call it is in. */
  predicate Legal(s: System, e: Event) {
    match e
    case Enter(c, _) => c !in s.outside
    case Success(c, _) => c in s.outside
    case Failure(c, _) => c in s.outside
    case Leave(c, _) => c in s.outside
    case Look(_) => true
  }

  function Move(cfg: Settings, s: System, e: Event): System {
    System(Step(cfg, s.core, e),
           match e
           case Enter(c, now) => if Admit(cfg, s.core, now) == Pass then s.outside + {c} else s.outside
           case Success(c, _) => s.outside - {c}
           case Failure(c, _) => s.outside - {c}
           case Leave(c, _) => s.outside - {c}
           case Look(_) => s.outside)
  }

  function After(cfg: Settings, s: System, events: seq<Event>): System {
    if events == [] then s
    else Move(cfg, After(cfg, s, events[..|events| - 1]), events[|events| - 1])
  }

  predicate LegalRun(cfg: Settings, s: System, events: seq<Event>) {
    events == [] ||
    var front := events[..|events| - 1];
    LegalRun(cfg, s, front) && Legal(After(cfg, s, front), events[|events| - 1])
  }

  /** None of these callers records an end in this run. */
  predicate Silent(callers: set<string>, events: seq<Event>) {
    forall e | e in events :: Ends(e) ==> e.caller !in callers
  }

  /** A run from time `from` on in which no caller of `silent` records an end, and after which somebody is let in. */
  ghost predicate LetsIn(cfg: Settings, s: System, silent: set<string>, from: real, events: seq<Event>, at: real) {
    && LegalRun(cfg, s, events) && Silent(silent, events)
    && OrderedUpTo(events, at) && from <= (if events == [] then at else events[0].at)
    && Admit(cfg, After(cfg, s, events).core, at) == Pass
  }

  predicate OnTrial(s: System) {
    s.core.state == HalfOpen && s.core.probing
  }

  lemma {:induction false} StaysOnTrial(cfg: Settings, s: System, silent: set<string>, events: seq<Event>)
    requires OnTrial(s) && s.outside <= silent
    requires LegalRun(cfg, s, events) && Silent(silent, events)
    ensures After(cfg, s, events).core == s.core && After(cfg, s, events).outside <= s.outside
  {
    if events != [] {
      var front, e := events[..|events| - 1], events[|events| - 1];
      assert e in events;
      assert Silent(silent, front) by {
        forall f | f in front ensures Ends(f) ==> f.caller !in silent { assert f in events; }
      }
      StaysOnTrial(cfg, s, silent, front);
    }
  }

  /** While a trial is pending nobody gets in as long as the callers of `silent` record no end, if and only if
      nobody else is still in a call. */
  lemma DoorOpensIff(cfg: Settings, s: System, silent: set<string>, from: real)
    requires OnTrial(s)
    ensures (exists events, at :: LetsIn(cfg, s, silent, from, events, at)) <==> !(s.outside <= silent)
  {
    if s.outside <= silent {
      forall events, at ensures !LetsIn(cfg, s, silent, from, events, at) {
        if LegalRun(cfg, s, events) && Silent(silent, events) { StaysOnTrial(cfg, s, silent, events); }
      }
    } else {
      var c := Outsider(s.outside, silent);
      assert [] + [Success(c, from)] == [Success(c, from)];
      Extend(cfg, s, [], Success(c, from));
      assert LetsIn(cfg, s, silent, from, [Success(c, from)], from);
    }
  }

  lemma Outsider(a: set<string>, b: set<string>) returns (c: string)
    requires !(a <= b)
    ensures c in a && c !in b
  {
    c :| c in a && c !in b;
  }

  lemma Extend(cfg: Settings, s: System, events: seq<Event>, e: Event)
    ensures Run(cfg, events + [e]) == Step(cfg, Run(cfg, events), e)
    ensures After(cfg, s, events + [e]) == Move(cfg, After(cfg, s, events), e)
    ensures LegalRun(cfg, s, events + [e]) <==> LegalRun(cfg, s, events) && Legal(After(cfg, s, events), e)
    ensures forall now :: OrderedUpTo(events + [e], now) <==> e.at <= now && OrderedUpTo(events, e.at)
  {
    assert (events + [e])[..|events|] == events;
  }

  /** The documentation promises that during a trial everybody else fails fast until the trial is resolved.  That
      holds exactly when no call let in earlier is still running when the trial begins. */
  lemma TrialAloneIff(cfg: Settings, s: System, trial: string, from: real)
    requires OnTrial(s) && trial in s.outside
    ensures (forall events, at :: !LetsIn(cfg, s, {trial}, from, events, at)) <==> s.outside == {trial}
  {
    DoorOpensIff(cfg, s, {trial}, from);
  }

  /** A trial that leaves with a circuit-open error keeps the door shut for good, exactly when nobody else is
      still in a call. */
  lemma TrialLeavesShutIff(cfg: Settings, s: System, trial: string, from: real)
    requires OnTrial(s) && trial in s.outside
    ensures var left := Move(cfg, s, Leave(trial, from));
            (forall events, at :: !LetsIn(cfg, left, {}, from, events, at)) <==> s.outside == {trial}
  {
    var left := Move(cfg, s, Leave(trial, from));
    DoorOpensIff(cfg, left, {}, from);
    assert left.outside == s.outside - {trial};
    assert left.outside <= {} <==> s.outside <= {trial};
  }

  /** Two trials at once: a call from before the circuit opened fails late, and the next period lets another in. */
  lemma TwoTrials() returns (cfg: Settings, events: seq<Event>, i: nat, j: nat)
    ensures cfg.Valid() && LegalRun(cfg, System(INITIAL, {}), events) && OrderedUpTo(events, 20.0)
    ensures i < j < |events| && EnteredOnTrial(cfg, events, i) && EnteredOnTrial(cfg, events, j)
    ensures {events[i].caller, events[j].caller} <= After(cfg, System(INITIAL, {}), events).outside
  {
    cfg := Settings(1, 10.0);
    var s := System(INITIAL, {});
    var once := [Enter("a", 0.0), Enter("b", 0.0), Failure("a", 0.0)];
    assert once == [] + [Enter("a", 0.0)] + [Enter("b", 0.0)] + [Failure("a", 0.0)];
    Extend(cfg, s, [], Enter("a", 0.0));
    Extend(cfg, s, [] + [Enter("a", 0.0)], Enter("b", 0.0));
    Extend(cfg, s, [] + [Enter("a", 0.0)] + [Enter("b", 0.0)], Failure("a", 0.0));
    assert After(cfg, s, once) == System(Core(Open, 1, 0.0, false), {"b"});
    var again := once + [Enter("c", 10.0)] + [Failure("b", 10.0)];
    Extend(cfg, s, once, Enter("c", 10.0));
    Extend(cfg, s, once + [Enter("c", 10.0)], Failure("b", 10.0));
    assert After(cfg, s, again) == System(Core(Open, 2, 10.0, false), {"c"});
    events := again + [Enter("d", 20.0)];
    Extend(cfg, s, again, Enter("d", 20.0));
    i, j := 3, 5;
    assert events[..3] == once && events[..5] == again;
  }

  /** A run after which nobody is ever let in again: the only trial left with a circuit-open error. */
  lemma ShutForGood() returns (cfg: Settings, events: seq<Event>)
    ensures cfg.Valid() && LegalRun(cfg, System(INITIAL, {}), events) && OrderedUpTo(events, 10.0)
    ensures forall more, at :: !LetsIn(cfg, After(cfg, System(INITIAL, {}), events), {}, 10.0, more, at)
  {
    cfg := Settings(1, 10.0);
    var s := System(INITIAL, {});
    var once := [] + [Enter("a", 0.0)] + [Failure("a", 0.0)];
    Extend(cfg, s, [], Enter("a", 0.0));
    Extend(cfg, s, [] + [Enter("a", 0.0)], Failure("a", 0.0));
    var trial := once + [Enter("b", 10.0)];
    Extend(cfg, s, once, Enter("b", 10.0));
    assert After(cfg, s, trial) == System(Core(HalfOpen, 1, 0.0, true), {"b"});
    events := trial + [Leave("b", 10.0)];
    Extend(cfg, s, trial, Leave("b", 10.0));
    hide LetsIn, LegalRun, OrderedUpTo;
    TrialLeavesShutIff(cfg, After(cfg, s, trial), "b", 10.0);
  }

  // ---- the breaker ---------------------------------------------------------------------------------

  class CircuitBreaker {
    const cfg: Settings
    var state: Position
    var failures: nat
    var openedAt: real
    var halfOpenInFlight: bool
    /** Everything that happened. */
    ghost var past: seq<Event>

    constructor (cfg: Settings)
      requires cfg.Valid()
      ensures Valid() && past == [] && this.cfg == cfg
    {
      this.cfg := cfg;
      state, failures, openedAt, halfOpenInFlight := Closed, 0, 0.0, false;
      past := [];
    }

    /** The settings are checked before a breaker is made. */
    static method Create(threshold: int, reset: real) returns (made: bool, breaker: CircuitBreaker?)
      ensures made <==> threshold >= 1 && reset >= 0.0
      ensures made <==> breaker != null
      ensures made ==> fresh(breaker) && breaker.Valid() && breaker.past == [] && breaker.cfg == Settings(threshold, reset)
    {
      if threshold < 1 || !(reset >= 0.0) { return false, null; }
      breaker := new CircuitBreaker(Settings(threshold, reset));
      made := true;
    }

    ghost predicate Valid()
      reads this
    {
      cfg.Valid() && Core(state, failures, openedAt, halfOpenInFlight) == Run(cfg, past)
    }

    /** The clock reads no earlier than at anything that happened. */
    ghost predicate ReadsAt(now: real)
      reads this
    {
      OrderedUpTo(past, now)
    }

    ghost method Note(e: Event)
      modifies this`past
      ensures past == old(past) + [e]
      ensures Run(cfg, past) == Step(cfg, Run(cfg, old(past)), e)
      ensures old(ReadsAt(e.at)) ==> ReadsAt(e.at)
    {
      past := past + [e];
      assert past[..|past| - 1] == old(past);
    }

    /** Moves an open circuit to half-open when its timeout is over. */
    method StateUnlocked(now: real) returns (position: Position)
      modifies this`state, this`halfOpenInFlight
      ensures Core(state, failures, openedAt, halfOpenInFlight) ==
              Advance(cfg, old(Core(state, failures, openedAt, halfOpenInFlight)), now)
      ensures position == state
    {
      if state == Open && now - openedAt >= cfg.reset {
        state := HalfOpen;
        halfOpenInFlight := false;
      }
      position := state;
    }

    /** The position as shown: it depends on the failures in a row and the time since the last one. */
    method State(now: real) returns (position: Position)
      requires Valid() && ReadsAt(now)
      modifies this
      ensures Valid() && ReadsAt(now) && past == old(past) + [Look(now)]
      ensures position ==
        if !Tripped(cfg, old(past)) then Closed
        else if now - LastFailureAt(old(past)) >= cfg.reset then HalfOpen
        else Open
      ensures position == Closed <==> |InARow(old(past))| < cfg.threshold
    {
      TrailingCounts(past);
      FieldsReflectPast(cfg, past, now);
      position := StateUnlocked(now);
      Note(Look(now));
    }

    /** The block before the wrapped function: let in, or refused. */
    method Begin(caller: string, now: real) returns (answer: Admission)
      requires Valid() && ReadsAt(now)
      modifies this
      ensures Valid() && ReadsAt(now) && past == old(past) + [Enter(caller, now)]
      ensures answer == Pass <==> MayEnter(cfg, old(past), now)
      ensures answer == CircuitIsOpen <==> Tripped(cfg, old(past)) && now - LastFailureAt(old(past)) < cfg.reset
    {
      FieldsReflectPast(cfg, past, now);
      var position := StateUnlocked(now);
      Note(Enter(caller, now));
      if position == Open { return CircuitIsOpen; }
      if position == HalfOpen {
        if halfOpenInFlight { return ProbeInFlight; }
        halfOpenInFlight := true;
      }
      answer := Pass;
    }

    method RecordFailure(ghost caller: string, now: real)
      requires Valid() && ReadsAt(now)
      modifies this
      ensures Valid() && ReadsAt(now) && past == old(past) + [Failure(caller, now)]
    {
      hide Run, OrderedUpTo;
      failures := failures + 1;
      if state == HalfOpen || failures >= cfg.threshold {
        state := Open;
        openedAt := now;
        halfOpenInFlight := false;
      }
      Note(Failure(caller, now));
    }

    method RecordSuccess(ghost caller: string, ghost now: real)
      requires Valid() && ReadsAt(now)
      modifies this
      ensures Valid() && ReadsAt(now) && past == old(past) + [Success(caller, now)]
    {
      hide Run, OrderedUpTo;
      failures := 0;
      state := Closed;
      halfOpenInFlight := false;
      Note(Success(caller, now));
    }
  }
}
