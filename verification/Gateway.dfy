/** The device gateway: single-use pairing codes, expiring sessions, revocation and a replay window.

    Codes and tokens are drawn by the environment; every clock reading is a parameter and readings never
    go back. */
module Gateway {
  import opened Options

  // ---- the replay window -------------------------------------------------------------------

  /** A nonce and when it was used. */
  datatype Use = Use(nonce: string, at: real)

  /** Drops the oldest uses as long as they are out of the window. */
  function Prune(uses: seq<Use>, now: real, window: real): seq<Use> {
    if uses != [] && now - uses[0].at > window then Prune(uses[1..], now, window) else uses
  }

  predicate Holds(uses: seq<Use>, nonce: string) {
    exists u | u in uses :: u.nonce == nonce
  }

  /** The deque after one request; a nonce still in it is refused. */
  function UseNonce(uses: seq<Use>, nonce: string, now: real, window: real): (seq<Use>, bool) {
    var kept := Prune(uses, now, window);
    if Holds(kept, nonce) then (kept, false) else (kept + [Use(nonce, now)], true)
  }

  /** The rule over the whole past: nobody used this nonce within the window. */
  predicate Unused(history: seq<Use>, nonce: string, now: real, window: real) {
    forall u | u in history :: u.nonce == nonce ==> now - u.at > window
  }

  lemma UnusedMeans(history: seq<Use>, nonce: string, now: real, window: real)
    ensures Unused(history, nonce, now, window) <==> forall u :: u in history && u.nonce == nonce ==> now - u.at > window
  {
  }

  ghost predicate Ordered(uses: seq<Use>) {
    forall i, j :: 0 <= i < j < |uses| ==> uses[i].at <= uses[j].at
  }

  ghost predicate NotAfter(uses: seq<Use>, now: real) {
    forall u :: u in uses ==> u.at <= now
  }

  /** The deque is the accepted history without a beginning that has left the window for good. */
  ghost predicate IsWindow(uses: seq<Use>, history: seq<Use>, now: real, window: real) {
    && |uses| <= |history| && uses == history[|history| - |uses|..]
    && (forall i :: 0 <= i < |history| - |uses| ==> now - history[i].at > window)
    && Ordered(history) && NotAfter(history, now)
  }

  lemma {:induction false} PruneKeepsWindow(uses: seq<Use>, history: seq<Use>, before: real, now: real, window: real)
    requires IsWindow(uses, history, before, window) && before <= now
    ensures IsWindow(Prune(uses, now, window), history, now, window)
    ensures forall u :: u in Prune(uses, now, window) ==> now - u.at <= window
    decreases |uses|
  {
    var n := |history| - |uses|;
    if uses != [] {
      assert uses[0] == history[n];
      if now - uses[0].at > window {
        assert uses[1..] == history[n + 1..];
        forall i | 0 <= i < n + 1 ensures now - history[i].at > window {}
        PruneKeepsWindow(uses[1..], history, now, now, window);
      } else {
        forall u | u in uses ensures now - u.at <= window {
          var k :| 0 <= k < |uses| && uses[k] == u;
          assert uses[k] == history[n + k];
        }
      }
    }
  }

  /** Once pruned, what the deque holds is what the window of the history holds. */
  lemma HoldsIffUsed(kept: seq<Use>, history: seq<Use>, now: real, window: real, nonce: string)
    requires IsWindow(kept, history, now, window)
    requires forall u :: u in kept ==> now - u.at <= window
    ensures Holds(kept, nonce) <==> !Unused(history, nonce, now, window)
  {
    var n := |history| - |kept|;
    if Holds(kept, nonce) {
      var u :| u in kept && u.nonce == nonce;
      assert u in history;
    } else {
      forall u | u in history ensures u.nonce == nonce ==> now - u.at > window {
        var k :| 0 <= k < |history| && history[k] == u;
        if n <= k { assert kept[k - n] == u; }
      }
    }
  }

  lemma AppendKeepsWindow(kept: seq<Use>, history: seq<Use>, now: real, window: real, nonce: string)
    requires IsWindow(kept, history, now, window)
    ensures IsWindow(kept + [Use(nonce, now)], history + [Use(nonce, now)], now, window)
  {
    var history', kept' := history + [Use(nonce, now)], kept + [Use(nonce, now)];
    assert history'[|history'| - |kept'|..] == kept';
    forall i, j | 0 <= i < j < |history'| ensures history'[i].at <= history'[j].at {
      assert history[i] in history;
    }
  }

  /** One request against the pruned deque is decided as against the whole history. */
  lemma WindowDecides(uses: seq<Use>, history: seq<Use>, before: real, now: real, window: real, nonce: string)
    requires IsWindow(uses, history, before, window) && before <= now
    ensures var (uses', ok) := UseNonce(uses, nonce, now, window);
            && ok == Unused(history, nonce, now, window)
            && IsWindow(uses', if ok then history + [Use(nonce, now)] else history, now, window)
  {
    hide IsWindow, Unused, Holds;
    PruneKeepsWindow(uses, history, before, now, window);
    var kept := Prune(uses, now, window);
    HoldsIffUsed(kept, history, now, window, nonce);
    AppendKeepsWindow(kept, history, now, window, nonce);
  }

  /** A request: a nonce at a time. */
  type Requests = seq<Use>

  /** Deque and accepted requests after a run. */
  function RunDeque(requests: Requests, window: real): (seq<Use>, seq<Use>) {
    if requests == [] then ([], [])
    else
      var (uses, accepted) := RunDeque(requests[..|requests| - 1], window);
      var r := requests[|requests| - 1];
      var (uses', ok) := UseNonce(uses, r.nonce, r.at, window);
      (uses', if ok then accepted + [r] else accepted)
  }

  /** The same requests judged against everything accepted before. */
  function RunHistory(requests: Requests, window: real): seq<Use> {
    if requests == [] then []
    else
      var accepted := RunHistory(requests[..|requests| - 1], window);
      var r := requests[|requests| - 1];
      if Unused(accepted, r.nonce, r.at, window) then accepted + [r] else accepted
  }

  /** Over any run with a clock that does not go back, the pruned deque accepts exactly what full memory would. */
  lemma {:induction false} WindowRefinesHistory(requests: Requests, window: real, now: real)
    requires Ordered(requests) && NotAfter(requests, now)
    ensures RunDeque(requests, window).1 == RunHistory(requests, window)
    ensures IsWindow(RunDeque(requests, window).0, RunHistory(requests, window),
                     if requests == [] then now else requests[|requests| - 1].at, window)
  {
    if requests != [] {
      var front, r := requests[..|requests| - 1], requests[|requests| - 1];
      forall u | u in front ensures u.at <= r.at {
        var i :| 0 <= i < |front| && front[i] == u;
        assert requests[i] == u;
      }
      WindowRefinesHistory(front, window, r.at);
      var before := if front == [] then r.at else front[|front| - 1].at;
      if front != [] { assert front[|front| - 1] in front; }
      WindowDecides(RunDeque(front, window).0, RunHistory(front, window), before, r.at, window, r.nonce);
    }
  }

  // ---- codes and sessions ----------------------------------------------------------------------

  datatype Role = Phone | Hardware

  datatype Code = Code(device: string, role: Role, expires: real, used: bool)

  datatype Session = Session(device: string, role: Role, expires: real)

  type Codes = map<string, Code>
  type Sessions = map<string, Session>

  predicate Redeemable(codes: Codes, code: string, now: real) {
    code in codes && !codes[code].used && now <= codes[code].expires
  }

  predicate Live(sessions: Sessions, revoked: set<string>, token: string, now: real) {
    token in sessions && sessions[token].device !in revoked && now <= sessions[token].expires
  }

  function GcCodes(codes: Codes, now: real): Codes {
    map c | c in codes && !codes[c].used && codes[c].expires > now :: codes[c]
  }

  function GcSessions(sessions: Sessions, revoked: set<string>, now: real): Sessions {
    map t | t in sessions && sessions[t].expires > now && sessions[t].device !in revoked :: sessions[t]
  }

  /** Collection at `now` changes no later verdict; at the very same instant it takes away exactly what expires then. */
  lemma GcChangesNoLaterVerdict(codes: Codes, sessions: Sessions, revoked: set<string>, now: real, later: real, key: string)
    requires now <= later
    ensures Redeemable(GcCodes(codes, now), key, later) <==>
      Redeemable(codes, key, later) && !(later == now == codes[key].expires)
    ensures Live(GcSessions(sessions, revoked, now), revoked, key, later) <==>
      Live(sessions, revoked, key, later) && !(later == now == sessions[key].expires)
  {
  }

  /** At that instant both kinds are still good without the collection and gone after it. */
  lemma GcDropsAtExpiry() returns (codes: Codes, sessions: Sessions, now: real)
    ensures Redeemable(codes, "k", now) && !Redeemable(GcCodes(codes, now), "k", now)
    ensures Live(sessions, {}, "k", now) && !Live(GcSessions(sessions, {}, now), {}, "k", now)
  {
    codes, sessions, now := map["k" := Code("d", Phone, 1.0, false)], map["k" := Session("d", Phone, 1.0)], 1.0;
  }

  function Scopes(role: Role): set<string> {
    match role
    case Phone => {"status", "tasks", "cancel", "permissions-view", "awareness", "decide"}
    case Hardware => {"status", "approve-record", "deny-cancel", "stop", "model-note"}
  }

  const WRITE_SCOPES: set<string> := {"tasks", "cancel", "decide"}

  /** What each role may do; hardware can change nothing, and a phone everything that may be changed. */
  lemma ScopesMean(scope: string)
    ensures scope in Scopes(Phone) <==>
      || scope in WRITE_SCOPES
      || scope == "status" || scope == "permissions-view" || scope == "awareness"
    ensures scope in Scopes(Hardware) <==>
      || scope == "status" || scope == "approve-record" || scope == "deny-cancel" || scope == "stop" || scope == "model-note"
    ensures scope in WRITE_SCOPES <==> scope == "tasks" || scope == "cancel" || scope == "decide"
    ensures !(scope in Scopes(Hardware) && scope in WRITE_SCOPES)
  {
  }

  predicate StrongSecret(secret: string) {
    |secret| >= 16 && |set c | c in secret| >= 8
  }

  class EcosystemGateway {
    const codeTtl: real
    const sessionTtl: real
    const window: real
    var codes: Codes
    var secrets: map<string, string>
    var sessions: Sessions
    var revoked: set<string>
    var nonces: seq<Use>
    /** Clock reading last seen, codes ever issued and redeemed, nonces ever accepted. */
    ghost var clock: real
    ghost var issued: set<string>
    ghost var redeemed: set<string>
    ghost var accepted: seq<Use>

    constructor (codeTtl: real, sessionTtl: real, window: real, now: real)
      ensures Valid() && clock == now && issued == {} && redeemed == {} && accepted == []
      ensures this.codeTtl == codeTtl && this.sessionTtl == sessionTtl && this.window == window
    {
      this.codeTtl, this.sessionTtl, this.window := codeTtl, sessionTtl, window;
      codes, secrets, sessions, revoked, nonces := map[], map[], map[], {}, [];
      clock, issued, redeemed, accepted := now, {}, {}, [];
    }

    ghost predicate Valid()
      reads this
    {
      && codes.Keys <= issued && redeemed <= issued
      && (forall c :: c in redeemed && c in codes ==> codes[c].used)
      && (forall t :: t in sessions ==> sessions[t].device !in revoked)
      && IsWindow(nonces, accepted, clock, window)
    }

    /** Issues a code never issued before. */
    method IssuePairingCode(device: string, role: Role, code: string, now: real, later: real)
      requires Valid() && clock <= now <= later && code !in issued
      modifies this
      ensures Valid() && clock == later && issued == old(issued) + {code} && redeemed == old(redeemed)
      ensures codes == GcCodes(old(codes), now)[code := Code(device, role, later + codeTtl, false)]
      ensures forall c :: c in codes <==> c == code || (c in old(codes) && !old(codes)[c].used && now < old(codes)[c].expires)
      ensures codes[code] == Code(device, role, later + codeTtl, false)
      ensures sessions == GcSessions(old(sessions), revoked, now)
      ensures forall t :: t in sessions <==>
        t in old(sessions) && now < old(sessions)[t].expires && old(sessions)[t].device !in revoked
      ensures revoked == old(revoked) && accepted == old(accepted) && secrets == old(secrets)
    {
      codes := GcCodes(codes, now);
      sessions := GcSessions(sessions, revoked, now);
      codes := codes[code := Code(device, role, later + codeTtl, false)];
      issued := issued + {code};
      Wait(later);
    }

    ghost method Wait(now: real)
      requires Valid() && clock <= now
      modifies this`clock
      ensures Valid() && clock == now
    {
      clock := now;
    }

    /** Redeems a code: at most once ever, before it expires, for a strong secret.  Pairing again lifts a revocation. */
    method Pair(code: string, secret: string, token: string, now: real, later: real) returns (ok: bool)
      requires Valid() && clock <= now <= later
      modifies this
      ensures Valid() && clock == later && issued == old(issued) && accepted == old(accepted)
      ensures ok <==> Redeemable(old(codes), code, now) && StrongSecret(secret)
      ensures ok <==>
        && code in old(codes) && !old(codes)[code].used && now <= old(codes)[code].expires
        && |secret| >= 16 && |set c | c in secret| >= 8
      ensures ok ==> codes == old(codes)[code := old(codes)[code].(used := true)]
      ensures ok ==> code !in old(redeemed) && redeemed == old(redeemed) + {code}
      ensures ok ==>
        var c := old(codes)[code];
        && Live(sessions, revoked, token, later) == (sessionTtl >= 0.0)
        && sessions == old(sessions)[token := Session(c.device, c.role, later + sessionTtl)]
        && revoked == old(revoked) - {c.device}
        && secrets == old(secrets)[c.device := secret]
      ensures !ok ==> redeemed == old(redeemed) && codes == old(codes) && sessions == old(sessions)
      ensures !ok ==> revoked == old(revoked) && secrets == old(secrets)
    {
      Wait(later);
      if code !in codes || codes[code].used { return false; }
      if now > codes[code].expires { return false; }
      if |secret| < 16 || |set c | c in secret| < 8 { return false; }
      var c := codes[code];
      codes := codes[code := c.(used := true)];
      redeemed := redeemed + {code};
      secrets := secrets[c.device := secret];
      revoked := revoked - {c.device};
      sessions := sessions[token := Session(c.device, c.role, later + sessionTtl)];
      return true;
    }

    /** The session behind a token, if it is live; an expired one is dropped on the way. */
    method LiveSession(token: string, now: real) returns (session: Option<Session>)
      requires Valid() && clock <= now
      modifies this`sessions, this`clock
      ensures Valid() && clock == now
      ensures session == if Live(old(sessions), revoked, token, now) then Some(old(sessions)[token]) else None
      ensures session.Some? <==>
        token in old(sessions) && old(sessions)[token].device !in revoked && now <= old(sessions)[token].expires
      ensures sessions == if session.Some? || token !in old(sessions) then old(sessions) else old(sessions) - {token}
    {
      Wait(now);
      if token !in sessions { return None; }
      var s := sessions[token];
      if s.device in revoked { return None; }
      if now > s.expires {
        sessions := sessions - {token};
        return None;
      }
      return Some(s);
    }

    /** Trades a live token for a fresh one of the same device and role; the old one is dead. */
    method Refresh(token: string, newToken: string, now: real, later: real) returns (ok: bool)
      requires Valid() && clock <= now <= later
      modifies this
      ensures Valid() && codes == old(codes) && issued == old(issued) && redeemed == old(redeemed)
      ensures accepted == old(accepted) && revoked == old(revoked) && secrets == old(secrets)
      ensures clock == if ok then later else now
      ensures !ok ==> sessions == old(sessions) - {token}
      ensures ok <==> Live(old(sessions), old(revoked), token, now)
      ensures ok ==>
        var s := old(sessions)[token];
        sessions == (old(sessions) - {token})[newToken := Session(s.device, s.role, later + sessionTtl)]
    {
      var session := LiveSession(token, now);
      if session.None? { return false; }
      var s := session.value;
      sessions := sessions - {token};
      Wait(later);
      sessions := sessions[newToken := Session(s.device, s.role, later + sessionTtl)];
      return true;
    }

    method RevokeToken(token: string) returns (known: bool)
      requires Valid()
      modifies this`sessions
      ensures Valid() && sessions == old(sessions) - {token}
      ensures known <==> token in old(sessions)
    {
      known := token in sessions;
      sessions := sessions - {token};
    }

    /** Kills all sessions of the device and forgets its secret. */
    method RevokeDevice(device: string)
      requires Valid()
      modifies this
      ensures Valid() && revoked == old(revoked) + {device} && secrets == old(secrets) - {device}
      ensures forall t :: t in sessions <==> t in old(sessions) && old(sessions)[t].device != device
      ensures forall t :: t in sessions ==> sessions[t] == old(sessions)[t]
      ensures codes == old(codes) && issued == old(issued) && redeemed == old(redeemed)
      ensures accepted == old(accepted) && clock == old(clock)
    {
      sessions := map t | t in sessions && sessions[t].device != device :: sessions[t];
      secrets := secrets - {device};
      revoked := revoked + {device};
    }

    method AcceptNonce(nonce: string, now: real) returns (ok: bool)
      requires Valid() && clock <= now
      modifies this`nonces, this`accepted, this`clock
      ensures Valid() && clock == now
      ensures ok <==> Unused(old(accepted), nonce, now, window)
      ensures ok <==> forall u :: u in old(accepted) && u.nonce == nonce ==> now - u.at > window
      ensures accepted == if ok then old(accepted) + [Use(nonce, now)] else old(accepted)
    {
      UnusedMeans(accepted, nonce, now, window);
      hide IsWindow, Unused;
      WindowDecides(nonces, accepted, clock, now, window, nonce);
      ghost var decided := UseNonce(nonces, nonce, now, window);
      while nonces != [] && now - nonces[0].at > window
        invariant Prune(nonces, now, window) == Prune(old(nonces), now, window)
        decreases |nonces|
        modifies this`nonces
      {
        nonces := nonces[1..];
      }
      assert nonces == Prune(old(nonces), now, window);
      clock := now;
      ok := !Holds(nonces, nonce);
      assert decided.1 == ok;
      if ok {
        nonces := nonces + [Use(nonce, now)];
        accepted := accepted + [Use(nonce, now)];
      }
      assert decided.0 == nonces;
    }

    /** Authenticates and authorizes one call; a state-changing one needs a nonce not used within the window. */
    method Check(token: string, scope: string, nonce: string, now: real, later: real) returns (ok: bool)
      requires Valid() && clock <= now <= later
      modifies this
      ensures Valid() && codes == old(codes) && issued == old(issued) && redeemed == old(redeemed) && revoked == old(revoked)
      ensures ok <==>
        && Live(old(sessions), old(revoked), token, now)
        && scope in Scopes(old(sessions)[token].role)
        && (scope in WRITE_SCOPES ==> nonce != "")
        && (nonce != "" ==> Unused(old(accepted), nonce, later, window))
      ensures ok ==> token in old(sessions) && old(sessions)[token].device !in old(revoked) && now <= old(sessions)[token].expires
      ensures ok && scope in {"tasks", "cancel", "decide"} ==> old(sessions)[token].role == Phone && nonce != ""
      ensures ok ==> forall u :: u in old(accepted) && u.nonce == nonce && nonce != "" ==> later - u.at > window
      ensures accepted == if ok && nonce != "" then old(accepted) + [Use(nonce, later)] else old(accepted)
      ensures secrets == old(secrets)
      ensures sessions == if Live(old(sessions), old(revoked), token, now) then old(sessions) else old(sessions) - {token}
      ensures clock ==
        if Live(old(sessions), old(revoked), token, now) && scope in Scopes(old(sessions)[token].role) && nonce != ""
        then later else now
    {
      ScopesMean(scope);
      UnusedMeans(accepted, nonce, later, window);
      hide Valid, Unused, Scopes;
      var session := LiveSession(token, now);
      if session.None? { return false; }
      if scope !in Scopes(session.value.role) { return false; }
      if scope in WRITE_SCOPES && nonce == "" { return false; }
      if nonce == "" { return true; }
      ok := AcceptNonce(nonce, later);
    }
  }
}
