/** The bounded message bus between agents.

    Messages are values; the size of a message in bytes is a function the bus is given. */
module Messages {
  import opened Graphs
  import opened Options

  datatype Message = Message(
    id: string,
    sender: string,
    recipient: string,
    taskId: string,
    payload: string,
    correlationId: string,
    ttlHops: int,
    hops: int,
    expiresAt: Option<real>)

  datatype Refusal =
    | UnknownSender | UnknownRecipient | NoTask | TooLarge | TtlExhausted | Expired | Duplicate | InboxFull
    | HopsExceeded | ForwardingLoop | UnknownAgent

  datatype Delivery = Accepted(message: Message) | Refused(why: Refusal)

  type Boxes = map<string, seq<Message>>

  type Pair = (string, string)

  type Route = (string, string, string)

  predicate IsExpired(m: Message, now: real) {
    m.expiresAt.Some? && now > m.expiresAt.value
  }

  /** A box nobody wrote to is empty. */
  function Box(boxes: Boxes, agent: string): seq<Message> {
    if agent in boxes then boxes[agent] else []
  }

  function PairOf(m: Message): Pair {
    (m.id, m.recipient)
  }

  // ---- conservation ---------------------------------------------------------------------------

  function SentTo(sent: seq<Message>, agent: string): seq<Message> {
    if sent == [] then []
    else
      var m := sent[|sent| - 1];
      SentTo(sent[..|sent| - 1], agent) + if m.recipient == agent then [m] else []
  }

  lemma SentAppend(sent: seq<Message>, m: Message, agent: string)
    ensures SentTo(sent + [m], agent) == SentTo(sent, agent) + if m.recipient == agent then [m] else []
  {
    assert (sent + [m])[..|sent|] == sent;
  }

  ghost predicate Conserved(sent: seq<Message>, popped: Boxes, inboxes: Boxes) {
    forall a :: SentTo(sent, a) == Box(popped, a) + Box(inboxes, a)
  }

  ghost predicate OncePerPair(sent: seq<Message>) {
    forall i, j :: 0 <= i < j < |sent| ==> PairOf(sent[i]) != PairOf(sent[j])
  }

  ghost predicate SeenExactly(seen: set<Pair>, sent: seq<Message>) {
    && (forall m :: m in sent ==> PairOf(m) in seen)
    && (forall p :: p in seen ==> exists m :: m in sent && PairOf(m) == p)
  }

  ghost predicate Addressed(sent: seq<Message>, registered: set<string>) {
    forall m :: m in sent ==> m.sender in registered && m.recipient in registered
  }

  ghost predicate Fits(inboxes: Boxes, maxInbox: int) {
    forall a :: |Box(inboxes, a)| <= if maxInbox < 0 then 0 else maxInbox
  }

  lemma DeliverKeeps(sent: seq<Message>, popped: Boxes, inboxes: Boxes, m: Message, maxInbox: int)
    requires Conserved(sent, popped, inboxes) && Fits(inboxes, maxInbox) && |Box(inboxes, m.recipient)| < maxInbox
    ensures Conserved(sent + [m], popped, inboxes[m.recipient := Box(inboxes, m.recipient) + [m]])
    ensures Fits(inboxes[m.recipient := Box(inboxes, m.recipient) + [m]], maxInbox)
  {
    var inboxes' := inboxes[m.recipient := Box(inboxes, m.recipient) + [m]];
    hide SentTo;
    forall a ensures SentTo(sent + [m], a) == Box(popped, a) + Box(inboxes', a) {
      SentAppend(sent, m, a);
      assert SentTo(sent, a) == Box(popped, a) + Box(inboxes, a);
    }
  }

  lemma PopKeeps(sent: seq<Message>, popped: Boxes, inboxes: Boxes, agent: string, maxInbox: int)
    requires Conserved(sent, popped, inboxes) && Box(inboxes, agent) != [] && Fits(inboxes, maxInbox)
    ensures Conserved(sent, popped[agent := Box(popped, agent) + [Box(inboxes, agent)[0]]],
                      inboxes[agent := Box(inboxes, agent)[1..]])
    ensures Fits(inboxes[agent := Box(inboxes, agent)[1..]], maxInbox)
  {
    hide SentTo;
    var box := Box(inboxes, agent);
    var popped' := popped[agent := Box(popped, agent) + [box[0]]];
    var inboxes' := inboxes[agent := box[1..]];
    forall a ensures SentTo(sent, a) == Box(popped', a) + Box(inboxes', a) {
      assert SentTo(sent, a) == Box(popped, a) + Box(inboxes, a);
      if a == agent { assert box == [box[0]] + box[1..]; }
    }
  }

  predicate WasSent(sent: seq<Message>, p: Pair) {
    exists m | m in sent :: PairOf(m) == p
  }

  lemma WasSentMeans(sent: seq<Message>, m: Message)
    ensures !WasSent(sent, PairOf(m)) <==> forall x :: x in sent ==> x.id != m.id || x.recipient != m.recipient
  {
    if WasSent(sent, PairOf(m)) {
      var x :| x in sent && PairOf(x) == PairOf(m);
    } else {
      forall x | x in sent ensures x.id != m.id || x.recipient != m.recipient { assert PairOf(x) != PairOf(m); }
    }
  }

  lemma SeenMeans(seen: set<Pair>, sent: seq<Message>, p: Pair)
    requires SeenExactly(seen, sent)
    ensures p in seen <==> WasSent(sent, p)
  {
  }

  lemma SeenMore(seen: set<Pair>, sent: seq<Message>, m: Message, registered: set<string>)
    requires SeenExactly(seen, sent) && OncePerPair(sent) && PairOf(m) !in seen
    requires Addressed(sent, registered) && m.sender in registered && m.recipient in registered
    ensures SeenExactly(seen + {PairOf(m)}, sent + [m]) && OncePerPair(sent + [m])
    ensures Addressed(sent + [m], registered)
  {
    var more := sent + [m];
    forall i, j | 0 <= i < j < |more| ensures PairOf(more[i]) != PairOf(more[j]) {
      assert sent[i] in sent;
    }
    forall p | p in seen + {PairOf(m)} ensures exists n :: n in more && PairOf(n) == p {
      if p in seen {
        var n :| n in sent && PairOf(n) == p;
        assert n in more;
      } else {
        assert m in more;
      }
    }
  }

  function RecipientsOf(sent: seq<Message>, id: string): seq<string> {
    if sent == [] then []
    else
      var m := sent[|sent| - 1];
      RecipientsOf(sent[..|sent| - 1], id) + if m.id == id then [m.recipient] else []
  }

  lemma {:induction false} RecipientsDistinct(sent: seq<Message>, id: string)
    requires OncePerPair(sent)
    ensures NoDuplicates(RecipientsOf(sent, id))
    ensures forall r :: r in RecipientsOf(sent, id) ==> exists m :: m in sent && PairOf(m) == (id, r)
  {
    if sent != [] {
      var n := |sent| - 1;
      var front, m := sent[..n], sent[n];
      RecipientsDistinct(front, id);
      forall r | r in RecipientsOf(sent, id) ensures exists x :: x in sent && PairOf(x) == (id, r) {
        if r in RecipientsOf(front, id) {
          var x :| x in front && PairOf(x) == (id, r);
          assert x in sent;
        } else {
          assert m in sent;
        }
      }
      forall r | r in RecipientsOf(front, id) ensures (id, r) != PairOf(m) {
        var x :| x in front && PairOf(x) == (id, r);
        var i :| 0 <= i < n && front[i] == x;
        assert PairOf(sent[i]) != PairOf(sent[n]);
      }
    }
  }

  /** However it is relayed, one message is enqueued at most once per registered agent: no loop runs forever. */
  lemma CopiesBounded(sent: seq<Message>, registered: set<string>, id: string)
    requires OncePerPair(sent) && Addressed(sent, registered)
    ensures |RecipientsOf(sent, id)| <= |registered|
  {
    RecipientsDistinct(sent, id);
    NoDuplicatesBound(RecipientsOf(sent, id), registered);
  }

  // ---- relays -----------------------------------------------------------------------------------

  predicate HopsLeft(m: Message, maxHops: int) {
    m.hops + 1 <= maxHops && m.ttlHops > 1
  }

  function Relayed(m: Message, recipient: string): Message {
    m.(recipient := recipient, hops := m.hops + 1, ttlHops := m.ttlHops - 1)
  }

  /** The message after a chain of relays. */
  function RelayedAlong(m: Message, path: seq<string>): Message {
    if path == [] then m else Relayed(RelayedAlong(m, path[..|path| - 1]), path[|path| - 1])
  }

  /** No relay of the chain is stopped by the hop limit or the time to live. */
  predicate ChainPasses(m: Message, path: seq<string>, maxHops: int) {
    path == [] ||
    var front := path[..|path| - 1];
    ChainPasses(m, front, maxHops) && HopsLeft(RelayedAlong(m, front), maxHops)
  }

  /** Along a chain of relays hops and time to live add up to the same, so a chain passes exactly when it is no
      longer than the hops left and than the time to live less one. */
  lemma {:induction false} ChainBound(m: Message, path: seq<string>, maxHops: int)
    ensures var r := RelayedAlong(m, path);
            r.hops + r.ttlHops == m.hops + m.ttlHops && r.hops == m.hops + |path|
    // everything else is passed on as it is
    ensures RelayedAlong(m, path) ==
      Message(m.id, m.sender, if path == [] then m.recipient else path[|path| - 1], m.taskId, m.payload, m.correlationId,
              m.ttlHops - |path|, m.hops + |path|, m.expiresAt)
    ensures ChainPasses(m, path, maxHops) <==> path == [] || (|path| <= maxHops - m.hops && |path| <= m.ttlHops - 1)
  {
    if path != [] { ChainBound(m, path[..|path| - 1], maxHops); }
  }

  function RouteOf(m: Message, recipient: string): Route {
    (if m.correlationId != "" then m.correlationId else m.id, m.sender, recipient)
  }

  /** Two relays are counted together exactly if they have sender, recipient and conversation in common; a message
      without a correlation id is its own conversation. */
  lemma SameRouteIff(a: Message, to: string, b: Message, to': string)
    ensures RouteOf(a, to) == RouteOf(b, to') <==>
      && a.sender == b.sender && to == to'
      && (a.correlationId != "" && b.correlationId != "" ==> a.correlationId == b.correlationId)
      && (a.correlationId != "" && b.correlationId == "" ==> a.correlationId == b.id)
      && (a.correlationId == "" && b.correlationId != "" ==> a.id == b.correlationId)
      && (a.correlationId == "" && b.correlationId == "" ==> a.id == b.id)
  {
  }

  /** A relay that got past the hop limit and the time to live, and whether it was delivered. */
  datatype Try = Try(relay: Message, delivered: bool)

  /** The relayed message is on the route it was counted for. */
  function RouteTaken(m: Message): Route {
    RouteOf(m, m.recipient)
  }

  predicate OnRoute(t: Try, route: Route) {
    RouteTaken(t.relay) == route
  }

  function Attempts(tries: seq<Try>, route: Route): nat {
    if tries == [] then 0
    else Attempts(tries[..|tries| - 1], route) + if OnRoute(tries[|tries| - 1], route) then 1 else 0
  }

  ghost function TriesOn(tries: seq<Try>, route: Route): set<int> {
    set i | 0 <= i < |tries| && RouteOf(tries[i].relay, tries[i].relay.recipient) == route
  }

  /** As many as there are tries on the route. */
  lemma {:induction false} AttemptsCount(tries: seq<Try>, route: Route)
    ensures Attempts(tries, route) == |TriesOn(tries, route)|
  {
    if tries != [] {
      var n := |tries| - 1;
      AttemptsCount(tries[..n], route);
      assert TriesOn(tries, route) == TriesOn(tries[..n], route) + if OnRoute(tries[n], route) then {n} else {};
    }
  }

  function Deliveries(tries: seq<Try>, route: Route): nat {
    if tries == [] then 0
    else
      var t := tries[|tries| - 1];
      Deliveries(tries[..|tries| - 1], route) + if t.delivered && OnRoute(t, route) then 1 else 0
  }

  function Count(forwarded: map<Route, nat>, route: Route): nat {
    if route in forwarded then forwarded[route] else 0
  }

  ghost predicate Counts(forwarded: map<Route, nat>, tries: seq<Try>) {
    forall r :: Count(forwarded, r) == Attempts(tries, r)
  }

  lemma CountsMore(forwarded: map<Route, nat>, tries: seq<Try>, t: Try)
    requires Counts(forwarded, tries)
    ensures var route := RouteTaken(t.relay);
            Counts(forwarded[route := Count(forwarded, route) + 1], tries + [t])
  {
    var route := RouteTaken(t.relay);
    assert (tries + [t])[..|tries|] == tries;
    assert Count(forwarded, route) == Attempts(tries, route);
    forall r ensures Count(forwarded[route := Count(forwarded, route) + 1], r) == Attempts(tries + [t], r) {
      assert Count(forwarded, r) == Attempts(tries, r);
    }
  }

  lemma CountsIgnoreDelivery(forwarded: map<Route, nat>, tries: seq<Try>, relay: Message)
    requires Counts(forwarded, tries + [Try(relay, false)])
    ensures Counts(forwarded, tries + [Try(relay, true)])
  {
    var before, after := tries + [Try(relay, false)], tries + [Try(relay, true)];
    assert before[..|tries|] == tries && after[..|tries|] == tries;
    forall r ensures Count(forwarded, r) == Attempts(after, r) {
      assert Count(forwarded, r) == Attempts(before, r);
    }
  }

  /** Nothing is delivered along a route that was tried as often as hops are allowed. */
  predicate Capped(tries: seq<Try>, maxHops: int) {
    tries == [] ||
    var front, t := tries[..|tries| - 1], tries[|tries| - 1];
    Capped(front, maxHops) && (t.delivered ==> Attempts(front, RouteTaken(t.relay)) < maxHops)
  }

  /** No id is delivered to the same recipient twice. */
  ghost predicate Apart(tries: seq<Try>) {
    forall i, j :: 0 <= i < j < |tries| && tries[i].delivered && tries[j].delivered ==>
      PairOf(tries[i].relay) != PairOf(tries[j].relay)
  }

  ghost predicate Relays(tries: seq<Try>, sent: seq<Message>, maxHops: int) {
    && Capped(tries, maxHops) && Apart(tries)
    && (forall t :: t in tries && t.delivered ==> t.relay in sent)
  }

  lemma RelaysSent(tries: seq<Try>, sent: seq<Message>, maxHops: int, m: Message)
    requires Relays(tries, sent, maxHops)
    ensures Relays(tries, sent + [m], maxHops)
  {
  }

  lemma RelaysMore(tries: seq<Try>, sent: seq<Message>, maxHops: int, t: Try)
    requires Relays(tries, sent, maxHops)
    requires t.delivered ==>
      && Attempts(tries, RouteTaken(t.relay)) < maxHops && t.relay in sent
      && forall i :: 0 <= i < |tries| && tries[i].delivered ==> PairOf(tries[i].relay) != PairOf(t.relay)
    ensures Relays(tries + [t], sent, maxHops)
  {
    hide Attempts, RouteTaken;
    assert (tries + [t])[..|tries|] == tries;
  }

  lemma DeliveredBefore(tries: seq<Try>, sent: seq<Message>, maxHops: int, p: Pair)
    requires Relays(tries, sent, maxHops) && !WasSent(sent, p)
    ensures forall i :: 0 <= i < |tries| && tries[i].delivered ==> PairOf(tries[i].relay) != p
  {
    forall i | 0 <= i < |tries| && tries[i].delivered ensures PairOf(tries[i].relay) != p {
      assert tries[i] in tries;
    }
  }

  // ---- loops ------------------------------------------------------------------------------------

  /** Every try on the route that the counter let through was delivered. */
  ghost predicate AllLetThroughDelivered(tries: seq<Try>, route: Route, maxHops: int) {
    forall i :: 0 <= i < |tries| && OnRoute(tries[i], route) && Attempts(tries[..i], route) < maxHops ==> tries[i].delivered
  }

  function Lesser(a: int, b: int): int {
    if a < b then a else b
  }

  lemma LetThroughMore(tries: seq<Try>, t: Try, route: Route, maxHops: int)
    ensures AllLetThroughDelivered(tries + [t], route, maxHops) <==>
      && AllLetThroughDelivered(tries, route, maxHops)
      && (OnRoute(t, route) && Attempts(tries, route) < maxHops ==> t.delivered)
  {
    hide Attempts, OnRoute;
    var more := tries + [t];
    assert more[..|tries|] == tries && more[|tries|] == t;
    forall i | 0 <= i < |tries| ensures more[..i] == tries[..i] && more[i] == tries[i] {}
  }

  lemma RelaysLess(tries: seq<Try>, t: Try, sent: seq<Message>, maxHops: int)
    requires Relays(tries + [t], sent, maxHops)
    ensures Relays(tries, sent, maxHops)
    ensures t.delivered ==> Attempts(tries, RouteTaken(t.relay)) < maxHops
    ensures t.delivered ==> forall i :: 0 <= i < |tries| && tries[i].delivered ==> PairOf(tries[i].relay) != PairOf(t.relay)
  {
    hide Attempts, RouteTaken;
    var more := tries + [t];
    assert more[..|tries|] == tries && more[|tries|] == t;
    forall i | 0 <= i < |tries| ensures more[i] == tries[i] {}
    assert forall u :: u in tries ==> u in more;
  }

  lemma {:induction false} DeliveriesBounded(tries: seq<Try>, sent: seq<Message>, route: Route, maxHops: nat)
    requires Relays(tries, sent, maxHops)
    ensures Deliveries(tries, route) <= Lesser(Attempts(tries, route), maxHops)
    ensures Deliveries(tries, route) == Lesser(Attempts(tries, route), maxHops)
       <==> AllLetThroughDelivered(tries, route, maxHops)
  {
    if tries != [] {
      var front, t := tries[..|tries| - 1], tries[|tries| - 1];
      assert tries == front + [t];
      RelaysLess(front, t, sent, maxHops);
      hide Relays, AllLetThroughDelivered;
      DeliveriesBounded(front, sent, route, maxHops);
      LetThroughMore(front, t, route, maxHops);
    }
  }

  /** A route tried as often as hops are allowed saw as many deliveries, of whatever messages share its key, exactly if
      each try the counter let through was delivered. */
  lemma CountedDeliveriesIff(tries: seq<Try>, sent: seq<Message>, route: Route, maxHops: nat)
    requires Relays(tries, sent, maxHops) && Attempts(tries, route) >= maxHops
    ensures Deliveries(tries, route) <= maxHops
    ensures Deliveries(tries, route) == maxHops <==> AllLetThroughDelivered(tries, route, maxHops)
  {
    DeliveriesBounded(tries, sent, route, maxHops);
  }

  predicate Carries(t: Try, route: Route, id: string) {
    t.delivered && OnRoute(t, route) && t.relay.id == id
  }

  /** How often one message has gone along a route. */
  function TimesAlong(tries: seq<Try>, route: Route, id: string): nat {
    if tries == [] then 0
    else TimesAlong(tries[..|tries| - 1], route, id) + if Carries(tries[|tries| - 1], route, id) then 1 else 0
  }

  /** No message goes along a route twice, correlated or not: the route fixes the recipient. */
  lemma {:induction false} MessageAlongOnce(tries: seq<Try>, sent: seq<Message>, route: Route, id: string, maxHops: int)
    requires Relays(tries, sent, maxHops)
    ensures TimesAlong(tries, route, id) <= 1
    ensures TimesAlong(tries, route, id) == 1 ==> exists i :: 0 <= i < |tries| && Carries(tries[i], route, id)
  {
    if tries != [] {
      var front, t := tries[..|tries| - 1], tries[|tries| - 1];
      assert tries == front + [t];
      RelaysLess(front, t, sent, maxHops);
      hide Relays, Attempts;
      MessageAlongOnce(front, sent, route, id, maxHops);
      if TimesAlong(front, route, id) == 1 {
        var i :| 0 <= i < |front| && Carries(front[i], route, id);
        assert tries[i] == front[i];
        assert t.delivered ==> PairOf(front[i].relay) != PairOf(t.relay);
      } else {
        assert Carries(t, route, id) ==> Carries(tries[|front|], route, id);
      }
    }
  }

  lemma {:induction false} CarriedOnce(tries: seq<Try>, route: Route, i: nat)
    requires i < |tries| && tries[i].delivered && OnRoute(tries[i], route)
    ensures TimesAlong(tries, route, tries[i].relay.id) >= 1
    decreases |tries|
  {
    hide OnRoute;
    var n := |tries| - 1;
    if i < n {
      assert tries[..n][i] == tries[i];
      CarriedOnce(tries[..n], route, i);
    }
  }

  lemma {:induction false} AlongIsDelivered(tries: seq<Try>, route: Route, id: string)
    ensures TimesAlong(tries, route, id) <= Deliveries(tries, route)
  {
    if tries != [] { AlongIsDelivered(tries[..|tries| - 1], route, id); }
  }

  lemma {:induction false} FirstTry(tries: seq<Try>, route: Route) returns (i: nat)
    requires Attempts(tries, route) >= 1
    ensures i < |tries| && OnRoute(tries[i], route) && Attempts(tries[..i], route) == 0
  {
    var n := |tries| - 1;
    if Attempts(tries[..n], route) >= 1 {
      i := FirstTry(tries[..n], route);
      assert tries[..n][..i] == tries[..i];
    } else {
      i := n;
    }
  }

  ghost predicate FirstDelivered(tries: seq<Try>, route: Route) {
    exists i :: 0 <= i < |tries| && OnRoute(tries[i], route) && tries[i].delivered && Attempts(tries[..i], route) == 0
  }

  /** On a route refused as a loop, some message has really gone around as often as hops are allowed exactly if one hop is
      allowed and the first try was delivered; with two or more, never. */
  lemma LoopIsRealIff(tries: seq<Try>, sent: seq<Message>, route: Route, maxHops: nat)
    requires Relays(tries, sent, maxHops) && maxHops >= 1 && Attempts(tries, route) >= maxHops
    ensures (exists id :: TimesAlong(tries, route, id) >= maxHops) <==> maxHops == 1 && FirstDelivered(tries, route)
  {
    hide Relays, TimesAlong, Attempts, OnRoute, Deliveries;
    forall id ensures TimesAlong(tries, route, id) <= 1 { MessageAlongOnce(tries, sent, route, id, maxHops); }
    if maxHops == 1 {
      if FirstDelivered(tries, route) {
        var i :| 0 <= i < |tries| && OnRoute(tries[i], route) && tries[i].delivered && Attempts(tries[..i], route) == 0;
        CarriedOnce(tries, route, i);
      }
      if id :| TimesAlong(tries, route, id) >= 1 {
        AlongIsDelivered(tries, route, id);
        DeliveriesBounded(tries, sent, route, 1);
        var i := FirstTry(tries, route);
        assert tries[i].delivered;
      }
    }
  }

  /** Without correlation ids a route is one id on the way to one recipient, which gets through once. */
  lemma {:induction false} UncorrelatedOnce(tries: seq<Try>, sent: seq<Message>, route: Route, maxHops: int)
    requires Relays(tries, sent, maxHops)
    requires forall i :: 0 <= i < |tries| && OnRoute(tries[i], route) ==> tries[i].relay.correlationId == ""
    ensures Deliveries(tries, route) <= 1
    ensures Deliveries(tries, route) == 1 ==> exists i :: 0 <= i < |tries| && tries[i].delivered && OnRoute(tries[i], route)
  {
    if tries != [] {
      var front, t := tries[..|tries| - 1], tries[|tries| - 1];
      assert tries == front + [t];
      assert forall i :: 0 <= i < |front| ==> front[i] == tries[i];
      RelaysLess(front, t, sent, maxHops);
      hide Relays, Attempts;
      UncorrelatedOnce(front, sent, route, maxHops);
      if Deliveries(front, route) == 1 {
        var i :| 0 <= i < |front| && front[i].delivered && OnRoute(front[i], route);
        assert tries[i] == front[i];
        if t.delivered { SameWay(front[i], t, route); }
      }
    }
  }

  lemma SameWay(a: Try, b: Try, route: Route)
    requires OnRoute(a, route) && a.relay.correlationId == "" && PairOf(a.relay) != PairOf(b.relay)
    ensures OnRoute(b, route) ==> b.relay.correlationId != ""
  {
  }

  // ---- receiving ----------------------------------------------------------------------------------

  /** How many messages at the head of the box are expired, each judged at its own clock reading. */
  function Stale(box: seq<Message>, readings: nat -> real, k: nat): (n: nat)
    ensures n <= |box|
    ensures n < |box| ==> !IsExpired(box[n], readings(k + n))
    ensures forall i :: 0 <= i < n ==> IsExpired(box[i], readings(k + i))
  {
    if box == [] || !IsExpired(box[0], readings(k)) then 0 else Stale(box[1..], readings, k + 1) + 1
  }

  /** How many messages one receive takes out: the stale ones and the one handed over, if there is one. */
  function Taken(box: seq<Message>, readings: nat -> real, k: nat): (n: nat)
    ensures n <= |box|
  {
    var n := Stale(box, readings, k);
    if n < |box| then n + 1 else n
  }

  function HandedOver(box: seq<Message>, readings: nat -> real, k: nat): Option<Message> {
    var n := Stale(box, readings, k);
    if n < |box| then Some(box[n]) else None
  }

  /** Nobody else's box is touched. */
  ghost predicate SameElsewhere(before: Boxes, now: Boxes, agent: string) {
    forall a :: a != agent ==> Box(now, a) == Box(before, a)
  }

  /** One agent received: `m` was handed over, everything taken out of its box is on record, and nobody else's box
      was touched. */
  ghost predicate Received(inboxes: Boxes, popped: Boxes, inboxes': Boxes, popped': Boxes, agent: string,
                           readings: nat -> real, k: nat, m: Option<Message>)
  {
    var box := Box(inboxes, agent);
    var n := Taken(box, readings, k);
    && m == HandedOver(box, readings, k)
    && Box(inboxes', agent) == box[n..]
    && Box(popped', agent) == Box(popped, agent) + box[..n]
    && SameElsewhere(inboxes, inboxes', agent) && SameElsewhere(popped, popped', agent)
  }

  /** The first message of the box moves to the record. */
  ghost predicate Popped(inboxes: Boxes, popped: Boxes, inboxes': Boxes, popped': Boxes, agent: string) {
    && Box(inboxes, agent) != []
    && Box(inboxes', agent) == Box(inboxes, agent)[1..]
    && Box(popped', agent) == Box(popped, agent) + [Box(inboxes, agent)[0]]
    && SameElsewhere(inboxes, inboxes', agent) && SameElsewhere(popped, popped', agent)
  }

  lemma PoppedShorter(inboxes: Boxes, popped: Boxes, inboxes': Boxes, popped': Boxes, agent: string)
    requires Popped(inboxes, popped, inboxes', popped', agent)
    ensures |Box(inboxes', agent)| < |Box(inboxes, agent)|
  {
  }

  lemma ReceivedNothing(inboxes: Boxes, popped: Boxes, agent: string, readings: nat -> real, k: nat)
    requires Box(inboxes, agent) == []
    ensures Received(inboxes, popped, inboxes, popped, agent, readings, k, None)
  {
    SameSelf(inboxes, agent);
    SameSelf(popped, agent);
    hide SameElsewhere, Box;
    var box := Box(inboxes, agent);
    assert Taken(box, readings, k) == 0 && HandedOver(box, readings, k) == None && box[..0] == [] && box[0..] == [];
  }

  lemma SameSelf(boxes: Boxes, agent: string)
    ensures SameElsewhere(boxes, boxes, agent)
  {
  }

  lemma ReceivedFirst(inboxes: Boxes, popped: Boxes, inboxes': Boxes, popped': Boxes, agent: string,
                      readings: nat -> real, k: nat)
    requires Popped(inboxes, popped, inboxes', popped', agent)
    requires !IsExpired(Box(inboxes, agent)[0], readings(k))
    ensures Received(inboxes, popped, inboxes', popped', agent, readings, k, Some(Box(inboxes, agent)[0]))
  {
    var box := Box(inboxes, agent);
    assert Taken(box, readings, k) == 1 && box[..1] == [box[0]];
  }

  lemma ReceivedLater(inboxes: Boxes, popped: Boxes, inboxes1: Boxes, popped1: Boxes, inboxes': Boxes, popped': Boxes,
                      agent: string, readings: nat -> real, k: nat, m: Option<Message>)
    requires Popped(inboxes, popped, inboxes1, popped1, agent)
    requires IsExpired(Box(inboxes, agent)[0], readings(k))
    requires Received(inboxes1, popped1, inboxes', popped', agent, readings, k + 1, m)
    ensures Received(inboxes, popped, inboxes', popped', agent, readings, k, m)
  {
    hide Box, Taken, HandedOver;
    var box, rest := Box(inboxes, agent), Box(inboxes1, agent);
    TakenStep(box, rest, readings, k);
    var n := Taken(rest, readings, k + 1);
    var p := Box(popped, agent);
    assert (p + [box[0]]) + rest[..n] == p + ([box[0]] + rest[..n]);
    SameTwice(inboxes, inboxes1, inboxes', agent);
    SameTwice(popped, popped1, popped', agent);
    hide SameElsewhere;
  }

  lemma SameTwice(a: Boxes, b: Boxes, c: Boxes, agent: string)
    requires SameElsewhere(a, b, agent) && SameElsewhere(b, c, agent)
    ensures SameElsewhere(a, c, agent)
  {
  }

  lemma TakenStep(box: seq<Message>, rest: seq<Message>, readings: nat -> real, k: nat)
    requires box != [] && rest == box[1..] && IsExpired(box[0], readings(k))
    ensures Taken(box, readings, k) == Taken(rest, readings, k + 1) + 1
    ensures HandedOver(box, readings, k) == HandedOver(rest, readings, k + 1)
    ensures var n := Taken(rest, readings, k + 1);
            box[n + 1..] == rest[n..] && box[..n + 1] == [box[0]] + rest[..n]
  {
  }

  /** What a receive comes to: the first `n` messages were expired, each at its own reading, and the next was not. */
  predicate ReceivesAfter(box: seq<Message>, box': seq<Message>, readings: nat -> real, k: nat, n: nat, m: Option<Message>) {
    && n <= |box|
    && (forall i :: 0 <= i < n ==> box[i].expiresAt.Some? && box[i].expiresAt.value < readings(k + i))
    && (if n == |box| then m == None && box' == []
        else
          && m == Some(box[n]) && box' == box[n + 1..]
          && (box[n].expiresAt.Some? ==> readings(k + n) <= box[n].expiresAt.value))
  }

  lemma ReceivedMeans(inboxes: Boxes, popped: Boxes, inboxes': Boxes, popped': Boxes, agent: string,
                      readings: nat -> real, k: nat, m: Option<Message>)
    requires Received(inboxes, popped, inboxes', popped', agent, readings, k, m)
    ensures exists n: nat :: ReceivesAfter(Box(inboxes, agent), Box(inboxes', agent), readings, k, n, m)
  {
    var n := Stale(Box(inboxes, agent), readings, k);
    assert ReceivesAfter(Box(inboxes, agent), Box(inboxes', agent), readings, k, n, m);
  }

  class MessageBus {
    const size: Message -> nat
    const maxPayload: int
    const maxInbox: int
    const maxHops: int
    var inboxes: Boxes
    var registered: set<string>
    var seenPairs: set<Pair>
    var forwarded: map<Route, nat>
    /** All accepted messages, what was taken out of each box, and the relays that got past hops and time to live. */
    ghost var sent: seq<Message>
    ghost var popped: Boxes
    ghost var tries: seq<Try>

    constructor (size: Message -> nat, maxPayload: int, maxInbox: int, maxHops: int)
      ensures Valid() && sent == [] && popped == map[] && tries == [] && registered == {}
      ensures this.size == size && this.maxPayload == maxPayload && this.maxInbox == maxInbox && this.maxHops == maxHops
    {
      this.size, this.maxPayload, this.maxInbox, this.maxHops := size, maxPayload, maxInbox, maxHops;
      inboxes, registered, seenPairs, forwarded := map[], {}, {}, map[];
      sent, popped, tries := [], map[], [];
    }

    ghost predicate Valid()
      reads this
    {
      && Conserved(sent, popped, inboxes)
      && Fits(inboxes, maxInbox)
      && SeenExactly(seenPairs, sent) && OncePerPair(sent)
      && Addressed(sent, registered)
      && Counts(forwarded, tries) && Relays(tries, sent, maxHops)
    }

    method Register(agent: string)
      requires Valid()
      modifies this`registered
      ensures Valid() && registered == old(registered) + {agent}
    {
      registered := registered + {agent};
    }

    /** Why a message is turned away, if it is: the first objection in this order. */
    function Objection(m: Message, now: real): Option<Refusal>
      reads this
    {
      if m.sender == "" || m.sender !in registered then Some(UnknownSender)
      else if m.recipient == "" || m.recipient !in registered then Some(UnknownRecipient)
      else if m.taskId == "" then Some(NoTask)
      else if size(m) > maxPayload then Some(TooLarge)
      else if m.ttlHops < 1 then Some(TtlExhausted)
      else if IsExpired(m, now) then Some(Expired)
      else None
    }

    /** Each refusal has its reason, and the first reason in this order is given. */
    lemma ObjectionMeans(m: Message, now: real)
      ensures Objection(m, now) == Some(UnknownSender) <==> !Knows(m.sender)
      ensures Objection(m, now) == Some(UnknownRecipient) <==> Knows(m.sender) && !Knows(m.recipient)
      ensures Objection(m, now) == Some(NoTask) <==> Knows(m.sender) && Knows(m.recipient) && m.taskId == ""
      ensures Objection(m, now) == Some(TooLarge) <==> Scoped(m) && size(m) > maxPayload
      ensures Objection(m, now) == Some(TtlExhausted) <==> Scoped(m) && size(m) <= maxPayload && m.ttlHops < 1
      ensures Objection(m, now) == Some(Expired) <==>
        Scoped(m) && size(m) <= maxPayload && m.ttlHops >= 1 && m.expiresAt.Some? && m.expiresAt.value < now
      ensures Objection(m, now) == None <==>
        Scoped(m) && size(m) <= maxPayload && m.ttlHops >= 1 && (m.expiresAt.Some? ==> now <= m.expiresAt.value)
    {
    }

    predicate Knows(agent: string)
      reads this
    {
      agent != "" && agent in registered
    }

    predicate Scoped(m: Message)
      reads this
    {
      Knows(m.sender) && Knows(m.recipient) && m.taskId != ""
    }

    method Validate(m: Message, now: real) returns (why: Option<Refusal>)
      ensures why == Objection(m, now)
    {
      if m.sender == "" || m.sender !in registered { return Some(UnknownSender); }
      if m.recipient == "" || m.recipient !in registered { return Some(UnknownRecipient); }
      if m.taskId == "" { return Some(NoTask); }
      if size(m) > maxPayload { return Some(TooLarge); }
      if m.ttlHops < 1 { return Some(TtlExhausted); }
      if IsExpired(m, now) { return Some(Expired); }
      why := None;
    }

    /** Enqueues a message that nobody objects to, that was never sent to this recipient before, and that fits. */
    method Send(m: Message, now: real) returns (d: Delivery)
      requires Valid()
      modifies this`inboxes, this`seenPairs, this`sent
      ensures Valid()
      ensures d ==
        if Objection(m, now).Some? then Refused(Objection(m, now).value)
        else if WasSent(old(sent), PairOf(m)) then Refused(Duplicate)
        else if |Box(old(inboxes), m.recipient)| >= maxInbox then Refused(InboxFull)
        else Accepted(m)
      ensures d.Accepted? <==>
        && Scoped(m) && size(m) <= maxPayload && m.ttlHops >= 1 && (m.expiresAt.Some? ==> now <= m.expiresAt.value)
        && (forall x :: x in old(sent) ==> x.id != m.id || x.recipient != m.recipient)
        && |Box(old(inboxes), m.recipient)| < maxInbox
      ensures sent == if d.Accepted? then old(sent) + [m] else old(sent)
      ensures inboxes ==
        if d.Accepted? then old(inboxes)[m.recipient := Box(old(inboxes), m.recipient) + [m]] else old(inboxes)
    {
      ObjectionMeans(m, now);
      WasSentMeans(sent, m);
      var why := Validate(m, now);
      if why.Some? { return Refused(why.value); }
      SeenMeans(seenPairs, sent, PairOf(m));
      hide Valid, WasSent, IsExpired, Box, Scoped;
      if PairOf(m) in seenPairs { return Refused(Duplicate); }
      if |Box(inboxes, m.recipient)| >= maxInbox { return Refused(InboxFull); }
      Enqueue(m);
      d := Accepted(m);
    }

    method Enqueue(m: Message)
      requires Valid() && PairOf(m) !in seenPairs && |Box(inboxes, m.recipient)| < maxInbox
      requires m.sender in registered && m.recipient in registered
      modifies this`inboxes, this`seenPairs, this`sent
      ensures Valid() && sent == old(sent) + [m]
      ensures inboxes == old(inboxes)[m.recipient := Box(old(inboxes), m.recipient) + [m]]
    {
      hide Conserved, OncePerPair, Counts, SeenExactly, Addressed, Fits, Relays;
      RelaysSent(tries, sent, maxHops, m);
      DeliverKeeps(sent, popped, inboxes, m, maxInbox);
      SeenMore(seenPairs, sent, m, registered);
      seenPairs := seenPairs + {PairOf(m)};
      inboxes := inboxes[m.recipient := Box(inboxes, m.recipient) + [m]];
      sent := sent + [m];
    }

    /** Takes the oldest message that is not expired; the expired ones before it are dropped. */
    method Receive(agent: string, readings: nat -> real, k: nat) returns (known: bool, m: Option<Message>)
      requires Valid()
      modifies this`inboxes, this`popped
      ensures Valid()
      ensures known == (agent in registered)
      ensures !known ==> m == None && inboxes == old(inboxes) && popped == old(popped)
      ensures known ==> Received(old(inboxes), old(popped), inboxes, popped, agent, readings, k, m)
      ensures known ==>
        exists n: nat :: ReceivesAfter(Box(old(inboxes), agent), Box(inboxes, agent), readings, k, n, m)
      decreases |Box(inboxes, agent)|
    {
      hide *;
      if agent !in registered { return false, None; }
      if Box(inboxes, agent) == [] {
        ReceivedNothing(inboxes, popped, agent, readings, k);
        ReceivedMeans(inboxes, popped, inboxes, popped, agent, readings, k, None);
        return true, None;
      }
      var first := PopLeft(agent);
      ghost var inboxes1, popped1 := inboxes, popped;
      if IsExpired(first, readings(k)) {
        PoppedShorter(old(inboxes), old(popped), inboxes, popped, agent);
        known, m := Receive(agent, readings, k + 1);
        ReceivedLater(old(inboxes), old(popped), inboxes1, popped1, inboxes, popped, agent, readings, k, m);
      } else {
        ReceivedFirst(old(inboxes), old(popped), inboxes, popped, agent, readings, k);
        known, m := true, Some(first);
      }
      if known { ReceivedMeans(old(inboxes), old(popped), inboxes, popped, agent, readings, k, m); }
    }

    method PopLeft(agent: string) returns (first: Message)
      requires Valid() && Box(inboxes, agent) != []
      modifies this`inboxes, this`popped
      ensures Valid() && first == Box(old(inboxes), agent)[0]
      ensures Popped(old(inboxes), old(popped), inboxes, popped, agent)
    {
      var inbox := Box(inboxes, agent);
      PopKeeps(sent, popped, inboxes, agent, maxInbox);
      hide Conserved, OncePerPair, Counts, SeenExactly, Addressed, Fits;
      first := inbox[0];
      popped := popped[agent := Box(popped, agent) + [first]];
      inboxes := inboxes[agent := inbox[1..]];
    }

    /** Relays a message.  It is refused as a loop exactly when the route was tried as often as hops are allowed,
        whether or not those tries were delivered. */
    method Forward(m: Message, recipient: string, now: real) returns (d: Delivery)
      requires Valid()
      modifies this`inboxes, this`seenPairs, this`sent, this`forwarded, this`tries
      ensures Valid()
      ensures d == Refused(HopsExceeded) <==> m.hops + 1 > maxHops
      ensures m.hops + 1 <= maxHops && m.ttlHops <= 1 ==> d == Refused(TtlExhausted)
      ensures tries == if HopsLeft(m, maxHops) then old(tries) + [Try(Relayed(m, recipient), d.Accepted?)] else old(tries)
      ensures !HopsLeft(m, maxHops) ==> d.Refused?
      ensures HopsLeft(m, maxHops) ==>
        (d == Refused(ForwardingLoop) <==> |TriesOn(old(tries), RouteOf(m, recipient))| >= maxHops)
      ensures d.Accepted? ==> d.message == Relayed(m, recipient)
      ensures sent == if d.Accepted? then old(sent) + [Relayed(m, recipient)] else old(sent)
      ensures HopsLeft(m, maxHops) && d != Refused(ForwardingLoop) ==>
        (d.Accepted? <==>
          && Objection(Relayed(m, recipient), now).None?
          && !WasSent(old(sent), (m.id, recipient))
          && |Box(old(inboxes), recipient)| < maxInbox)
    {
      if m.hops + 1 > maxHops { return Refused(HopsExceeded); }
      if m.ttlHops <= 1 { return Refused(TtlExhausted); }
      assert Relays(tries, sent, maxHops);
      hide Valid, Objection, WasSent, RouteOf, Box, Attempts, Relays;
      var relay := Relayed(m, recipient);
      SameRoute(m, recipient);
      AttemptsCount(tries, RouteOf(m, recipient));
      var count := CountRelay(relay);
      if count > maxHops { return Refused(ForwardingLoop); }
      d := SendCounted(relay, now, old(tries));
    }

    /** Sends a relay that has been counted. */
    method SendCounted(relay: Message, now: real, ghost tries0: seq<Try>) returns (d: Delivery)
      requires Valid() && tries == tries0 + [Try(relay, false)]
      requires Relays(tries0, sent, maxHops) && Attempts(tries0, RouteTaken(relay)) < maxHops
      modifies this`inboxes, this`seenPairs, this`sent, this`tries
      ensures Valid() && tries == tries0 + [Try(relay, d.Accepted?)]
      ensures d.Accepted? ==> d.message == relay
      ensures d != Refused(ForwardingLoop) && d != Refused(HopsExceeded)
      ensures sent == if d.Accepted? then old(sent) + [relay] else old(sent)
      ensures d.Accepted? <==>
        && Objection(relay, now).None? && !WasSent(old(sent), PairOf(relay))
        && |Box(old(inboxes), relay.recipient)| < maxInbox
    {
      hide Valid, WasSent, RouteOf, Box, Attempts, Relays;
      d := Send(relay, now);
      if d.Accepted? { MarkDelivered(relay, tries0, old(sent)); }
    }

    lemma SameRoute(m: Message, recipient: string)
      ensures RouteTaken(Relayed(m, recipient)) == RouteOf(m, recipient)
      ensures PairOf(Relayed(m, recipient)) == (m.id, recipient)
    {
    }

    method CountRelay(relay: Message) returns (count: nat)
      requires Valid()
      modifies this`forwarded, this`tries
      ensures Valid() && tries == old(tries) + [Try(relay, false)]
      ensures count == Attempts(old(tries), RouteTaken(relay)) + 1
    {
      var route := RouteTaken(relay);
      assert Count(forwarded, route) == Attempts(tries, route);
      CountsMore(forwarded, tries, Try(relay, false));
      RelaysMore(tries, sent, maxHops, Try(relay, false));
      hide Conserved, OncePerPair, Counts, SeenExactly, Attempts, Addressed, Fits, Relays;
      forwarded := forwarded[route := Count(forwarded, route) + 1];
      tries := tries + [Try(relay, false)];
      count := forwarded[route];
    }

    /** The try just counted has been delivered. */
    ghost method MarkDelivered(relay: Message, tries0: seq<Try>, sent0: seq<Message>)
      requires Valid() && tries == tries0 + [Try(relay, false)] && sent == sent0 + [relay]
      requires Relays(tries0, sent0, maxHops) && Attempts(tries0, RouteTaken(relay)) < maxHops
      modifies this`tries
      ensures Valid() && tries == tries0 + [Try(relay, true)]
    {
      RelaysDelivered(tries0, sent0, relay, maxHops);
      CountsIgnoreDelivery(forwarded, tries0, relay);
      hide Conserved, Counts, SeenExactly, Attempts, Addressed, Fits, Relays;
      tries := tries0 + [Try(relay, true)];
    }
  }

  lemma RelaysDelivered(tries: seq<Try>, sent: seq<Message>, relay: Message, maxHops: int)
    requires Relays(tries, sent, maxHops) && OncePerPair(sent + [relay])
    requires Attempts(tries, RouteTaken(relay)) < maxHops
    ensures Relays(tries + [Try(relay, true)], sent + [relay], maxHops)
  {
    SeenOnce(sent, relay);
    DeliveredBefore(tries, sent, maxHops, PairOf(relay));
    RelaysSent(tries, sent, maxHops, relay);
    RelaysMore(tries, sent + [relay], maxHops, Try(relay, true));
  }

  lemma SeenOnce(sent0: seq<Message>, relay: Message)
    requires OncePerPair(sent0 + [relay])
    ensures !WasSent(sent0, PairOf(relay))
  {
    var sent := sent0 + [relay];
    forall m | m in sent0 ensures PairOf(m) != PairOf(relay) {
      var i :| 0 <= i < |sent0| && sent0[i] == m;
      assert PairOf(sent[i]) != PairOf(sent[|sent0|]);
    }
  }

  /** A route tried as often as hops are allowed and never delivered, because the inbox takes nothing: the next relay is
      refused as a loop all the same. */
  method RefusedWithoutDelivery(maxHops: nat) returns (bus: MessageBus, d: Delivery)
    requires maxHops >= 1
    ensures fresh(bus) && bus.Valid() && bus.maxHops == maxHops
    ensures d == Refused(ForwardingLoop) && bus.sent == [] && Deliveries(bus.tries, ("m", "a", "b")) == 0
  {
    hide MessageBus.Valid, MessageBus.Objection, WasSent, TriesOn;
    bus := new MessageBus(_ => 0, 0, 0, maxHops);
    bus.Register("a");
    bus.Register("b");
    var m := Message("m", "a", "a", "t", "", "", 2, 0, None);
    for k := 0 to maxHops
      invariant fresh(bus) && bus.Valid() && bus.maxHops == maxHops && bus.maxInbox == 0
      invariant bus.sent == [] && Attempts(bus.tries, ("m", "a", "b")) == k
      invariant Deliveries(bus.tries, ("m", "a", "b")) == 0
    {
      ghost var tries := bus.tries;
      AttemptsCount(tries, ("m", "a", "b"));
      d := bus.Forward(m, "b", 0.0);
      assert bus.tries[..|bus.tries| - 1] == tries;
    }
    ghost var tries := bus.tries;
    AttemptsCount(tries, ("m", "a", "b"));
    d := bus.Forward(m, "b", 0.0);
    assert bus.tries[..|bus.tries| - 1] == tries;
  }
}
