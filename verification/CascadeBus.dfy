/** The publish/subscribe bus of core/cascade_bus.py: immediate delivery, nested delivery batches, glob topics and
    counted subscriber failures. */
module CascadeBus {
  import opened Common

  const ERROR_LIMIT := 64

  datatype Event = Event(kind: string, tick: int)
  datatype Delivery = Delivery(handler: nat, event: Event)
  datatype ErrorRow = ErrorRow(kind: string, topic: string, tick: int)

  /** A topic with its handlers, in subscription order. */
  datatype Topic = Topic(name: string, handlers: seq<nat>)

  /** Whether a handler raises, given everything delivered before: handlers may keep, and share, state. */
  type Behaviour = (seq<Delivery>, Delivery) -> bool

  /** Bus fields, plus history variables: every delivery made, and the events delivered since the last reset. */
  datatype Bus = Bus(topics: seq<Topic>, history: seq<Event>, failed: nat, errors: seq<ErrorRow>, depth: nat,
                     pending: seq<Event>, log: seq<Delivery>, delivered: seq<Event>)

  const EMPTY_BUS := Bus([], [], 0, [], 0, [], [], [])

  // ---- Topics ----

  /** `_topic_matches`. */
  predicate TopicMatches(pattern: string, kind: string) {
    pattern == kind ||
    (|pattern| >= 2 && pattern[|pattern| - 2..] == ".*" && pattern[..|pattern| - 2] + "." <= kind)
  }

  predicate Matches(topic: string, kind: string) {
    topic == "*" || topic == kind || TopicMatches(topic, kind)
  }

  /** A glob topic matches exactly the kinds below its prefix, and its own literal spelling. */
  lemma GlobMatchesBelowPrefix(prefix: string, kind: string)
    ensures TopicMatches(prefix + ".*", kind) <==>
      kind == prefix + ".*" || exists rest: string :: kind == prefix + "." + rest
  {
    var pattern := prefix + ".*";
    assert pattern[|pattern| - 2..] == ".*" && pattern[..|pattern| - 2] == prefix;
    if prefix + "." <= kind {
      assert kind == prefix + "." + kind[|prefix| + 1..];
    }
  }

  /** Which topics an event reaches: the catch-all, its own kind, and every glob above it. */
  lemma MatchesExactly(topic: string, kind: string)
    ensures Matches(topic, kind) <==>
      || topic == "*" || topic == kind
      || exists prefix: string, rest: string :: topic == prefix + ".*" && kind == prefix + "." + rest
  {
    if prefix: string, rest: string :| topic == prefix + ".*" && kind == prefix + "." + rest {
      GlobMatchesBelowPrefix(prefix, kind);
    }
    if Matches(topic, kind) && topic != "*" && topic != kind {
      var prefix := topic[..|topic| - 2];
      assert topic == prefix + ".*";
      GlobMatchesBelowPrefix(prefix, kind);
    }
  }

  // ---- Delivery ----

  /** The handlers one event goes to, topic by topic, each with the topic it was found under. */
  function Targets(topics: seq<Topic>, kind: string): seq<(string, nat)> {
    if topics == [] then []
    else
      var n := |topics| - 1;
      Targets(topics[..n], kind) +
      (if Matches(topics[n].name, kind) then Labelled(topics[n].name, topics[n].handlers) else [])
  }

  function Labelled(name: string, handlers: seq<nat>): seq<(string, nat)> {
    seq(|handlers|, i requires 0 <= i < |handlers| => (name, handlers[i]))
  }

  /** Call one handler; the flag says whether it succeeded. */
  function Call(b: Bus, raises: Behaviour, target: (string, nat), e: Event): (Bus, bool) {
    var d := Delivery(target.1, e);
    var called := b.(log := b.log + [d]);
    if raises(b.log, d) then
      (called.(failed := b.failed + 1,
               errors := if |b.errors| < ERROR_LIMIT then b.errors + [ErrorRow(e.kind, target.0,
                   e.tick)] else b.errors),
       false)
    else (called, true)
  }

  function CallAll(b: Bus, raises: Behaviour, targets: seq<(string, nat)>, e: Event): (Bus, nat) {
    if targets == [] then (b, 0)
    else
      var n := |targets| - 1;
      var (before, count) := CallAll(b, raises, targets[..n], e);
      var (after, ok) := Call(before, raises, targets[n], e);
      (after, if ok then count + 1 else count)
  }

  /** `_deliver`. */
  function Deliver(b: Bus, raises: Behaviour, e: Event): (Bus, nat) {
    var (after, count) := CallAll(b, raises, Targets(b.topics, e.kind), e);
    (after.(delivered := b.delivered + [e]), count)
  }

  function DeliverAll(b: Bus, raises: Behaviour, events: seq<Event>): (Bus, nat) {
    if events == [] then (b, 0)
    else
      var n := |events| - 1;
      var (before, count) := DeliverAll(b, raises, events[..n]);
      var (after, more) := Deliver(before, raises, events[n]);
      (after, count + more)
  }

  // ---- Operations ----

  datatype Op = Subscribe(topic: string, handler: nat) | Publish(event: Event) | BeginBatch | EndBatch | Reset

  /** `_subscribers[topic].append(fn)`: a new topic goes last, a known one keeps its place. */
  function Subscribed(topics: seq<Topic>, topic: string, handler: nat): seq<Topic> {
    if topics == [] then [Topic(topic, [handler])]
    else if topics[0].name == topic then [topics[0].(handlers := topics[0].handlers + [handler])] + topics[1..]
    else [topics[0]] + Subscribed(topics[1..], topic, handler)
  }

  predicate DistinctTopics(topics: seq<Topic>) {
    forall i, j :: 0 <= i < j < |topics| ==> topics[i].name != topics[j].name
  }

  lemma {:induction false} SubscribedInPlace(topics: seq<Topic>, topic: string, handler: nat)
    requires DistinctTopics(topics)
    ensures var after := Subscribed(topics, topic, handler);
      && DistinctTopics(after)
      && ((forall i :: 0 <= i < |topics| ==> topics[i].name != topic) ==> after == topics + [Topic(topic, [handler])])
      && forall i :: 0 <= i < |topics| && topics[i].name == topic ==>
           after == topics[i := Topic(topic, topics[i].handlers + [handler])]
  {
    if topics != [] && topics[0].name != topic {
      SubscribedInPlace(topics[1..], topic, handler);
      assert topics == [topics[0]] + topics[1..];
      forall i | 0 <= i < |topics| && topics[i].name == topic
        ensures Subscribed(topics, topic, handler) == topics[i := Topic(topic, topics[i].handlers + [handler])]
      {
        assert topics[1..][i - 1] == topics[i];
      }
    }
  }

  /** Subscribing keeps topic names distinct in every run, as a dictionary's keys are. */
  lemma {:induction false} ReachableTopicsDistinct(raises: Behaviour, ops: seq<Op>)
    ensures DistinctTopics(Run(raises, ops).topics)
    decreases |ops|
  {
    if ops != [] {
      var before, op := Run(raises, ops[..|ops| - 1]), ops[|ops| - 1];
      ReachableTopicsDistinct(raises, ops[..|ops| - 1]);
      match op
      case Subscribe(topic, handler) => SubscribedInPlace(before.topics, topic, handler);
      case Publish(e) => DeliveryAccounts(before.(history := before.history + [e]), raises, e);
      case EndBatch => FlushAccounts(before.(depth := 0, pending := []), raises, before.pending);
      case _ =>
    }
  }

  function Apply(b: Bus, raises: Behaviour, op: Op): (Bus, nat) {
    match op
    case Subscribe(topic, handler) => (b.(topics := Subscribed(b.topics, topic, handler)), 0)
    case Publish(e) =>
      var noted := b.(history := b.history + [e]);
      if b.depth > 0 then (noted.(pending := b.pending + [e]), 0) else Deliver(noted, raises, e)
    case BeginBatch => (b.(depth := b.depth + 1), 0)
    case EndBatch =>
      if b.depth == 0 then (b, 0)
      else if b.depth > 1 then (b.(depth := b.depth - 1), 0)
      else DeliverAll(b.(depth := 0, pending := []), raises, b.pending)
    case Reset => (b.(topics := [], history := [], failed := 0, errors := [], delivered := []), 0)
  }

  /** The same operation on a bus that has no batches. */
  function ApplyImmediately(b: Bus, raises: Behaviour, op: Op): Bus {
    match op
    case BeginBatch => b
    case EndBatch => b
    case Publish(e) => Deliver(b.(history := b.history + [e]), raises, e).0
    case _ => Apply(b, raises, op).0
  }

  function Run(raises: Behaviour, ops: seq<Op>): Bus {
    if ops == [] then EMPTY_BUS else Apply(Run(raises, ops[..|ops| - 1]), raises, ops[|ops| - 1]).0
  }

  function RunImmediately(raises: Behaviour, ops: seq<Op>): Bus {
    if ops == [] then EMPTY_BUS
    else ApplyImmediately(RunImmediately(raises, ops[..|ops| - 1]), raises, ops[|ops| - 1])
  }

  /** The bus as it would be if its pending events were delivered now. */
  function Flushed(b: Bus, raises: Behaviour): Bus {
    DeliverAll(b.(depth := 0, pending := []), raises, b.pending).0
  }

  // ---- Delivery facts ----

  /** Every subscription, topic by topic, in the order of subscribing. */
  function Subscriptions(topics: seq<Topic>): seq<(string, nat)> {
    if topics == [] then []
    else
      var n := |topics| - 1;
      Subscriptions(topics[..n]) + Labelled(topics[n].name, topics[n].handlers)
  }

  /** `picked` are the subscriptions at `positions`: all those whose topic the event reaches, in order. */
  ghost predicate PickedAt(all: seq<(string, nat)>, picked: seq<(string, nat)>, kind: string, positions: seq<nat>) {
    && |positions| == |picked|
    && (forall i, j :: 0 <= i < j < |positions| ==> positions[i] < positions[j])
    && (forall i :: 0 <= i < |positions| ==> positions[i] < |all| && picked[i] == all[positions[i]])
    && forall p: nat :: p in positions <==> p < |all| && Matches(all[p].0, kind)
  }

  /** An event goes to each subscription it reaches exactly once, in order, and to no other. */
  lemma {:induction false} TargetsAreTheMatchingSubscriptions(topics: seq<Topic>, kind: string)
    returns (positions: seq<nat>)
    ensures PickedAt(Subscriptions(topics), Targets(topics, kind), kind, positions)
  {
    if topics == [] {
      positions := [];
    } else {
      var n := |topics| - 1;
      var before := TargetsAreTheMatchingSubscriptions(topics[..n], kind);
      var all, more := Subscriptions(topics[..n]), Labelled(topics[n].name, topics[n].handlers);
      if Matches(topics[n].name, kind) {
        positions := before + seq(|more|, i requires 0 <= i < |more| => |all| + i);
        MorePicked(all, Targets(topics[..n], kind), more, kind, before, positions);
      } else {
        positions := before;
        NonePicked(all, Targets(topics[..n], kind), more, kind, before);
      }
    }
  }

  lemma NonePicked(all: seq<(string, nat)>, picked: seq<(string, nat)>, more: seq<(string, nat)>, kind: string,
                   positions: seq<nat>)
    requires PickedAt(all, picked, kind, positions) && forall t :: t in more ==> !Matches(t.0, kind)
    ensures PickedAt(all + more, picked + [], kind, positions)
  {
    forall p: nat ensures p in positions <==> p < |all + more| && Matches((all + more)[p].0, kind) {
      assert |all| <= p < |all + more| ==> more[p - |all|] in more;
    }
  }

  lemma MorePicked(all: seq<(string, nat)>, picked: seq<(string, nat)>, more: seq<(string, nat)>, kind: string,
                   before: seq<nat>, positions: seq<nat>)
    requires PickedAt(all, picked, kind, before) && forall t :: t in more ==> Matches(t.0, kind)
    requires positions == before + seq(|more|, i requires 0 <= i < |more| => |all| + i)
    ensures PickedAt(all + more, picked + more, kind, positions)
  {
    forall p: nat ensures p in positions <==> p < |all + more| && Matches((all + more)[p].0, kind) {
      if p in before {
      } else if |all| <= p < |all + more| {
        assert positions[|before| + (p - |all|)] == p && more[p - |all|] in more;
      }
    }
    forall i, j | 0 <= i < j < |positions| ensures positions[i] < positions[j] {
      assert i < |before| ==> positions[i] in before;
    }
  }

  function Calls(targets: seq<(string, nat)>, e: Event): seq<Delivery> {
    seq(|targets|, i requires 0 <= i < |targets| => Delivery(targets[i].1, e))
  }

  /** The handlers that raise, as rows of the error trail; each may depend on every call made before its own. */
  function FailureRows(raises: Behaviour, log: seq<Delivery>, targets: seq<(string, nat)>, e: Event): seq<ErrorRow> {
    if targets == [] then []
    else
      var n := |targets| - 1;
      FailureRows(raises, log, targets[..n], e) +
      if raises(log + Calls(targets[..n], e), Delivery(targets[n].1, e))
      then [ErrorRow(e.kind, targets[n].0, e.tick)] else []
  }

  function First<T>(s: seq<T>, n: nat): seq<T> {
    if |s| <= n then s else s[..n]
  }

  lemma {:induction false} CallsAreExact(b: Bus, raises: Behaviour, targets: seq<(string, nat)>, e: Event)
    requires |b.errors| <= 64
    ensures var (after, count) := CallAll(b, raises, targets, e);
      var rows := FailureRows(raises, b.log, targets, e);
      && after.log == b.log + Calls(targets, e)
      && after.failed == b.failed + |rows| && count == |targets| - |rows|
      && after.errors == First(b.errors + rows, 64)
    decreases |targets|
  {
    if targets != [] {
      CallsAreExact(b, raises, targets[..|targets| - 1], e);
    }
  }

  /** One delivery calls the handlers of the matching subscriptions in order, counts those that raise, and appends them
      to the error trail, of which only the first sixty-four rows are kept. */
  lemma DeliveryIsExact(b: Bus, raises: Behaviour, e: Event)
    requires |b.errors| <= 64
    ensures var (after, count) := Deliver(b, raises, e);
      var targets := Targets(b.topics, e.kind);
      var rows := FailureRows(raises, b.log, targets, e);
      && after.log == b.log + Calls(targets, e)
      && after.failed == b.failed + |rows| && count == |targets| - |rows|
      && after.errors == First(b.errors + rows, 64)
  {
    CallsAreExact(b, raises, Targets(b.topics, e.kind), e);
  }

  lemma {:induction false} FlushKeepsTrailShort(b: Bus, raises: Behaviour, events: seq<Event>)
    requires |b.errors| <= 64
    ensures |DeliverAll(b, raises, events).0.errors| <= 64
    decreases |events|
  {
    if events != [] {
      var n := |events| - 1;
      FlushKeepsTrailShort(b, raises, events[..n]);
      DeliveryIsExact(DeliverAll(b, raises, events[..n]).0, raises, events[n]);
    }
  }

  /** The error trail never holds more than sixty-four rows. */
  lemma {:induction false} ErrorTrailIsBounded(raises: Behaviour, ops: seq<Op>)
    ensures |Run(raises, ops).errors| <= 64
    decreases |ops|
  {
    if ops != [] {
      var before, op := Run(raises, ops[..|ops| - 1]), ops[|ops| - 1];
      ErrorTrailIsBounded(raises, ops[..|ops| - 1]);
      match op
      case Publish(e) => DeliveryIsExact(before.(history := before.history + [e]), raises, e);
      case EndBatch => FlushKeepsTrailShort(before.(depth := 0, pending := []), raises, before.pending);
      case _ =>
    }
  }

  lemma {:induction false} CallAllFrame(b: Bus, raises: Behaviour, targets: seq<(string, nat)>, e: Event)
    ensures var (after, count) := CallAll(b, raises, targets, e);
      && after == b.(log := after.log, failed := after.failed, errors := after.errors)
      && |after.log| == |b.log| + |targets|
      && count + after.failed == |targets| + b.failed
    ensures forall h: seq<Event>, d: seq<Event> ::
      CallAll(b.(history := h, delivered := d), raises, targets, e).0 ==
      CallAll(b, raises, targets, e).0.(history := h, delivered := d)
    decreases |targets|
  {
    if targets != [] {
      CallAllFrame(b, raises, targets[..|targets| - 1], e);
    }
  }

  /** Every matching handler is called once, and successes plus failures account for each of them. */
  lemma DeliveryAccounts(b: Bus, raises: Behaviour, e: Event)
    ensures var (after, count) := Deliver(b, raises, e);
      && count + after.failed == b.failed + |Targets(b.topics, e.kind)|
      && |after.log| == |b.log| + |Targets(b.topics, e.kind)|
      && after == b.(log := after.log, failed := after.failed, errors := after.errors, delivered := b.delivered + [e])
    ensures forall h: seq<Event> ::
      Deliver(b.(history := h), raises, e).0 == Deliver(b, raises, e).0.(history := h)
  {
    CallAllFrame(b, raises, Targets(b.topics, e.kind), e);
    forall h: seq<Event>
      ensures Deliver(b.(history := h), raises, e).0 == Deliver(b, raises, e).0.(history := h)
    {
      assert b.(history := h) == b.(history := h, delivered := b.delivered);
    }
  }

  function Pairs(topics: seq<Topic>, events: seq<Event>): nat {
    if events == [] then 0
    else Pairs(topics, events[..|events| - 1]) + |Targets(topics, events[|events| - 1].kind)|
  }

  /** Flushing a batch returns its successes; with the failures they make up all (event, handler) pairs. */
  lemma {:induction false} FlushAccounts(b: Bus, raises: Behaviour, events: seq<Event>)
    ensures var (after, count) := DeliverAll(b, raises, events);
      && count + after.failed == b.failed + Pairs(b.topics, events)
      && |after.log| == |b.log| + Pairs(b.topics, events)
      && after == b.(log := after.log, failed := after.failed, errors := after.errors,
          delivered := b.delivered + events)
    decreases |events|
  {
    if events != [] {
      var n := |events| - 1;
      FlushAccounts(b, raises, events[..n]);
      DeliveryAccounts(DeliverAll(b, raises, events[..n]).0, raises, events[n]);
      assert events[..n] + [events[n]] == events;
    } else {
      assert b.delivered + [] == b.delivered;
    }
  }

  lemma {:induction false} FlushIgnoresHistory(b: Bus, raises: Behaviour, events: seq<Event>, h: seq<Event>)
    ensures DeliverAll(b.(history := h), raises, events).0 == DeliverAll(b, raises, events).0.(history := h)
    decreases |events|
  {
    if events != [] {
      var n := |events| - 1;
      FlushIgnoresHistory(b, raises, events[..n], h);
      DeliveryAccounts(DeliverAll(b, raises, events[..n]).0, raises, events[n]);
    }
  }

  // ---- Batches are transparent ----

  /** A reset while events are pending, which the bus does not clear, is outside the contract. */
  predicate ResetsOutsideBatches(raises: Behaviour, ops: seq<Op>) {
    ops != [] ==>
      var before, op := ops[..|ops| - 1], ops[|ops| - 1];
      ResetsOutsideBatches(raises, before) && (op.Reset? ==> Run(raises, before).pending == [])
  }

  predicate SomePendingMatches(pending: seq<Event>, topic: string) {
    exists i :: 0 <= i < |pending| && Matches(topic, pending[i].kind)
  }

  /** No handler is subscribed while an event it matches is waiting. */
  predicate SubscribesInTime(raises: Behaviour, ops: seq<Op>) {
    ops != [] ==>
      var before, op := ops[..|ops| - 1], ops[|ops| - 1];
      SubscribesInTime(raises, before) &&
      (op.Subscribe? ==> !SomePendingMatches(Run(raises, before).pending, op.topic))
  }

  lemma {:induction false} SubscribedTargets(topics: seq<Topic>, topic: string, handler: nat, kind: string)
    ensures !Matches(topic, kind) ==> Targets(Subscribed(topics, topic, handler), kind) == Targets(topics, kind)
    ensures Matches(topic, kind) ==>
      |Targets(Subscribed(topics, topic, handler), kind)| == |Targets(topics, kind)| + 1
  {
    var after := Subscribed(topics, topic, handler);
    if topics == [] {
      assert after == [] + [Topic(topic, [handler])] && after[..0] == [];
    } else if topics[0].name == topic {
      TargetsSplit([topics[0]], topics[1..], kind);
      TargetsSplit([after[0]], topics[1..], kind);
      assert topics == [topics[0]] + topics[1..] && after == [after[0]] + topics[1..];
      SingleTarget(topics[0], kind);
      SingleTarget(after[0], kind);
    } else {
      SubscribedTargets(topics[1..], topic, handler, kind);
      TargetsSplit([topics[0]], topics[1..], kind);
      TargetsSplit([topics[0]], Subscribed(topics[1..], topic, handler), kind);
      assert topics == [topics[0]] + topics[1..];
    }
  }

  lemma SingleTarget(t: Topic, kind: string)
    ensures Targets([t], kind) == if Matches(t.name, kind) then Labelled(t.name, t.handlers) else []
  {
    assert [t][..0] == [];
  }

  lemma Associative<T>(a: seq<T>, b: seq<T>, c: seq<T>)
    ensures (a + b) + c == a + (b + c)
  {
  }

  lemma {:induction false} TargetsSplit(a: seq<Topic>, b: seq<Topic>, kind: string)
    ensures Targets(a + b, kind) == Targets(a, kind) + Targets(b, kind)
    decreases |b|
  {
    if b == [] {
      assert a + b == a;
    } else {
      var n := |b| - 1;
      TargetsSplit(a, b[..n], kind);
      assert (a + b)[..|a + b| - 1] == a + b[..n] && (a + b)[|a + b| - 1] == b[n];
      var last := if Matches(b[n].name, kind) then Labelled(b[n].name, b[n].handlers) else [];
      Associative(Targets(a, kind), Targets(b[..n], kind), last);
    }
  }

  lemma {:induction false} UnmatchedSubscriberIsInert(b: Bus, raises: Behaviour, events: seq<Event>, topic: string,
                                                      handler: nat)
    requires !SomePendingMatches(events, topic)
    ensures var topics := Subscribed(b.topics, topic, handler);
      DeliverAll(b.(topics := topics), raises, events).0 == DeliverAll(b, raises, events).0.(topics := topics)
    decreases |events|
  {
    if events != [] {
      var n := |events| - 1;
      assert forall i :: 0 <= i < n ==> events[..n][i] == events[i];
      UnmatchedSubscriberIsInert(b, raises, events[..n], topic, handler);
      SubscribedTargets(b.topics, topic, handler, events[n].kind);
      var before := DeliverAll(b, raises, events[..n]).0;
      FlushAccounts(b, raises, events[..n]);
      CallAllIgnoresTopics(before, raises, Targets(b.topics, events[n].kind), events[n],
                           Subscribed(b.topics, topic, handler));
    }
  }

  lemma {:induction false} CallAllIgnoresTopics(b: Bus, raises: Behaviour, targets: seq<(string, nat)>, e: Event,
                                                topics: seq<Topic>)
    ensures CallAll(b.(topics := topics), raises, targets, e).0 == CallAll(b, raises, targets, e).0.(topics := topics)
    decreases |targets|
  {
    if targets != [] {
      CallAllIgnoresTopics(b, raises, targets[..|targets| - 1], e, topics);
    }
  }

  lemma {:induction false} LateSubscriberAddsPairs(topics: seq<Topic>, events: seq<Event>, topic: string, handler: nat)
    ensures Pairs(Subscribed(topics, topic, handler), events) >= Pairs(topics, events)
    ensures SomePendingMatches(events, topic) ==>
      Pairs(Subscribed(topics, topic, handler), events) > Pairs(topics, events)
    decreases |events|
  {
    if events != [] {
      var n := |events| - 1;
      LateSubscriberAddsPairs(topics, events[..n], topic, handler);
      SubscribedTargets(topics, topic, handler, events[n].kind);
      PendingMatchSplits(events, topic);
    }
  }

  lemma PendingMatchSplits(events: seq<Event>, topic: string)
    requires events != []
    ensures var n := |events| - 1;
      SomePendingMatches(events, topic) <==> SomePendingMatches(events[..n], topic) || Matches(topic, events[n].kind)
  {
    var n := |events| - 1;
    assert forall i :: 0 <= i < n ==> events[..n][i] == events[i];
    if i :| 0 <= i < |events| && Matches(topic, events[i].kind) {
      assert i < n ==> Matches(topic, events[..n][i].kind);
    }
    if i :| 0 <= i < n && Matches(topic, events[..n][i].kind) {
      assert Matches(topic, events[i].kind);
    }
  }

  lemma {:induction false} DepthZeroHasNothingPending(raises: Behaviour, ops: seq<Op>)
    ensures Run(raises, ops).depth == 0 ==> Run(raises, ops).pending == []
    decreases |ops|
  {
    if ops != [] {
      var before := Run(raises, ops[..|ops| - 1]);
      DepthZeroHasNothingPending(raises, ops[..|ops| - 1]);
      if ops[|ops| - 1].Publish? && before.depth == 0 {
        DeliveryAccounts(before.(history := before.history + [ops[|ops| - 1].event]), raises, ops[|ops| - 1].event);
      }
      if ops[|ops| - 1].EndBatch? {
        FlushAccounts(before.(depth := 0, pending := []), raises, before.pending);
      }
    }
  }

  /** One operation keeps the two buses in step, unless it subscribes a handler to something already waiting. */
  lemma StepKeepsInStep(b: Bus, raises: Behaviour, op: Op)
    requires b.depth == 0 ==> b.pending == []
    requires op.Reset? ==> b.pending == []
    requires op.Subscribe? ==> !SomePendingMatches(b.pending, op.topic)
    ensures Flushed(Apply(b, raises, op).0, raises) == ApplyImmediately(Flushed(b, raises), raises, op)
  {
    var base := b.(depth := 0, pending := []);
    FlushAccounts(base, raises, b.pending);
    match op
    case Subscribe(topic, handler) =>
      UnmatchedSubscriberIsInert(base, raises, b.pending, topic, handler);
      FlushAccounts(base, raises, b.pending);
    case Publish(e) =>
      var noted := base.(history := b.history + [e]);
      FlushIgnoresHistory(base, raises, b.pending, b.history + [e]);
      if b.depth > 0 {
        assert (b.pending + [e])[..|b.pending|] == b.pending;
      } else {
        DeliveryAccounts(noted, raises, e);
        assert b == base;
      }
    case BeginBatch =>
    case EndBatch =>
    case Reset =>
  }

  /** Batches are transparent: at any moment, delivering what is pending would leave the bus -- subscribers, history,
      failure counts, error trail and the exact sequence of handler calls -- as immediate delivery has left it. */
  lemma {:induction false} BatchesAreTransparent(raises: Behaviour, ops: seq<Op>)
    requires ResetsOutsideBatches(raises, ops) && SubscribesInTime(raises, ops)
    ensures Flushed(Run(raises, ops), raises) == RunImmediately(raises, ops)
    decreases |ops|
  {
    if ops != [] {
      var before := ops[..|ops| - 1];
      BatchesAreTransparent(raises, before);
      DepthZeroHasNothingPending(raises, before);
      StepKeepsInStep(Run(raises, before), raises, ops[|ops| - 1]);
    }
  }

  /** Late subscriptions only ever add handler calls: with everything pending delivered, batching has made at least
      as many calls as immediate delivery, and strictly more once a handler was subscribed to a waiting event. */
  lemma {:induction false} LateSubscriptionsOnlyAddCalls(raises: Behaviour, ops: seq<Op>)
    requires ResetsOutsideBatches(raises, ops)
    ensures |Flushed(Run(raises, ops), raises).log| >= |RunImmediately(raises, ops).log|
    ensures !SubscribesInTime(raises, ops) ==>
      |Flushed(Run(raises, ops), raises).log| > |RunImmediately(raises, ops).log|
    ensures Run(raises, ops).topics == RunImmediately(raises, ops).topics
    decreases |ops|
  {
    if ops != [] {
      var before, op := ops[..|ops| - 1], ops[|ops| - 1];
      LateSubscriptionsOnlyAddCalls(raises, before);
      DepthZeroHasNothingPending(raises, before);
      CallCounts(Run(raises, before), RunImmediately(raises, before), raises, op);
    }
  }

  lemma CallCounts(b: Bus, i: Bus, raises: Behaviour, op: Op)
    requires b.topics == i.topics && (b.depth == 0 ==> b.pending == []) && (op.Reset? ==> b.pending == [])
    ensures var b', i' := Apply(b, raises, op).0, ApplyImmediately(i, raises, op);
      && b'.topics == i'.topics
      && |Flushed(b', raises).log| - |Flushed(b, raises).log| >= |i'.log| - |i.log|
      && (op.Subscribe? && SomePendingMatches(b.pending, op.topic) ==>
          |Flushed(b', raises).log| - |Flushed(b, raises).log| > |i'.log| - |i.log|)
  {
    var base, b' := b.(depth := 0, pending := []), Apply(b, raises, op).0;
    FlushAccounts(base, raises, b.pending);
    FlushAccounts(b'.(depth := 0, pending := []), raises, b'.pending);
    match op
    case Subscribe(topic, handler) => LateSubscriberAddsPairs(b.topics, b.pending, topic, handler);
    case Publish(e) =>
      DeliveryAccounts(i.(history := i.history + [e]), raises, e);
      DeliveryAccounts(b.(history := b.history + [e]), raises, e);
      assert (b.pending + [e])[..|b.pending|] == b.pending;
    case BeginBatch =>
    case EndBatch =>
    case Reset =>
  }

  /** Once all batches are closed, the handlers have seen exactly what immediate delivery would have shown them if and
      only if no handler was subscribed while an event it matches was waiting. */
  lemma TransparentExactlyWhenSubscribedInTime(raises: Behaviour, ops: seq<Op>)
    requires ResetsOutsideBatches(raises, ops) && Run(raises, ops).depth == 0
    ensures Run(raises, ops).log == RunImmediately(raises, ops).log <==> SubscribesInTime(raises, ops)
  {
    DepthZeroHasNothingPending(raises, ops);
    assert Flushed(Run(raises, ops), raises) == Run(raises, ops);
    LateSubscriptionsOnlyAddCalls(raises, ops);
    if SubscribesInTime(raises, ops) {
      BatchesAreTransparent(raises, ops);
    }
  }

  /** The concrete difference: a handler subscribed inside a batch receives an event published before it. */
  lemma LateSubscriberSeesThePast(raises: Behaviour, e: Event, handler: nat)
    ensures var ops := [BeginBatch, Publish(e), Subscribe("*", handler), EndBatch];
      && Run(raises, ops).log == [Delivery(handler, e)] && RunImmediately(raises, ops).log == []
  {
    var ops := [BeginBatch, Publish(e), Subscribe("*", handler), EndBatch];
    RunStep(raises, ops, 0);
    RunStep(raises, ops, 1);
    RunStep(raises, ops, 2);
    RunStep(raises, ops, 3);
    assert ops[..0] == [] && ops[..4] == ops;
    var held := Run(raises, ops[..3]);
    assert held.pending == [] + [e] && held.topics == [Topic("*", [handler])] && held.log == [];
    OneTargetDelivery(held.(depth := 0, pending := []), raises, e, handler);
    var base := held.(depth := 0, pending := []);
    assert held.depth == 1 && [e][..0] == [];
    assert DeliverAll(base, raises, [e]).0 == Deliver(base, raises, e).0;
    assert [] + [Delivery(handler, e)] == [Delivery(handler, e)];
    assert Targets([], e.kind) == [];
    assert RunImmediately(raises, ops[..2]).log == [];
  }

  lemma RunStep(raises: Behaviour, ops: seq<Op>, k: nat)
    requires k < |ops|
    ensures Run(raises, ops[..k + 1]) == Apply(Run(raises, ops[..k]), raises, ops[k]).0
    ensures RunImmediately(raises, ops[..k + 1]) == ApplyImmediately(RunImmediately(raises, ops[..k]), raises, ops[k])
  {
    assert ops[..k + 1][..k] == ops[..k];
  }

  lemma OneTargetDelivery(b: Bus, raises: Behaviour, e: Event, handler: nat)
    requires b.topics == [Topic("*", [handler])]
    ensures Deliver(b, raises, e).0.log == b.log + [Delivery(handler, e)]
  {
    SingleTarget(Topic("*", [handler]), e.kind);
    var target: (string, nat) := ("*", handler);
    var targets: seq<(string, nat)> := [target];
    assert Targets(b.topics, e.kind) == targets && targets[..0] == [];
    assert CallAll(b, raises, targets, e).0 == Call(b, raises, target, e).0;
  }

  /** Delivered events followed by pending ones are the history; a reset keeps this exactly when nothing is pending. */
  lemma {:induction false} DeliveredThenPendingIsHistory(raises: Behaviour, ops: seq<Op>)
    requires ResetsOutsideBatches(raises, ops)
    ensures var b := Run(raises, ops);
      && b.delivered + b.pending == b.history
      && var r := Apply(b, raises, Reset).0; (r.delivered + r.pending == r.history <==> b.pending == [])
    decreases |ops|
  {
    if ops != [] {
      var before, op := ops[..|ops| - 1], ops[|ops| - 1];
      DeliveredThenPendingIsHistory(raises, before);
      DepthZeroHasNothingPending(raises, before);
      var b := Run(raises, before);
      if op.Publish? && b.depth == 0 {
        DeliveryAccounts(b.(history := b.history + [op.event]), raises, op.event);
      } else if op.EndBatch? {
        FlushAccounts(b.(depth := 0, pending := []), raises, b.pending);
      }
    }
  }

  lemma CallAllThenOne(b: Bus, raises: Behaviour, targets: seq<(string, nat)>, last: (string, nat), e: Event)
    ensures var before := CallAll(b, raises, targets, e);
      var call := Call(before.0, raises, last, e);
      CallAll(b, raises, targets + [last], e) == (call.0, if call.1 then before.1 + 1 else before.1)
  {
    assert (targets + [last])[..|targets + [last]| - 1] == targets;
  }

  /** One more handler of a topic, after everything in `reached`. */
  lemma NextHandler(reached: seq<(string, nat)>, name: string, handlers: seq<nat>, j: nat)
    requires j < |handlers|
    ensures reached + Labelled(name, handlers[..j + 1]) ==
        (reached + Labelled(name, handlers[..j])) + [(name, handlers[j])]
  {
  }

  lemma DeliverAllStep(b: Bus, raises: Behaviour, events: seq<Event>, i: nat)
    requires i < |events|
    ensures var (before, count) := DeliverAll(b, raises, events[..i]);
      var (after, more) := Deliver(before, raises, events[i]);
      DeliverAll(b, raises, events[..i + 1]) == (after, count + more)
  {
    assert events[..i + 1][..i] == events[..i];
  }

  lemma TargetsStep(topics: seq<Topic>, i: nat, kind: string)
    requires i < |topics|
    ensures Targets(topics[..i + 1], kind) ==
      if Matches(topics[i].name, kind) then Targets(topics[..i], kind) + Labelled(topics[i].name, topics[i].handlers)
      else Targets(topics[..i], kind)
  {
    assert topics[..i + 1][..i] == topics[..i];
  }

  // ---- The bus object ----

  class EventBus {
    const raises: Behaviour
    var topics: seq<Topic>
    var history: seq<Event>
    var failed: nat
    var errors: seq<ErrorRow>
    var depth: nat
    var pending: seq<Event>
    ghost var delivered: seq<Event>
    /** The handler calls made so far, which is all that handlers' behaviour may depend on. */
    var log: seq<Delivery>

    ghost function Model(): Bus
      reads this
    {
      Bus(topics, history, failed, errors, depth, pending, log, delivered)
    }

    constructor (raises: Behaviour)
      ensures this.raises == raises && Model() == EMPTY_BUS
    {
      this.raises := raises;
      topics, history, failed, errors, depth, pending, log := [], [], 0, [], 0, [], [];
      delivered := [];
    }

    /** A known topic keeps its place and gets the handler last; a new topic goes to the end with this one handler.
        Topic names stay distinct, no other topic changes, and nothing already published is delivered. */
    method SubscribeTo(topic: string, handler: nat)
      requires DistinctTopics(topics)
      modifies this`topics
      ensures DistinctTopics(topics) && Model() == old(Model()).(topics := topics)
      ensures (forall i :: 0 <= i < |old(topics)| ==> old(topics)[i].name != topic) ==>
                topics == old(topics) + [Topic(topic, [handler])]
      ensures forall i :: 0 <= i < |old(topics)| && old(topics)[i].name == topic ==>
                topics == old(topics)[i := Topic(topic, old(topics)[i].handlers + [handler])]
      ensures Model() == Apply(old(Model()), raises, Subscribe(topic, handler)).0
    {
      SubscribedInPlace(topics, topic, handler);
      topics := Subscribed(topics, topic, handler);
    }

    /** One guarded call: a raising handler is counted, not propagated. */
    method CallHandler(name: string, handler: nat, e: Event) returns (ok: bool)
      modifies this`log, this`failed, this`errors
      ensures (Model(), ok) == Call(old(Model()), raises, (name, handler), e)
    {
      var d := Delivery(handler, e);
      ok := !raises(log, d);
      log := log + [d];
      if !ok {
        failed := failed + 1;
        if |errors| < ERROR_LIMIT {
          errors := errors + [ErrorRow(e.kind, name, e.tick)];
        }
      }
    }

    /** The inner loop of `_deliver`: every handler of one matching topic, continuing a delivery that has gone from
        `start` through `reached`. */
    method CallHandlers(name: string, handlers: seq<nat>, e: Event, ghost start: Bus, ghost reached: seq<(string, nat)>,
                        ghost before: nat)
      returns (count: nat)
      requires (Model(), before) == CallAll(start, raises, reached, e)
      modifies this`log, this`failed, this`errors
      ensures (Model(), before + count) == CallAll(start, raises, reached + Labelled(name, handlers), e)
    {
      count := 0;
      ghost var called := reached;
      for j := 0 to |handlers|
        invariant called == reached + Labelled(name, handlers[..j])
        invariant (Model(), before + count) == CallAll(start, raises, called, e)
      {
        CallAllThenOne(start, raises, called, (name, handlers[j]), e);
        NextHandler(reached, name, handlers, j);
        called := called + [(name, handlers[j])];
        var ok := CallHandler(name, handlers[j], e);
        count := if ok then count + 1 else count;
      }
      assert handlers[..|handlers|] == handlers;
    }

    /** The outer loop of `_deliver`. */
    method CallMatchingTopics(e: Event) returns (count: nat)
      modifies this`log, this`failed, this`errors
      ensures (Model(), count) == CallAll(old(Model()), raises, Targets(topics, e.kind), e)
    {
      count := 0;
      ghost var start, called := Model(), [];
      var subscribers := topics;
      for i := 0 to |subscribers|
        invariant called == Targets(subscribers[..i], e.kind)
        invariant (Model(), count) == CallAll(start, raises, called, e)
      {
        TargetsStep(subscribers, i, e.kind);
        var topic := subscribers[i];
        if Matches(topic.name, e.kind) {
          var more := CallHandlers(topic.name, topic.handlers, e, start, called, count);
          called := called + Labelled(topic.name, topic.handlers);
          count := count + more;
        }
      }
      assert subscribers[..|subscribers|] == subscribers;
    }

    method DeliverEvent(e: Event) returns (count: nat)
      modifies this`log, this`failed, this`errors, this`delivered
      ensures (Model(), count) == Deliver(old(Model()), raises, e)
    {
      count := CallMatchingTopics(e);
      delivered := delivered + [e];
    }

    method PublishEvent(e: Event) returns (count: nat)
      modifies this
      ensures (Model(), count) == Apply(old(Model()), raises, Publish(e))
      ensures history == old(history) + [e] && depth == old(depth)
      ensures depth > 0 ==> pending == old(pending) + [e] && log == old(log) && count == 0
      ensures depth == 0 && |old(errors)| <= 64 ==>
        pending == old(pending) && log == old(log) + Calls(Targets(old(topics), e.kind), e)
    {
      if |errors| <= 64 {
        DeliveryIsExact(Model().(history := history + [e]), raises, e);
      }
      history := history + [e];
      if depth > 0 {
        pending := pending + [e];
        return 0;
      }
      count := DeliverEvent(e);
    }

    method BeginDeliveryBatch()
      modifies this`depth
      ensures depth == old(depth) + 1 && Model() == Apply(old(Model()), raises, BeginBatch).0
    {
      depth := depth + 1;
    }

    /** `ok` is false where the source raises: no batch is open. */
    method EndDeliveryBatch() returns (ok: bool, count: nat)
      modifies this
      ensures ok == (old(depth) > 0) && (Model(), count) == Apply(old(Model()), raises, EndBatch)
      ensures old(depth) == 1 ==> pending == [] && delivered == old(delivered) + old(pending)
      ensures old(depth) != 1 ==> count == 0 && pending == old(pending) && log == old(log)
      ensures depth == if old(depth) > 0 then old(depth) - 1 else 0
    {
      if depth == 1 {
        FlushAccounts(Model().(depth := 0, pending := []), raises, pending);
      }
      count := 0;
      if depth <= 0 {
        return false, 0;
      }
      depth := depth - 1;
      if depth > 0 {
        return true, 0;
      }
      var flushing := pending;
      pending := [];
      count := Flush(flushing);
      ok := true;
    }

    method Flush(events: seq<Event>) returns (count: nat)
      modifies this`log, this`failed, this`errors, this`delivered
      ensures (Model(), count) == DeliverAll(old(Model()), raises, events)
    {
      count := 0;
      ghost var start := Model();
      for i := 0 to |events|
        invariant (Model(), count) == DeliverAll(start, raises, events[..i])
      {
        DeliverAllStep(start, raises, events, i);
        var more := DeliverEvent(events[i]);
        count := count + more;
      }
      assert events[..|events|] == events;
    }

    method ResetBus()
      modifies this
      ensures Model() == Apply(old(Model()), raises, Reset).0
      ensures topics == [] && history == [] && failed == 0 && errors == []
      ensures depth == old(depth) && pending == old(pending) && log == old(log)
    {
      topics, history, failed, errors, delivered := [], [], 0, [], [];
    }
  }
}
