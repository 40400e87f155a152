/** The request/effect join of core/evidence.py: `control_summary_from_evidence` binds each accepted control request
    to the first physical effect the engine attributes to it. */
module EvidenceJoin {
  import opened Common

  type Args = map<string, string>

  /** A result or event payload: its normalised status tokens, the payload of its applied action, the due tick when
      it is a genuine integer, and whether its `_status` is "pending". */
  datatype Payload = Payload(tokens: set<string>, applied: Option<Payload>, dueTick: Option<int>, pending: bool)

  const NON_EFFECT := {"canceled", "cancelled", "error", "expired", "failed", "rejected", "superseded"}
  const IGNORED := {"wait", "noop", "moral_choice", "commit_to_plan"}

  predicate BlocksEffect(p: Payload) {
    p.tokens * NON_EFFECT != {} || (p.applied.Some? && BlocksEffect(p.applied.value))
  }

  /** A `tool_call` item; `args` is None when the field is not an object. */
  datatype Row = Row(tick: int, name: string, callId: string, ok: bool, stateChanging: bool, result: Payload,
                     args: Option<Args>)

  datatype EffectTick = Absent | Whole(tick: int) | Malformed

  /** A `realized_event` item. `requestedName` is the name inside its requested action, "" when there is none. */
  datatype Event = Event(id: string, itemTick: int, fromEngine: bool, originAgent: bool, agentCaused: bool,
                         callId: string, toolName: string, before: string, after: string, payload: Payload,
                         effectTick: EffectTick, requestedName: string, args: Option<Args>)

  datatype Item = ToolCall(row: Row) | Realized(event: Event) | OtherItem

  datatype Key = Key(callId: string, name: string)
  datatype Request = Request(name: string, tick: int, args: Args)
  datatype Effect = Effect(tick: int, eventId: string)

  type Requests = map<Key, Request>
  type Effects = map<Key, Effect>

  // ---- Accepted requests ----

  function Rows(items: seq<Item>): (rows: seq<Row>)
    ensures forall r :: r in rows <==> ToolCall(r) in items && r.name != "" && r.callId != ""
  {
    if items == [] then []
    else
      var n := |items| - 1;
      assert forall x :: x in items <==> x in items[..n] || x == items[n];
      var before := Rows(items[..n]);
      if items[n].ToolCall? && items[n].row.name != "" && items[n].row.callId != "" then before + [items[n].row]
      else before
  }

  function RowsOf(rows: seq<Row>, callId: string): (mine: seq<Row>)
    ensures forall r :: r in mine <==> r in rows && r.callId == callId
  {
    if rows == [] then []
    else
      var n := |rows| - 1;
      assert forall x :: x in rows <==> x in rows[..n] || x == rows[n];
      var before := RowsOf(rows[..n], callId);
      if rows[n].callId == callId then before + [rows[n]] else before
  }

  predicate Clean(r: Row) {
    r.ok && !BlocksEffect(r.result)
  }

  /** A pending row may be completed by a later state-changing row at exactly its due tick, with the same arguments. */
  predicate Completes(request: Row, terminal: Row) {
    && request.result.pending && request.result.dueTick == Some(terminal.tick)
    && terminal.stateChanging && request.tick <= terminal.tick
    && (request.args.Some? && terminal.args.Some? ==> request.args == terminal.args)
  }

  function ArgsOf(r: Row): Args {
    if r.args.Some? then r.args.value else map[]
  }

  /** The request made by the rows of one call id, if they form one. */
  function Accepted(rows: seq<Row>): Option<Request> {
    if rows == [] || |rows| > 2 || (exists r :: r in rows && r.name != rows[0].name) || rows[0].name in IGNORED
       || (exists r :: r in rows && !Clean(r)) then None
    else if |rows| == 1 then
      if rows[0].result.pending || rows[0].stateChanging then Some(Request(rows[0].name, rows[0].tick, ArgsOf(rows[0])))
      else None
    else if Completes(rows[0], rows[1]) then Some(Request(rows[0].name, rows[0].tick, ArgsOf(rows[0])))
    else None
  }

  /** A payload, the payload of the action it applied, and so on. */
  function Chain(p: Payload): seq<Payload> {
    [p] + if p.applied.Some? then Chain(p.applied.value) else []
  }

  /** No status anywhere down the chain of applied actions says that the call came to nothing. */
  ghost predicate TookHold(p: Payload) {
    forall q, t :: q in Chain(p) && t in q.tokens ==>
      t !in {"canceled", "cancelled", "error", "expired", "failed", "rejected", "superseded"}
  }

  lemma {:induction false} BlocksExactly(p: Payload)
    ensures BlocksEffect(p) <==> !TookHold(p)
  {
    assert Chain(p)[0] == p;
    if p.applied.Some? {
      BlocksExactly(p.applied.value);
      assert Chain(p)[1..] == Chain(p.applied.value);
      assert forall q :: q in Chain(p) <==> q == p || q in Chain(p.applied.value);
    }
    if p.tokens * NON_EFFECT != {} {
      var t :| t in p.tokens * NON_EFFECT;
      assert p in Chain(p) && t in p.tokens && t in NON_EFFECT;
    } else {
      assert forall t :: t in p.tokens ==> t !in NON_EFFECT by {
        assert forall t :: t in p.tokens && t in NON_EFFECT ==> t in p.tokens * NON_EFFECT;
      }
    }
  }

  /** The rows of one call make the request `q`: they succeeded, none came to nothing, and there is either one row,
      which waits or has changed the state, or a waiting one and, at the tick it is due, one that has changed the state
      with the same arguments. */
  ghost predicate MakesRequest(rows: seq<Row>, q: Request) {
    && 1 <= |rows| <= 2
    && (forall r :: r in rows ==> r.name == q.name && r.ok && TookHold(r.result))
    && q.name !in {"wait", "noop", "moral_choice", "commit_to_plan"}
    && q.tick == rows[0].tick && (rows[0].args == Some(q.args) || (rows[0].args.None? && q.args == map[]))
    && if |rows| == 1 then rows[0].result.pending || rows[0].stateChanging
       else
         && rows[0].result.pending && rows[0].result.dueTick == Some(rows[1].tick) && rows[0].tick <= rows[1].tick
         && rows[1].stateChanging
         && (rows[0].args.None? || rows[1].args.None? || rows[0].args == rows[1].args)
  }

  /** A request is accepted if and only if the rows of its call make it. */
  lemma AcceptedExactly(rows: seq<Row>, q: Request)
    ensures Accepted(rows) == Some(q) <==> MakesRequest(rows, q)
  {
    forall r | r in rows ensures BlocksEffect(r.result) <==> !TookHold(r.result) {
      BlocksExactly(r.result);
    }
    if rows != [] {
      assert rows[0] in rows;
      assert Accepted(rows).Some? ==> forall r :: r in rows ==> r.name == rows[0].name && Clean(r);
    }
  }

  /** `requests` holds exactly the accepted request of every call id, under its own name. */
  ghost predicate IsRequestTable(rows: seq<Row>, requests: Requests) {
    forall key :: key in requests <==>
      var r := Accepted(RowsOf(rows, key.callId)); r.Some? && r.value.name == key.name
  }

  ghost predicate HoldsRequests(rows: seq<Row>, requests: Requests) {
    IsRequestTable(rows, requests)
    && forall key :: key in requests ==> Accepted(RowsOf(rows, key.callId)) == Some(requests[key])
  }

  // ---- Qualifying effects ----

  function KeyOf(e: Event): Key {
    Key(e.callId, e.toolName)
  }

  function TickOf(e: Event): int {
    match e.effectTick
    case Whole(tick) => tick
    case _ => e.itemTick
  }

  /** The long disjunction of the event loop, negated. */
  predicate Qualifies(requests: Requests, lifecycle: bool, e: Event) {
    && !e.effectTick.Malformed?
    && e.fromEngine && e.originAgent && e.agentCaused
    && e.callId != "" && e.toolName != ""
    && e.before != "" && e.after != "" && e.before != e.after
    && !BlocksEffect(e.payload)
    && KeyOf(e) in requests
    && requests[KeyOf(e)].tick <= TickOf(e) && e.itemTick <= TickOf(e)
    && (e.requestedName == "" || e.requestedName == e.toolName)
    && (lifecycle && e.args.Some? ==> e.args.value == requests[KeyOf(e)].args)
  }

  /** Fold over the realized events, keeping the first of the earliest effects per request. */
  function FirstEffects(requests: Requests, lifecycle: bool, events: seq<Event>): Effects {
    if events == [] then map[]
    else
      var n := |events| - 1;
      var before, e := FirstEffects(requests, lifecycle, events[..n]), events[n];
      if Qualifies(requests, lifecycle, e) && (KeyOf(e) in before ==> TickOf(e) < before[KeyOf(e)].tick)
      then before[KeyOf(e) := Effect(TickOf(e), e.id)] else before
  }

  /** The event is a physical effect, at `tick`, of the accepted request under `key`: the engine's own report of a state
      change that the agent caused, which took hold, no earlier than the request or the report, of the tool and, where
      that is asked, with the arguments requested. */
  ghost predicate Realizes(requests: Requests, lifecycle: bool, e: Event, key: Key, tick: int) {
    && e.fromEngine && e.originAgent && e.agentCaused
    && e.callId != "" && e.toolName != "" && e.before != "" && e.after != "" && e.before != e.after
    && TookHold(e.payload)
    && key == Key(e.callId, e.toolName) && key in requests
    && (e.effectTick == Whole(tick) || (e.effectTick.Absent? && tick == e.itemTick))
    && requests[key].tick <= tick && e.itemTick <= tick
    && (e.requestedName == "" || e.requestedName == e.toolName)
    && (lifecycle ==> e.args.None? || e.args.value == requests[key].args)
  }

  lemma QualifiesExactly(requests: Requests, lifecycle: bool, e: Event, key: Key, tick: int)
    ensures Qualifies(requests, lifecycle, e) && KeyOf(e) == key && TickOf(e) == tick <==>
            Realizes(requests, lifecycle, e, key, tick)
  {
    BlocksExactly(e.payload);
    if e.effectTick.Absent? {
      assert TickOf(e) == e.itemTick;
    }
  }

  ghost predicate Candidate(requests: Requests, lifecycle: bool, events: seq<Event>, key: Key, e: Event) {
    e in events && Qualifies(requests, lifecycle, e) && KeyOf(e) == key
  }

  /** A control record exists exactly when some realized event qualifies for an accepted request; its effect tick is
      attained by a qualifying event, is the least over all of them, and does not precede the request. */
  lemma {:induction false} EffectIsEarliestQualifying(requests: Requests, lifecycle: bool, events: seq<Event>, key: Key)
    ensures var effects := FirstEffects(requests, lifecycle, events);
      && (key in effects <==> exists e :: Candidate(requests, lifecycle, events, key, e))
      && (key in effects ==>
          && key in requests && requests[key].tick <= effects[key].tick
          && (exists e :: Candidate(requests, lifecycle, events, key, e) && TickOf(e) == effects[key].tick
                          && e.id == effects[key].eventId)
          && forall e :: Candidate(requests, lifecycle, events, key, e) ==> effects[key].tick <= TickOf(e))
    decreases |events|
  {
    if events != [] {
      var n := |events| - 1;
      EffectIsEarliestQualifying(requests, lifecycle, events[..n], key);
      var last := events[n];
      assert forall e :: e in events <==> e in events[..n] || e == last;
      var before, after := FirstEffects(requests, lifecycle, events[..n]), FirstEffects(requests, lifecycle, events);
      if key in before && (KeyOf(last) != key || after == before) {
        var e :| Candidate(requests, lifecycle, events[..n], key, e) && TickOf(e) == before[key].tick
          && e.id == before[key].eventId;
        assert Candidate(requests, lifecycle, events, key, e);
      }
      if KeyOf(last) == key && Qualifies(requests, lifecycle, last) {
        assert Candidate(requests, lifecycle, events, key, last);
      }
      forall e | Candidate(requests, lifecycle, events, key, e)
        ensures e == last || Candidate(requests, lifecycle, events[..n], key, e)
      {
      }
    }
  }

  /** A record exists exactly when some event realizes the request; it holds the least tick at which one does, and the
      id of an event that does then. */
  lemma EffectIsEarliestRealization(requests: Requests, lifecycle: bool, events: seq<Event>, key: Key)
    ensures var effects := FirstEffects(requests, lifecycle, events);
      && (key in effects <==> exists e, t :: e in events && Realizes(requests, lifecycle, e, key, t))
      && (key in effects ==>
           && (forall e, t :: e in events && Realizes(requests, lifecycle, e, key, t) ==> effects[key].tick <= t)
           && exists e :: e in events && Realizes(requests, lifecycle, e, key, effects[key].tick)
                       && e.id == effects[key].eventId)
  {
    var effects := FirstEffects(requests, lifecycle, events);
    forall e, t ensures Qualifies(requests, lifecycle, e) && KeyOf(e) == key && TickOf(e) == t <==>
                        Realizes(requests, lifecycle, e, key, t) {
      QualifiesExactly(requests, lifecycle, e, key, t);
    }
    EffectIsEarliestQualifying(requests, lifecycle, events, key);
    if key in effects {
      var e :| Candidate(requests, lifecycle, events, key, e) && TickOf(e) == effects[key].tick
        && e.id == effects[key].eventId;
      assert Realizes(requests, lifecycle, e, key, TickOf(e));
    } else if e, t :| e in events && Realizes(requests, lifecycle, e, key, t) {
      assert Candidate(requests, lifecycle, events, key, e);
    }
  }

  ghost predicate SameTicks(a: Effects, b: Effects) {
    a.Keys == b.Keys && forall key :: key in a ==> a[key].tick == b[key].tick
  }

  /** The order of the realized events does not matter for which requests have an effect, nor for its tick. */
  lemma EventOrderIsIrrelevant(requests: Requests, lifecycle: bool, events: seq<Event>, shuffled: seq<Event>)
    requires multiset(events) == multiset(shuffled)
    ensures SameTicks(FirstEffects(requests, lifecycle, events), FirstEffects(requests, lifecycle, shuffled))
  {
    var a, b := FirstEffects(requests, lifecycle, events), FirstEffects(requests, lifecycle, shuffled);
    assert forall e :: e in events <==> e in shuffled by {
      assert forall e :: e in events <==> e in multiset(events);
      assert forall e :: e in shuffled <==> e in multiset(shuffled);
    }
    forall key ensures (key in a <==> key in b) && (key in a ==> a[key].tick == b[key].tick) {
      EffectIsEarliestQualifying(requests, lifecycle, events, key);
      EffectIsEarliestQualifying(requests, lifecycle, shuffled, key);
      assert forall e :: Candidate(requests, lifecycle, events, key, e) <==>
          Candidate(requests, lifecycle, shuffled, key, e);
    }
  }

  const QUIET := Payload({}, None, None, false)
  const OPENED := Row(3, "open_valve", "c1", true, true, QUIET, Some(map[]))

  /** A change of the valve at tick 5, after the call that opened it at tick 3. */
  function ValveChange(id: string): Event {
    Event(id, 5, true, true, true, "c1", "open_valve", "closed", "open", QUIET, Absent, "", None)
  }

  /** The recorded event id does depend on the order: of two effects of one call at one tick, the first is kept. */
  lemma EventIdDependsOnOrder(lifecycle: bool)
    ensures var key := Key("c1", "open_valve");
      var requests := map[key := Request("open_valve", 3, map[])];
      && HoldsRequests([OPENED], requests)
      && FirstEffects(requests, lifecycle, [ValveChange("e1"), ValveChange("e2")]) == map[key := Effect(5, "e1")]
      && FirstEffects(requests, lifecycle, [ValveChange("e2"), ValveChange("e1")]) == map[key := Effect(5, "e2")]
  {
    var key := Key("c1", "open_valve");
    var requests := map[key := Request("open_valve", 3, map[])];
    RowsOfOne(OPENED, "c1");
    assert Accepted(RowsOf([OPENED], "c1")) == Some(requests[key]);
    forall k ensures k in requests <==>
        var r := Accepted(RowsOf([OPENED], k.callId)); r.Some? && r.value.name == k.name
    {
      RowsOfOne(OPENED, k.callId);
    }
    FirstOfTwo(requests, lifecycle, ValveChange("e1"), ValveChange("e2"));
    FirstOfTwo(requests, lifecycle, ValveChange("e2"), ValveChange("e1"));
  }

  lemma RowsOfOne(row: Row, callId: string)
    ensures RowsOf([row], callId) == if row.callId == callId then [row] else []
  {
    assert RowsOf([row][..0], callId) == [];
  }

  lemma FirstOfTwo(requests: Requests, lifecycle: bool, e: Event, f: Event)
    requires Qualifies(requests, lifecycle, e) && KeyOf(e) == KeyOf(f) && TickOf(e) == TickOf(f)
    ensures FirstEffects(requests, lifecycle, [e, f]) == map[KeyOf(e) := Effect(TickOf(e), e.id)]
  {
    assert [e, f][..1] == [e] && [e][..0] == [];
    assert FirstEffects(requests, lifecycle, [e]) == map[KeyOf(e) := Effect(TickOf(e), e.id)];
  }

  /** `e` is one of the earliest qualifying events of `key`. */
  ghost predicate Earliest(requests: Requests, lifecycle: bool, events: seq<Event>, key: Key, e: Event) {
    && Candidate(requests, lifecycle, events, key, e)
    && forall f :: Candidate(requests, lifecycle, events, key, f) ==> TickOf(e) <= TickOf(f)
  }

  /** All earliest qualifying events of a key carry one id. */
  ghost predicate EarliestAgree(requests: Requests, lifecycle: bool, events: seq<Event>) {
    forall key, e, f ::
      Earliest(requests, lifecycle, events, key, e) && Earliest(requests, lifecycle, events, key, f) ==> e.id == f.id
  }

  /** An earliest event that comes first is the one recorded. */
  lemma {:induction false} FirstEarliestIsKept(requests: Requests, lifecycle: bool, events: seq<Event>, key: Key,
      n: nat)
    requires 1 <= n <= |events| && Earliest(requests, lifecycle, events, key, events[0])
    ensures var effects := FirstEffects(requests, lifecycle, events[..n]);
      key in effects && effects[key] == Effect(TickOf(events[0]), events[0].id)
  {
    assert events[..n][..n - 1] == events[..n - 1];
    if n > 1 {
      FirstEarliestIsKept(requests, lifecycle, events, key, n - 1);
      var last := events[n - 1];
      if Qualifies(requests, lifecycle, last) && KeyOf(last) == key {
        assert Candidate(requests, lifecycle, events, key, last);
      }
    } else {
      assert FirstEffects(requests, lifecycle, events[..0]) == map[];
    }
  }

  function MovedFirst(events: seq<Event>, k: nat): (shuffled: seq<Event>)
    requires k < |events|
    ensures multiset(shuffled) == multiset(events) && shuffled[0] == events[k]
  {
    assert events == events[..k] + [events[k]] + events[k + 1..];
    [events[k]] + events[..k] + events[k + 1..]
  }

  lemma SameMembers<T>(a: seq<T>, b: seq<T>)
    requires multiset(a) == multiset(b)
    ensures forall x :: x in a <==> x in b
  {
    assert forall x :: x in a <==> x in multiset(a);
    assert forall x :: x in b <==> x in multiset(b);
  }

  lemma SameEarliest(requests: Requests, lifecycle: bool, events: seq<Event>, shuffled: seq<Event>, key: Key, e: Event)
    requires multiset(events) == multiset(shuffled)
    ensures Earliest(requests, lifecycle, events, key, e) <==> Earliest(requests, lifecycle, shuffled, key, e)
  {
    SameMembers(events, shuffled);
    assert forall f :: Candidate(requests, lifecycle, events, key, f) <==>
        Candidate(requests, lifecycle, shuffled, key, f);
  }

  /** Whichever earliest event one likes is the recorded one in some order. */
  lemma EveryEarliestCanBeRecorded(requests: Requests, lifecycle: bool, events: seq<Event>, key: Key, e: Event)
    returns (shuffled: seq<Event>)
    requires Earliest(requests, lifecycle, events, key, e)
    ensures multiset(shuffled) == multiset(events)
    ensures var effects := FirstEffects(requests, lifecycle, shuffled); key in effects && effects[key].eventId == e.id
  {
    var k :| 0 <= k < |events| && events[k] == e;
    shuffled := MovedFirst(events, k);
    SameEarliest(requests, lifecycle, events, shuffled, key, e);
    FirstEarliestIsKept(requests, lifecycle, shuffled, key, |shuffled|);
    assert shuffled[..|shuffled|] == shuffled;
  }

  lemma RecordedIsEarliest(requests: Requests, lifecycle: bool, events: seq<Event>, key: Key)
    returns (e: Event)
    requires key in FirstEffects(requests, lifecycle, events)
    ensures Earliest(requests, lifecycle, events, key, e)
    ensures FirstEffects(requests, lifecycle, events)[key] == Effect(TickOf(e), e.id)
  {
    EffectIsEarliestQualifying(requests, lifecycle, events, key);
    var effect := FirstEffects(requests, lifecycle, events)[key];
    e :| Candidate(requests, lifecycle, events, key, e) && TickOf(e) == effect.tick && e.id == effect.eventId;
  }

  /** The recorded effects are the same under every order of the realized events. */
  ghost predicate OrderIndependent(requests: Requests, lifecycle: bool, events: seq<Event>) {
    forall shuffled: seq<Event> :: multiset(shuffled) == multiset(events) ==>
      FirstEffects(requests, lifecycle, shuffled) == FirstEffects(requests, lifecycle, events)
  }

  /** The recorded effects, event ids included, do not depend on the order of the realized events if and only if, for
      every request, all its earliest qualifying events carry one id. */
  lemma EffectsAreOrderIndependentExactly(requests: Requests, lifecycle: bool, events: seq<Event>)
    ensures OrderIndependent(requests, lifecycle, events) <==> EarliestAgree(requests, lifecycle, events)
  {
    if EarliestAgree(requests, lifecycle, events) {
      forall shuffled: seq<Event> | multiset(shuffled) == multiset(events)
        ensures FirstEffects(requests, lifecycle, shuffled) == FirstEffects(requests, lifecycle, events)
      {
        AgreeingOrdersMatch(requests, lifecycle, events, shuffled);
      }
    }
    if OrderIndependent(requests, lifecycle, events) {
      forall key, e, f | Earliest(requests, lifecycle, events, key, e) && Earliest(requests, lifecycle, events, key, f)
        ensures e.id == f.id
      {
        var first := EveryEarliestCanBeRecorded(requests, lifecycle, events, key, e);
        var second := EveryEarliestCanBeRecorded(requests, lifecycle, events, key, f);
      }
    }
  }

  lemma AgreeingOrdersMatch(requests: Requests, lifecycle: bool, events: seq<Event>, shuffled: seq<Event>)
    requires EarliestAgree(requests, lifecycle, events) && multiset(shuffled) == multiset(events)
    ensures FirstEffects(requests, lifecycle, shuffled) == FirstEffects(requests, lifecycle, events)
  {
    var a, b := FirstEffects(requests, lifecycle, events), FirstEffects(requests, lifecycle, shuffled);
    EventOrderIsIrrelevant(requests, lifecycle, events, shuffled);
    forall key | key in a ensures a[key] == b[key] {
      var e := RecordedIsEarliest(requests, lifecycle, events, key);
      var f := RecordedIsEarliest(requests, lifecycle, shuffled, key);
      SameEarliest(requests, lifecycle, events, shuffled, key, f);
    }
  }

  /** Lifecycle mode only narrows: its requests with an effect are among the default ones, each no earlier. */
  lemma LifecycleOnlyNarrows(requests: Requests, events: seq<Event>, key: Key)
    ensures var strict, loose := FirstEffects(requests, true, events), FirstEffects(requests, false, events);
      key in strict ==> key in loose && loose[key].tick <= strict[key].tick
  {
    EffectIsEarliestQualifying(requests, true, events, key);
    EffectIsEarliestQualifying(requests, false, events, key);
    var strict := FirstEffects(requests, true, events);
    if key in strict {
      var e :| Candidate(requests, true, events, key, e) && TickOf(e) == strict[key].tick;
      assert Candidate(requests, false, events, key, e);
    }
  }

  /** At most one record per call id: two recorded keys of one call are the same key. */
  lemma OneRecordPerCall(rows: seq<Row>, requests: Requests, lifecycle: bool, events: seq<Event>, a: Key, b: Key)
    requires HoldsRequests(rows, requests) && a.callId == b.callId
    requires a in FirstEffects(requests, lifecycle, events) && b in FirstEffects(requests, lifecycle, events)
    ensures a == b
  {
    EffectIsEarliestQualifying(requests, lifecycle, events, a);
    EffectIsEarliestQualifying(requests, lifecycle, events, b);
  }

  // ---- The published summary ----

  function Events(items: seq<Item>): (events: seq<Event>)
    ensures forall e :: e in events <==> Realized(e) in items
  {
    if items == [] then []
    else
      var n := |items| - 1;
      assert forall x :: x in items <==> x in items[..n] || x == items[n];
      if items[n].Realized? then Events(items[..n]) + [items[n].event] else Events(items[..n])
  }

  type Ticks = map<Key, int>
  type Table = map<string, set<int>>

  function RequestTicks(requests: Requests): Ticks {
    map key | key in requests :: requests[key].tick
  }

  function EffectTicks(effects: Effects): Ticks {
    map key | key in effects :: effects[key].tick
  }

  /** The tools of `ticks`, each with exactly its ticks. */
  ghost predicate IsTable(ticks: Ticks, table: Table) {
    && (forall name :: name in table <==> exists key :: key in ticks && key.name == name)
    && forall name, tick :: name in table ==> (tick in table[name] <==> HasTick(ticks, name, tick))
  }

  ghost predicate HasTick(ticks: Ticks, name: string, tick: int) {
    exists key :: key in ticks && key.name == name && ticks[key] == tick
  }

  /** `distinct_control_ticks`, `distinct_physical_tools`, `tool_ticks` and `effect_tool_ticks`. */
  datatype Summary = Summary(distinctTicks: set<int>, tools: set<string>, requestTicks: Table, effectTicks: Table)

  ghost predicate Summarises(requests: Requests, effects: Effects, s: Summary) {
    && IsTable(RequestTicks(requests), s.requestTicks)
    && IsTable(EffectTicks(effects), s.effectTicks)
    && s.tools == s.effectTicks.Keys
    && forall tick :: tick in s.distinctTicks <==> exists key :: key in effects && effects[key].tick == tick
  }

  ghost predicate IsSummary(items: seq<Item>, lifecycle: bool, s: Summary) {
    exists requests: Requests ::
      HoldsRequests(Rows(items), requests) && Summarises(requests, FirstEffects(requests, lifecycle, Events(items)), s)
  }

  lemma TableIsUnique(ticks: Ticks, x: Table, y: Table)
    requires IsTable(ticks, x) && IsTable(ticks, y)
    ensures x == y
  {
    forall name | name in x ensures x[name] == y[name] {
      forall tick: int ensures tick in x[name] <==> tick in y[name] {
        assert tick in x[name] <==> HasTick(ticks, name, tick);
      }
    }
    assert x.Keys == y.Keys;
  }

  lemma SameTicksSameSummary(requests: Requests, a: Effects, b: Effects, s: Summary, t: Summary)
    requires SameTicks(a, b) && Summarises(requests, a, s) && Summarises(requests, b, t)
    ensures s == t
  {
    assert EffectTicks(a) == EffectTicks(b);
    TableIsUnique(RequestTicks(requests), s.requestTicks, t.requestTicks);
    TableIsUnique(EffectTicks(a), s.effectTicks, t.effectTicks);
    forall tick: int ensures tick in s.distinctTicks <==> tick in t.distinctTicks {
      if key :| key in a && a[key].tick == tick {
        assert key in b && b[key].tick == tick;
      }
      if key :| key in b && b[key].tick == tick {
        assert key in a && a[key].tick == tick;
      }
    }
  }

  lemma RequestsAreUnique(rows: seq<Row>, other: seq<Row>, a: Requests, b: Requests)
    requires HoldsRequests(rows, a) && HoldsRequests(other, b)
    requires forall id :: RowsOf(rows, id) == RowsOf(other, id)
    ensures a == b
  {
    assert forall key :: key in a <==> key in b;
    assert a.Keys == b.Keys;
  }

  /** End to end: the summary depends on each call's rows in their order, and on the realized events in any order. */
  lemma SummaryIsOrderIndependent(items: seq<Item>, other: seq<Item>, lifecycle: bool, s: Summary, t: Summary)
    requires forall id :: RowsOf(Rows(items), id) == RowsOf(Rows(other), id)
    requires multiset(Events(items)) == multiset(Events(other))
    requires IsSummary(items, lifecycle, s) && IsSummary(other, lifecycle, t)
    ensures s == t
  {
    var a: Requests :| HoldsRequests(Rows(items), a) && Summarises(a, FirstEffects(a, lifecycle, Events(items)), s);
    var b: Requests :| HoldsRequests(Rows(other), b) && Summarises(b, FirstEffects(b, lifecycle, Events(other)), t);
    RequestsAreUnique(Rows(items), Rows(other), a, b);
    EventOrderIsIrrelevant(a, lifecycle, Events(items), Events(other));
    SameTicksSameSummary(a, FirstEffects(a, lifecycle, Events(items)), FirstEffects(a, lifecycle, Events(other)), s, t);
  }

  // ---- The passes ----

  lemma RowsStep(items: seq<Item>, i: nat)
    requires i < |items|
    ensures var x, before := items[i], Rows(items[..i]);
      Rows(items[..i + 1]) ==
      if x.ToolCall? && x.row.name != "" && x.row.callId != "" then before + [x.row] else before
  {
    assert items[..i + 1][..i] == items[..i];
  }

  lemma RowsOfStep(rows: seq<Row>, row: Row, id: string)
    ensures RowsOf(rows + [row], id) == RowsOf(rows, id) + if row.callId == id then [row] else []
  {
    assert (rows + [row])[..|rows|] == rows;
  }

  lemma EventsStep(items: seq<Item>, i: nat)
    requires i < |items|
    ensures var x, before := items[i], Events(items[..i]);
      Events(items[..i + 1]) == if x.Realized? then before + [x.event] else before
  {
    assert items[..i + 1][..i] == items[..i];
  }

  lemma {:induction false} EffectsStep(requests: Requests, lifecycle: bool, events: seq<Event>, e: Event)
    ensures var before := FirstEffects(requests, lifecycle, events);
      FirstEffects(requests, lifecycle, events + [e]) ==
      if Qualifies(requests, lifecycle, e) && (KeyOf(e) in before ==> TickOf(e) < before[KeyOf(e)].tick)
      then before[KeyOf(e) := Effect(TickOf(e), e.id)] else before
  {
    assert (events + [e])[..|events|] == events;
  }

  /** `byCall` holds the rows of exactly the call ids that have some, in their order. */
  ghost predicate Groups(rows: seq<Row>, byCall: map<string, seq<Row>>) {
    forall id :: RowsOf(rows, id) == if id in byCall then byCall[id] else []
  }

  ghost predicate NoneEmpty(byCall: map<string, seq<Row>>) {
    forall id :: id in byCall ==> byCall[id] != []
  }

  lemma GroupsStep(rows: seq<Row>, byCall: map<string, seq<Row>>, row: Row)
    requires Groups(rows, byCall)
    ensures var mine := if row.callId in byCall then byCall[row.callId] else [];
      Groups(rows + [row], byCall[row.callId := mine + [row]])
  {
    var mine := if row.callId in byCall then byCall[row.callId] else [];
    var more := byCall[row.callId := mine + [row]];
    forall id ensures RowsOf(rows + [row], id) == if id in more then more[id] else [] {
      RowsOfStep(rows, row, id);
    }
  }

  /** The first pass: the rows of each call id. */
  method GroupByCall(items: seq<Item>) returns (byCall: map<string, seq<Row>>)
    ensures Groups(Rows(items), byCall) && NoneEmpty(byCall)
  {
    byCall := map[];
    for i := 0 to |items|
      invariant Groups(Rows(items[..i]), byCall) && NoneEmpty(byCall)
    {
      RowsStep(items, i);
      var item := items[i];
      if item.ToolCall? && item.row.name != "" && item.row.callId != "" {
        GroupsStep(Rows(items[..i]), byCall, item.row);
        var id := item.row.callId;
        byCall := byCall[id := (if id in byCall then byCall[id] else []) + [item.row]];
      }
    }
    assert items[..|items|] == items;
  }

  /** The second: keep the calls whose rows form an accepted request. */
  method CollectRequests(items: seq<Item>) returns (requests: Requests)
    ensures HoldsRequests(Rows(items), requests)
  {
    var byCall := GroupByCall(items);
    requests := map[];
    var todo := byCall.Keys;
    ghost var rows := Rows(items);
    while todo != {}
      invariant todo <= byCall.Keys
      invariant forall key ::
        key in requests <==>
        (key.callId in byCall && key.callId !in todo && Accepted(RowsOf(rows, key.callId)).Some?
         && Accepted(RowsOf(rows, key.callId)).value.name == key.name)
      invariant forall key :: key in requests ==> Accepted(RowsOf(rows, key.callId)) == Some(requests[key])
      decreases todo
    {
      var id :| id in todo;
      var request := Accepted(byCall[id]);
      if request.Some? {
        requests := requests[Key(id, request.value.name) := request.value];
      }
      todo := todo - {id};
    }
  }

  /** The event pass. */
  method FindFirstEffects(requests: Requests, items: seq<Item>, lifecycle: bool) returns (effects: Effects)
    ensures effects == FirstEffects(requests, lifecycle, Events(items))
  {
    effects := map[];
    for i := 0 to |items|
      invariant effects == FirstEffects(requests, lifecycle, Events(items[..i]))
    {
      EventsStep(items, i);
      if items[i].Realized? {
        var e := items[i].event;
        EffectsStep(requests, lifecycle, Events(items[..i]), e);
        if Qualifies(requests, lifecycle, e) && (KeyOf(e) !in effects || TickOf(e) < effects[KeyOf(e)].tick) {
          effects := effects[KeyOf(e) := Effect(TickOf(e), e.id)];
        }
      }
    }
    assert items[..|items|] == items;
  }

  /** `table.setdefault(name, set()).add(tick)` over all keys. */
  method GroupByTool(ticks: Ticks) returns (table: Table)
    ensures IsTable(ticks, table)
  {
    table := map[];
    var todo := ticks.Keys;
    ghost var done: Ticks := map[];
    while todo != {}
      invariant todo <= ticks.Keys
      invariant done == map key | key in ticks && key !in todo :: ticks[key]
      invariant IsTable(done, table)
      decreases todo
    {
      var key :| key in todo;
      var updated := table[key.name := (if key.name in table then table[key.name] else {}) + {ticks[key]}];
      AddTick(done, table, key, ticks[key], updated);
      done := done[key := ticks[key]];
      table, todo := updated, todo - {key};
    }
    assert done == ticks;
  }

  /** The last pass and the published summary. */
  method ControlSummary(items: seq<Item>, lifecycle: bool)
    returns (requests: Requests, effects: Effects, summary: Summary)
    ensures HoldsRequests(Rows(items), requests)
    ensures effects == FirstEffects(requests, lifecycle, Events(items))
    ensures Summarises(requests, effects, summary) && IsSummary(items, lifecycle, summary)
  {
    requests := CollectRequests(items);
    effects := FindFirstEffects(requests, items, lifecycle);
    var requestTicks := GroupByTool(RequestTicks(requests));
    var effectTicks := GroupByTool(EffectTicks(effects));
    var distinctTicks := set key | key in effects :: effects[key].tick;
    summary := Summary(distinctTicks, effectTicks.Keys, requestTicks, effectTicks);
  }

  lemma AddTick(done: Ticks, table: Table, key: Key, tick: int, updated: Table)
    requires IsTable(done, table) && key !in done
    requires updated == table[key.name := (if key.name in table then table[key.name] else {}) + {tick}]
    ensures IsTable(done[key := tick], updated)
  {
    var wider := done[key := tick];
    forall name: string ensures name in updated <==> exists k :: k in wider && k.name == name {
      if name == key.name {
        assert key in wider;
      }
      if k :| k in done && k.name == name {
        assert k in wider;
      }
    }
    forall name: string, t: int | name in updated ensures t in updated[name] <==> HasTick(wider, name, t) {
      HasTickStep(done, key, tick, name, t);
      if name !in table {
        assert !HasTick(done, name, t);
      }
    }
  }

  lemma HasTickStep(done: Ticks, key: Key, tick: int, name: string, t: int)
    requires key !in done
    ensures HasTick(done[key := tick], name, t) <==> HasTick(done, name, t) || (key.name == name && tick == t)
  {
    var wider := done[key := tick];
    if k :| k in done && k.name == name && done[k] == t {
      assert k in wider && wider[k] == t;
    }
    if key.name == name && tick == t {
      assert key in wider && wider[key] == t;
    }
  }
}
