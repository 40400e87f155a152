/** The resume journal of baselines/llm_agent.py: exporting the pending plans grouped by shared object, importing
    them into fresh objects, and the agent object that owns the plan memory. */
module ResumeState {
  import opened Common
  import opened PlanLifecycle

  /** One exported plan with every alias that shares it. */
  datatype Group = Group(aliases: seq<string>, plan: Plan)

  predicate NoDuplicates(aliases: seq<string>) {
    forall i, j :: 0 <= i < j < |aliases| ==> aliases[i] != aliases[j]
  }

  /** `groups[i]` lists, without repetition, exactly the aliases of `owners[i]`. */
  ghost predicate GroupsBy(pending: Pending, groups: seq<Group>, owners: seq<PlanObject>) {
    && |groups| == |owners|
    && (forall i, j :: 0 <= i < j < |owners| ==> owners[i] != owners[j])
    && (forall i :: 0 <= i < |groups| ==>
        groups[i].plan == owners[i].plan && groups[i].aliases != [] && NoDuplicates(groups[i].aliases))
    && (forall i, a :: 0 <= i < |groups| ==> (a in groups[i].aliases <==> a in pending && pending[a] == owners[i]))
  }

  ghost predicate IsExport(pending: Pending, groups: seq<Group>) {
    exists owners: seq<PlanObject> ::
      GroupsBy(pending, groups, owners) && forall a :: a in pending ==> pending[a] in owners
  }

  /** Enter a group's aliases; an empty or repeated alias rejects the whole journal entry. */
  function EnterAliases(pending: Pending, aliases: seq<string>, held: PlanObject): Option<Pending>
    decreases |aliases|
  {
    if aliases == [] then Some(pending)
    else if aliases[0] == "" || aliases[0] in pending then None
    else EnterAliases(pending[aliases[0] := held], aliases[1..], held)
  }

  /** The pending map rebuilt by `import_resume_state`: one new object per group. */
  function Rebuilt(groups: seq<Group>): Option<Pending> {
    if groups == [] then Some(map[])
    else
      var n := |groups| - 1;
      match Rebuilt(groups[..n])
      case None => None
      case Some(pending) =>
        if groups[n].aliases == [] then None
        else EnterAliases(pending, groups[n].aliases, PlanObject(n, groups[n].plan))
  }

  /** The aliases of all groups, in order. */
  function AllAliases(groups: seq<Group>): seq<string> {
    if groups == [] then [] else AllAliases(groups[..|groups| - 1]) + groups[|groups| - 1].aliases
  }

  lemma {:induction false} AliasesEnterExactly(pending: Pending, aliases: seq<string>, held: PlanObject)
    ensures EnterAliases(pending, aliases, held).Some? <==>
      NoDuplicates(aliases) && "" !in aliases && forall a :: a in aliases ==> a !in pending
    ensures EnterAliases(pending, aliases, held).Some? ==>
      EnterAliases(pending, aliases, held).value.Keys == pending.Keys + (set a | a in aliases)
    decreases |aliases|
  {
    if aliases != [] {
      var rest := aliases[1..];
      assert aliases == [aliases[0]] + rest;
      AliasesEnterExactly(pending[aliases[0] := held], rest, held);
      if aliases[0] in rest {
        var j :| 0 <= j < |rest| && rest[j] == aliases[0];
        assert aliases[j + 1] == aliases[0];
      }
      forall i, j | 0 <= i < j < |rest| ensures NoDuplicates(aliases) ==> rest[i] != rest[j] {
        assert aliases[i + 1] == rest[i] && aliases[j + 1] == rest[j];
      }
    }
  }

  lemma NoDuplicatesBoth(a: seq<string>, b: seq<string>)
    ensures NoDuplicates(a + b) <==> NoDuplicates(a) && NoDuplicates(b) && forall x :: x in b ==> x !in a
  {
    var both := a + b;
    if NoDuplicates(both) {
      forall i, j | 0 <= i < j < |a| ensures a[i] != a[j] {
        assert both[i] == a[i] && both[j] == a[j];
      }
      forall i, j | 0 <= i < j < |b| ensures b[i] != b[j] {
        assert both[|a| + i] == b[i] && both[|a| + j] == b[j];
      }
      forall i, j | 0 <= i < |a| && 0 <= j < |b| ensures a[i] != b[j] {
        assert both[i] == a[i] && both[|a| + j] == b[j];
      }
    }
    if NoDuplicates(a) && NoDuplicates(b) && forall x :: x in b ==> x !in a {
      forall i, j | 0 <= i < j < |both| ensures both[i] != both[j] {
        assert i < |a| ==> both[i] in a;
        assert j >= |a| ==> both[j] in b;
      }
    }
  }

  /** A journal's groups are accepted if and only if every group has an alias and no alias is empty or occurs twice. */
  lemma {:induction false} GroupsAreAcceptedExactly(groups: seq<Group>)
    ensures Rebuilt(groups).Some? <==>
      && (forall g :: g in groups ==> g.aliases != [])
      && "" !in AllAliases(groups) && NoDuplicates(AllAliases(groups))
    ensures Rebuilt(groups).Some? ==> Rebuilt(groups).value.Keys == set a | a in AllAliases(groups)
  {
    if groups != [] {
      var n := |groups| - 1;
      var before, last := AllAliases(groups[..n]), groups[n].aliases;
      GroupsAreAcceptedExactly(groups[..n]);
      NoDuplicatesBoth(before, last);
      assert forall g :: g in groups <==> g in groups[..n] || g == groups[n];
      assert AllAliases(groups) == before + last;
      if Rebuilt(groups[..n]).Some? {
        AliasesEnterExactly(Rebuilt(groups[..n]).value, last, PlanObject(n, groups[n].plan));
      }
    }
  }

  /** The same aliases, the same plans behind them, and the same aliases sharing one object. */
  ghost predicate SameSharing(p: Pending, q: Pending) {
    && p.Keys == q.Keys
    && (forall a :: a in p ==> p[a].plan == q[a].plan)
    && (forall a, b :: a in p && b in p ==> (p[a] == p[b] <==> q[a] == q[b]))
  }

  lemma {:induction false} EnterAliasesSucceeds(pending: Pending, aliases: seq<string>, held: PlanObject)
    requires NoDuplicates(aliases) && "" !in aliases && forall a :: a in aliases ==> a !in pending
    ensures EnterAliases(pending, aliases, held).Some?
    ensures var q := EnterAliases(pending, aliases, held).value;
      && q.Keys == pending.Keys + (set a | a in aliases)
      && (forall a :: a in pending ==> q[a] == pending[a])
      && (forall a :: a in aliases ==> q[a] == held)
    decreases |aliases|
  {
    if aliases != [] {
      var first, rest := aliases[0], aliases[1..];
      assert forall a :: a in aliases <==> a == first || a in rest;
      assert first !in rest;
      EnterAliasesSucceeds(pending[first := held], rest, held);
    }
  }

  /** `q` holds exactly the aliases of `groups`, each leading to the object numbered after its group. */
  ghost predicate Holds(pending: Pending, groups: seq<Group>, owners: seq<PlanObject>, q: Pending) {
    && (forall a :: a in q <==> a in pending && pending[a] in owners)
    && (forall a, i :: 0 <= i < |groups| && a in groups[i].aliases ==> a in q && q[a] == PlanObject(i, groups[i].plan))
  }

  lemma OneMoreGroup(pending: Pending, groups: seq<Group>, owners: seq<PlanObject>, before: Pending, q: Pending)
    requires groups != [] && GroupsBy(pending, groups, owners)
    requires var n := |groups| - 1;
      && Holds(pending, groups[..n], owners[..n], before)
      && q.Keys == before.Keys + (set a | a in groups[n].aliases)
      && (forall a :: a in before ==> q[a] == before[a])
      && (forall a :: a in groups[n].aliases ==> q[a] == PlanObject(n, groups[n].plan))
    ensures Holds(pending, groups, owners, q)
  {
    var n := |groups| - 1;
    forall a, i | 0 <= i < |groups| && a in groups[i].aliases ensures a in q && q[a] == PlanObject(i, groups[i].plan) {
      if i < n {
        assert a in groups[..n][i].aliases;
      }
    }
    assert forall p :: p in owners <==> p in owners[..n] || p == owners[n];
  }

  lemma AliasesAreNew(pending: Pending, groups: seq<Group>, owners: seq<PlanObject>, before: Pending)
    requires groups != [] && GroupsBy(pending, groups, owners)
    requires var n := |groups| - 1; Holds(pending, groups[..n], owners[..n], before)
    ensures forall a :: a in groups[|groups| - 1].aliases ==> a !in before
  {
    var n := |groups| - 1;
    assert owners[n] !in owners[..n];
  }

  lemma {:induction false} RebuildsGroups(pending: Pending, groups: seq<Group>, owners: seq<PlanObject>)
    requires GroupsBy(pending, groups, owners) && "" !in pending
    ensures Rebuilt(groups).Some? && Holds(pending, groups, owners, Rebuilt(groups).value)
    decreases |groups|
  {
    if groups != [] {
      var n := |groups| - 1;
      assert GroupsBy(pending, groups[..n], owners[..n]);
      RebuildsGroups(pending, groups[..n], owners[..n]);
      var before, last := Rebuilt(groups[..n]).value, groups[n];
      AliasesAreNew(pending, groups, owners, before);
      EnterAliasesSucceeds(before, last.aliases, PlanObject(n, last.plan));
      OneMoreGroup(pending, groups, owners, before, Rebuilt(groups).value);
    }
  }

  /** Export then import restores the aliases, their plans and the way they share objects. */
  lemma RoundTrip(pending: Pending, groups: seq<Group>)
    requires IsExport(pending, groups) && "" !in pending
    ensures Rebuilt(groups).Some? && SameSharing(pending, Rebuilt(groups).value)
    ensures forall a :: a in Rebuilt(groups).value ==> Rebuilt(groups).value[a].serial < |groups|
  {
    var owners: seq<PlanObject> :| GroupsBy(pending, groups, owners)
        && forall a :: a in pending ==> pending[a] in owners;
    RebuildsGroups(pending, groups, owners);
    var q := Rebuilt(groups).value;
    forall a | a in pending ensures Placed(pending, groups, owners, q, a) {
      AliasIsPlaced(pending, groups, owners, a);
    }
    SharingFromPlacement(pending, groups, owners, q);
  }

  lemma AliasIsPlaced(pending: Pending, groups: seq<Group>, owners: seq<PlanObject>, a: string)
    requires GroupsBy(pending, groups, owners) && "" !in pending && a in pending && pending[a] in owners
    ensures Rebuilt(groups).Some? && Placed(pending, groups, owners, Rebuilt(groups).value, a)
  {
    RebuildsGroups(pending, groups, owners);
    var i :| 0 <= i < |owners| && owners[i] == pending[a];
    assert a in groups[i].aliases;
  }

  /** Alias `a` was rebuilt as the object of its group. */
  ghost predicate Placed(pending: Pending, groups: seq<Group>, owners: seq<PlanObject>, q: Pending, a: string)
    requires |groups| == |owners|
  {
    && a in pending && a in q
    && exists i :: 0 <= i < |groups| && owners[i] == pending[a] && q[a] == PlanObject(i, groups[i].plan)
  }

  lemma SharingFromPlacement(pending: Pending, groups: seq<Group>, owners: seq<PlanObject>, q: Pending)
    requires |groups| == |owners| && q.Keys == pending.Keys
    requires forall i, j :: 0 <= i < j < |owners| ==> owners[i] != owners[j]
    requires forall i :: 0 <= i < |groups| ==> groups[i].plan == owners[i].plan
    requires forall a :: a in pending ==> Placed(pending, groups, owners, q, a)
    ensures SameSharing(pending, q) && forall a :: a in q ==> q[a].serial < |groups|
  {
    forall a, b | a in pending && b in pending ensures pending[a] == pending[b] <==> q[a] == q[b] {
      assert Placed(pending, groups, owners, q, a) && Placed(pending, groups, owners, q, b);
    }
    forall a | a in pending ensures pending[a].plan == q[a].plan && q[a].serial < |groups| {
      assert Placed(pending, groups, owners, q, a);
    }
  }

  /** Aliases are never empty, so every reachable pending map survives the journal. */
  lemma {:induction false} ReachableAliasesNonEmpty(ops: seq<Op>)
    ensures "" !in Run(ops).pending
    decreases |ops|
  {
    if ops != [] {
      var before, op := ops[..|ops| - 1], ops[|ops| - 1];
      ReachableAliasesNonEmpty(before);
      if op.Stands? {
        match op.step
        case Proposal(plan, tickText) =>
          assert FallbackAlias(plan, tickText)[0] == 'p';
        case Feedback(acks, tick) =>
          PendingShrinks(Run(before), acks, {}, tick);
      }
    }
  }

  /** Every pending plan object was numbered by this agent. */
  ghost predicate Numbered(s: Tracker) {
    forall a :: a in s.pending ==> s.pending[a].serial < s.nextSerial
  }

  /** So it is in every run, whether or not proposals reuse pending keys. */
  lemma {:induction false} ReachableIsNumbered(ops: seq<Op>)
    ensures Numbered(Run(ops))
    decreases |ops|
  {
    if ops != [] {
      var before, op := ops[..|ops| - 1], ops[|ops| - 1];
      ReachableIsNumbered(before);
      match op {
        case Stands(step) =>
          if step.Feedback? {
            AcknowledgingKeepsNumbers(Run(before), step.acks, {}, step.tick);
          }
        case Undone(steps) =>
          TurnCountsResolutions(Run(before), steps);
      }
    }
  }

  lemma {:induction false} AcknowledgingKeepsNumbers(s: Tracker, acks: seq<Ack>, seen: set<Signature>, tick: int)
    requires Numbered(s)
    ensures Numbered(AcknowledgeAll(s, acks, seen, tick))
    decreases |acks|
  {
    if acks != [] {
      if Waits(acks[0]) || SignatureOf(acks[0]) in seen {
        AcknowledgingKeepsNumbers(s, acks[1..], seen, tick);
      } else {
        AcknowledgingKeepsNumbers(Acknowledge(s, acks[0], tick), acks[1..], seen + {SignatureOf(acks[0])}, tick);
      }
    }
  }

  lemma {:induction false} PendingShrinks(s: Tracker, acks: seq<Ack>, seen: set<Signature>, tick: int)
    ensures AcknowledgeAll(s, acks, seen, tick).pending.Keys <= s.pending.Keys
    decreases |acks|
  {
    if acks != [] {
      if Waits(acks[0]) || SignatureOf(acks[0]) in seen {
        PendingShrinks(s, acks[1..], seen, tick);
      } else {
        PendingShrinks(Acknowledge(s, acks[0], tick), acks[1..], seen + {SignatureOf(acks[0])}, tick);
      }
    }
  }

  // ---- A restored agent behaves like the original ----

  /** Equal up to the identity of the pending plan objects. */
  ghost predicate Same(s: Tracker, t: Tracker) {
    && SameSharing(s.pending, t.pending)
    && s.active == t.active && s.history == t.history
    && s.confirmed == t.confirmed && s.rejected == t.rejected && s.revisions == t.revisions
    && (forall a :: a in s.pending ==> s.pending[a].serial < s.nextSerial)
    && (forall a :: a in t.pending ==> t.pending[a].serial < t.nextSerial)
  }

  /** Alias `a` leads to the only pending plan of this id. */
  ghost predicate SoleBearer(pending: Pending, planId: string, a: string) {
    && a in pending && pending[a].plan.planId == planId
    && forall b :: b in pending && pending[b].plan.planId == planId ==> pending[b] == pending[a]
  }

  lemma SingleNamed(pending: Pending, planId: string)
    ensures |Named(pending, planId)| == 1 <==> exists a :: SoleBearer(pending, planId, a)
    ensures forall a :: SoleBearer(pending, planId, a) ==> Named(pending, planId) == {pending[a]}
  {
    forall a | SoleBearer(pending, planId, a) ensures Named(pending, planId) == {pending[a]} {
      assert pending[a] in Named(pending, planId);
    }
    if |Named(pending, planId)| == 1 {
      var p :| p in Named(pending, planId);
      SingletonOf(Named(pending, planId), p);
      var a :| a in pending && pending[a] == p;
      forall b | b in pending && pending[b].plan.planId == planId ensures pending[b] == pending[a] {
        assert pending[b] in Named(pending, planId);
      }
      assert SoleBearer(pending, planId, a);
    }
  }

  lemma SameSoleBearer(p: Pending, q: Pending, planId: string, a: string)
    requires SameSharing(p, q)
    ensures SoleBearer(p, planId, a) <==> SoleBearer(q, planId, a)
  {
  }

  /** Both sides find the object behind a common alias, or neither finds one. */
  lemma SameLookup(p: Pending, q: Pending, ack: Ack)
    requires SameSharing(p, q)
    ensures Lookup(p, ack).Some? <==> Lookup(q, ack).Some?
    ensures Lookup(p, ack).Some? ==>
      exists a :: a in p && p[a] == Lookup(p, ack).value && q[a] == Lookup(q, ack).value
  {
    if (ack.callId != "" && ack.callId in p) || (ack.idempotencyKey != "" && ack.idempotencyKey in p) {
    } else if !Keyed(ack) && ack.planId != "" {
      SingleNamed(p, ack.planId);
      SingleNamed(q, ack.planId);
      forall a ensures SoleBearer(p, ack.planId, a) <==> SoleBearer(q, ack.planId, a) {
        SameSoleBearer(p, q, ack.planId, a);
      }
      if |Named(p, ack.planId)| == 1 {
        var a :| SoleBearer(p, ack.planId, a);
        assert p[a] == Lookup(p, ack).value && q[a] == Lookup(q, ack).value;
      }
    }
  }

  lemma SameAcknowledge(s: Tracker, t: Tracker, ack: Ack, tick: int)
    requires Same(s, t)
    ensures Same(Acknowledge(s, ack, tick), Acknowledge(t, ack, tick))
  {
    SameLookup(s.pending, t.pending, ack);
    if Lookup(s.pending, ack).Some? {
      var a :| a in s.pending && s.pending[a] == Lookup(s.pending, ack).value
        && t.pending[a] == Lookup(t.pending, ack).value;
    }
  }

  lemma {:induction false} SameAcknowledgeAll(s: Tracker, t: Tracker, acks: seq<Ack>, seen: set<Signature>, tick: int)
    requires Same(s, t)
    ensures Same(AcknowledgeAll(s, acks, seen, tick), AcknowledgeAll(t, acks, seen, tick))
    decreases |acks|
  {
    if acks != [] {
      if Waits(acks[0]) || SignatureOf(acks[0]) in seen {
        SameAcknowledgeAll(s, t, acks[1..], seen, tick);
      } else {
        SameAcknowledge(s, t, acks[0], tick);
        SameAcknowledgeAll(Acknowledge(s, acks[0], tick), Acknowledge(t, acks[0], tick), acks[1..],
                           seen + {SignatureOf(acks[0])}, tick);
      }
    }
  }

  lemma SameTake(s: Tracker, t: Tracker, step: Step)
    requires Same(s, t)
    ensures Same(Take(s, step), Take(t, step))
  {
    if step.Feedback? {
      SameAcknowledgeAll(s, t, step.acks, {}, step.tick);
    }
  }

  lemma {:induction false} SameTurn(s: Tracker, t: Tracker, steps: seq<Step>)
    requires Same(s, t)
    ensures Same(TakeAll(s, steps), TakeAll(t, steps))
    decreases |steps|
  {
    if steps != [] {
      SameTurn(s, t, steps[..|steps| - 1]);
      SameTake(TakeAll(s, steps[..|steps| - 1]), TakeAll(t, steps[..|steps| - 1]), steps[|steps| - 1]);
    }
  }

  /** Two agents that agree still agree after the same turn was rolled back in both. */
  lemma SameRolledBack(s: Tracker, t: Tracker, steps: seq<Step>)
    requires Same(s, t)
    ensures Same(RolledBack(s, TakeAll(s, steps)), RolledBack(t, TakeAll(t, steps)))
  {
    SameTurn(s, t, steps);
    TurnCountsResolutions(s, steps);
    TurnCountsResolutions(t, steps);
  }

  ghost function RunFrom(s: Tracker, ops: seq<Op>): Tracker {
    if ops == [] then s else Apply(RunFrom(s, ops[..|ops| - 1]), ops[|ops| - 1])
  }

  /** Whatever is proposed and acknowledged afterwards, the restored agent confirms, rejects and supersedes the
      same plans and forgets the same aliases as the original would have. */
  lemma {:induction false} RestoredAgentBehavesTheSame(s: Tracker, t: Tracker, ops: seq<Op>)
    requires Same(s, t)
    ensures Same(RunFrom(s, ops), RunFrom(t, ops))
    decreases |ops|
  {
    if ops != [] {
      var before, op := ops[..|ops| - 1], ops[|ops| - 1];
      RestoredAgentBehavesTheSame(s, t, before);
      match op
      case Stands(step) => SameTake(RunFrom(s, before), RunFrom(t, before), step);
      case Undone(steps) => SameRolledBack(RunFrom(s, before), RunFrom(t, before), steps);
    }
  }

  /** `t` is `s` as an export of its pending plans rebuilds it. */
  ghost predicate RestoredFrom(s: Tracker, groups: seq<Group>, t: Tracker) {
    && IsExport(s.pending, groups)
    && Rebuilt(groups) == Some(t.pending) && t.nextSerial == |groups|
    && t.active == s.active && t.history == s.history
    && t.confirmed == s.confirmed && t.rejected == s.rejected && t.revisions == s.revisions
  }

  lemma RestoredIsSame(s: Tracker, groups: seq<Group>, t: Tracker)
    requires Numbered(s) && "" !in s.pending && RestoredFrom(s, groups, t)
    ensures Same(s, t)
  {
    RoundTrip(s.pending, groups);
  }

  /** End to end: a reachable agent exported, imported elsewhere and driven on is indistinguishable from one that
      was never interrupted. */
  lemma JournalIsTransparent(past: seq<Op>, groups: seq<Group>, restored: Tracker, future: seq<Op>)
    requires RestoredFrom(Run(past), groups, restored)
    ensures Same(RunFrom(Run(past), future), RunFrom(restored, future))
  {
    var s := Run(past);
    ReachableIsNumbered(past);
    ReachableAliasesNonEmpty(past);
    RestoredIsSame(s, groups, restored);
    RestoredAgentBehavesTheSame(s, restored, future);
  }

  // ---- The agent object ----

  /** A journal entry. `bindingMatches` and `fieldsWellFormed` stand for the schema, digest and type checks. */
  datatype Journal = Journal(bindingMatches: bool, fieldsWellFormed: bool, active: Option<Resolved>,
                             history: seq<Resolved>, confirmed: nat, rejected: nat, revisions: nat,
                             groups: seq<Group>)

  datatype PlanSnapshot = PlanSnapshot(pending: Pending, active: Option<Resolved>, history: seq<Resolved>)

  function SnapshotOf(s: Tracker): PlanSnapshot {
    PlanSnapshot(s.pending, s.active, s.history)
  }

  class PlanMemory {
    var pending: Pending
    var active: Option<Resolved>
    var history: seq<Resolved>
    var confirmed: nat
    var rejected: nat
    var revisions: nat
    ghost var proposed: nat
    ghost var log: seq<Resolved>
    var serials: nat

    ghost function Model(): Tracker
      reads this
    {
      Tracker(pending, active, history, confirmed, rejected, revisions, serials, proposed, log)
    }

    constructor ()
      ensures Model() == INITIAL
    {
      pending, active, history, confirmed, rejected, revisions := map[], None, [], 0, 0, 0;
      serials, proposed, log := 0, 0, [];
    }

    /** The plan part of `snapshot_behavioral_state`, and of what `deliberate` saves. */
    method TakeSnapshot() returns (snapshot: PlanSnapshot)
      ensures snapshot == SnapshotOf(Model())
    {
      snapshot := PlanSnapshot(pending, active, history);
    }

    /** Roll a turn back that began in `before`: the statistics stay as they are. */
    method RestoreSnapshot(snapshot: PlanSnapshot, ghost before: Tracker)
      requires snapshot == SnapshotOf(before)
      modifies this
      ensures Model() == RolledBack(before, old(Model()))
    {
      pending, active, history := snapshot.pending, snapshot.active, snapshot.history;
      proposed, log := before.proposed, before.log;
    }

    /** `_record_pending_plans` for one `commit_to_plan` call. */
    method RecordPendingPlan(plan: Plan, tickText: string)
      modifies this
      ensures Model() == Propose(old(Model()), plan, tickText)
    {
      var held, todo := PlanObject(serials, plan), Aliases(plan, tickText);
      ghost var all := todo;
      while todo != {}
        invariant todo <= all == Aliases(plan, tickText)
        invariant Model() == old(Model()).(pending := old(pending) + map a | a in all - todo :: held)
        decreases todo
      {
        var a :| a in todo;
        pending := pending[a := held];
        todo := todo - {a};
      }
      assert all - {} == all;
      serials, proposed := serials + 1, proposed + 1;
    }

    method FindPlan(ack: Ack) returns (found: Option<PlanObject>)
      ensures found == Lookup(pending, ack)
    {
      found := None;
      if ack.callId != "" && ack.callId in pending {
        return Some(pending[ack.callId]);
      }
      if ack.idempotencyKey != "" && ack.idempotencyKey in pending {
        return Some(pending[ack.idempotencyKey]);
      }
      if !Keyed(ack) && ack.planId != "" {
        var candidates := Named(pending, ack.planId);
        if |candidates| == 1 {
          var p :| p in candidates;
          SingletonOf(candidates, p);
          found := Some(p);
        }
      }
    }

    /** Delete every alias of one plan object. */
    method ForgetAliases(held: PlanObject)
      modifies this`pending
      ensures pending == Forget(old(pending), held)
    {
      var todo := pending.Keys;
      while todo != {}
        invariant todo <= old(pending).Keys
        invariant pending == map a | a in old(pending) && (a in todo || old(pending)[a] != held) :: old(pending)[a]
        decreases todo
      {
        var a :| a in todo;
        if pending[a] == held {
          pending := pending - {a};
        }
        todo := todo - {a};
      }
    }

    /** Settle one matched plan: forget it, then confirm it as the active plan or log its rejection. */
    method ResolvePlan(held: PlanObject, ack: Ack, tick: int)
      modifies this
      ensures Model() == Resolve(old(Model()), ack, held, tick)
    {
      ForgetAliases(held);
      if ack.ok {
        if active.Some? {
          history := history + [Supersede(active.value, tick)];
          log := log + [Supersede(active.value, tick)];
        }
        active := Some(Resolved(held.plan, Active, tick));
        confirmed := confirmed + 1;
        if held.plan.replacesPlanId != "" {
          revisions := revisions + 1;
        }
      } else {
        var row := Resolved(held.plan, Rejected(ack.errorCode), tick);
        history, log, rejected := history + [row], log + [row], rejected + 1;
      }
    }

    /** `_ingest_plan_feedback`. */
    method IngestPlanFeedback(acks: seq<Ack>, tick: int)
      modifies this
      ensures Model() == Ingest(old(Model()), acks, tick)
    {
      var seen: set<Signature> := {};
      for i := 0 to |acks|
        invariant AcknowledgeAll(Model(), acks[i..], seen, tick) == AcknowledgeAll(old(Model()), acks, {}, tick)
      {
        var ack := acks[i];
        assert acks[i..][1..] == acks[i + 1..];
        if Waits(ack) || SignatureOf(ack) in seen {
          continue;
        }
        seen := seen + {SignatureOf(ack)};
        var plan := FindPlan(ack);
        if plan.None? || !Agrees(ack, plan.value.plan) {
          continue;
        }
        ResolvePlan(plan.value, ack, tick);
      }
      assert acks[|acks|..] == [];
      if |history| > HISTORY_LIMIT {
        history := history[|history| - HISTORY_LIMIT..];
      }
    }

    /** The grouping loop of `export_resume_state`, over the aliases in whatever order they are held. */
    method ExportPending() returns (groups: seq<Group>)
      ensures IsExport(pending, groups)
    {
      groups := [];
      var owners: seq<PlanObject> := [];
      var todo := pending.Keys;
      ghost var done: Pending := map[];
      while todo != {}
        invariant todo <= pending.Keys
        invariant done == map a | a in pending && a !in todo :: pending[a]
        invariant GroupsBy(done, groups, owners) && forall a :: a in done ==> done[a] in owners
        decreases todo
      {
        var a :| a in todo;
        var held, k := pending[a], 0;
        while k < |owners| && owners[k] != held
          invariant k <= |owners| && forall j :: 0 <= j < k ==> owners[j] != held
        {
          k := k + 1;
        }
        ghost var wider := done[a := held];
        if k == |owners| {
          NewGroup(done, groups, owners, a, held);
          owners, groups := owners + [held], groups + [Group([a], held.plan)];
        } else {
          JoinGroup(done, groups, owners, a, k);
          groups := groups[k := groups[k].(aliases := groups[k].aliases + [a])];
        }
        todo := todo - {a};
        done := wider;
      }
      assert done == pending;
    }

    /** The pending-plan part of `import_resume_state`: everything is validated before anything is written. */
    method ImportJournal(journal: Journal) returns (ok: bool)
      modifies this
      ensures ok <==> journal.bindingMatches && journal.fieldsWellFormed && Rebuilt(journal.groups).Some?
      ensures !ok ==> Model() == old(Model())
      ensures ok ==>
        && Some(pending) == Rebuilt(journal.groups) && serials == |journal.groups|
        && active == journal.active && history == journal.history
        && confirmed == journal.confirmed && rejected == journal.rejected && revisions == journal.revisions
    {
      if !journal.bindingMatches || !journal.fieldsWellFormed {
        return false;
      }
      var groups := journal.groups;
      var rebuilt: Pending := map[];
      for i := 0 to |groups|
        invariant Rebuilt(groups[..i]) == Some(rebuilt)
      {
        assert groups[..i + 1][..i] == groups[..i];
        if groups[i].aliases == [] {
          RejectedPrefix(groups, i + 1);
          return false;
        }
        var aliases := groups[i].aliases;
        var entered := rebuilt;
        for j := 0 to |aliases|
          invariant EnterAliases(entered, aliases[j..], PlanObject(i, groups[i].plan)) ==
                    EnterAliases(rebuilt, aliases, PlanObject(i, groups[i].plan))
        {
          assert aliases[j..][1..] == aliases[j + 1..];
          if aliases[j] == "" || aliases[j] in entered {
            RejectedPrefix(groups, i + 1);
            return false;
          }
          entered := entered[aliases[j] := PlanObject(i, groups[i].plan)];
        }
        rebuilt := entered;
      }
      assert groups[..|groups|] == groups;
      pending, serials := rebuilt, |groups|;
      active, history := journal.active, journal.history;
      confirmed, rejected, revisions := journal.confirmed, journal.rejected, journal.revisions;
      ok := true;
    }
  }

  lemma {:induction false} RejectedPrefix(groups: seq<Group>, n: nat)
    requires n <= |groups| && Rebuilt(groups[..n]).None?
    ensures Rebuilt(groups).None?
    decreases |groups| - n
  {
    if n == |groups| {
      assert groups[..n] == groups;
    } else {
      assert groups[..n + 1][..n] == groups[..n];
      RejectedPrefix(groups, n + 1);
    }
  }

  lemma NewGroup(done: Pending, groups: seq<Group>, owners: seq<PlanObject>, a: string, held: PlanObject)
    requires GroupsBy(done, groups, owners) && a !in done && held !in owners
    requires forall b :: b in done ==> done[b] in owners
    ensures GroupsBy(done[a := held], groups + [Group([a], held.plan)], owners + [held])
  {
  }

  lemma JoinGroup(done: Pending, groups: seq<Group>, owners: seq<PlanObject>, a: string, k: nat)
    requires GroupsBy(done, groups, owners) && a !in done && k < |owners|
    ensures GroupsBy(done[a := owners[k]], groups[k := groups[k].(aliases := groups[k].aliases + [a])], owners)
  {
  }
}
