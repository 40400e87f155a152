/** Plan memory of baselines/llm_agent.py: `_record_pending_plans`, `_ingest_plan_feedback`, and the pending-plan
    part of `export_resume_state` / `import_resume_state`. One plan object sits behind several aliases; `is` on
    those objects is modelled by an object number. */
module PlanLifecycle {
  import opened Common

  const HISTORY_LIMIT := 12

  datatype Plan = Plan(planId: string, callId: string, idempotencyKey: string, proposedTick: int,
                       replacesPlanId: string, details: string)

  /** A plan dict held by the agent; two are the same object exactly when they are equal. */
  datatype PlanObject = PlanObject(serial: nat, plan: Plan)

  datatype Status = Active | Superseded(tick: int) | Rejected(errorCode: string)
  datatype Resolved = Resolved(plan: Plan, status: Status, confirmedTick: int)

  type Pending = map<string, PlanObject>

  /** Agent fields, plus two history variables: how many plans were proposed, and every row ever put in the
      history. */
  datatype Tracker = Tracker(pending: Pending, active: Option<Resolved>, history: seq<Resolved>, confirmed: nat,
                             rejected: nat, revisions: nat, nextSerial: nat, proposed: nat, log: seq<Resolved>)

  const INITIAL := Tracker(map[], None, [], 0, 0, 0, 0, 0, [])

  // ---- Proposals ----

  /** `tick` distinguishes plans proposed without any key. */
  function FallbackAlias(plan: Plan, tickText: string): string {
    "plan:" + plan.planId + ":" + tickText
  }

  function Aliases(plan: Plan, tickText: string): (a: set<string>)
    ensures a != {}
  {
    var keys := (if plan.callId != "" then {plan.callId} else {})
                + (if plan.idempotencyKey != "" then {plan.idempotencyKey} else {});
    if keys == {} then {FallbackAlias(plan, tickText)} else keys
  }

  /** A plan is entered under its call id and its idempotency key, as far as it has them, or else under its own id and
      the tick. */
  lemma AliasesExactly(plan: Plan, tickText: string, a: string)
    ensures a in Aliases(plan, tickText) <==>
      || (a != "" && (a == plan.callId || a == plan.idempotencyKey))
      || (plan.callId == "" && plan.idempotencyKey == "" && a == "plan:" + plan.planId + ":" + tickText)
  {
  }

  function Objects(pending: Pending): set<PlanObject> {
    set a | a in pending :: pending[a]
  }

  /** One `commit_to_plan` call is recorded under each of its aliases. */
  function Propose(s: Tracker, plan: Plan, tickText: string): Tracker {
    var held := PlanObject(s.nextSerial, plan);
    s.(pending := s.pending + map a | a in Aliases(plan, tickText) :: held,
       nextSerial := s.nextSerial + 1, proposed := s.proposed + 1)
  }

  // ---- Acknowledgements ----

  /** A `commit_to_plan` row of the observation; `pendingStatus` is a payload `_status` of "pending". */
  datatype Ack = Ack(ok: bool, pendingStatus: bool, callId: string, idempotencyKey: string, planId: string,
                     errorCode: string)
  datatype Signature = Signature(callId: string, idempotencyKey: string, planId: string)

  function SignatureOf(ack: Ack): Signature {
    Signature(ack.callId, ack.idempotencyKey, ack.planId)
  }

  predicate Keyed(ack: Ack) {
    ack.callId != "" || ack.idempotencyKey != ""
  }

  function Named(pending: Pending, planId: string): set<PlanObject> {
    set p | p in Objects(pending) && p.plan.planId == planId
  }

  /** The plan an acknowledgement points at, before its fields are compared. */
  ghost function Lookup(pending: Pending, ack: Ack): Option<PlanObject> {
    if ack.callId != "" && ack.callId in pending then Some(pending[ack.callId])
    else if ack.idempotencyKey != "" && ack.idempotencyKey in pending then Some(pending[ack.idempotencyKey])
    else if !Keyed(ack) && ack.planId != "" && |Named(pending, ack.planId)| == 1 then
      var p :| p in Named(pending, ack.planId);
      Some(p)
    else None
  }

  /** Every field the acknowledgement provides is the plan's own. */
  predicate Agrees(ack: Ack, plan: Plan) {
    && (ack.callId != "" ==> ack.callId == plan.callId)
    && (ack.idempotencyKey != "" ==> ack.idempotencyKey == plan.idempotencyKey)
    && (ack.planId != "" ==> ack.planId == plan.planId)
  }

  predicate Waits(ack: Ack) {
    ack.ok && ack.pendingStatus
  }

  ghost predicate Resolves(pending: Pending, ack: Ack) {
    Lookup(pending, ack).Some? && Agrees(ack, Lookup(pending, ack).value.plan)
  }

  function Forget(pending: Pending, held: PlanObject): Pending {
    map a | a in pending && pending[a] != held :: pending[a]
  }

  function Supersede(r: Resolved, tick: int): Resolved {
    r.(status := Superseded(tick))
  }

  /** What resolving `held` does, before the history is cut. */
  function Resolve(s: Tracker, ack: Ack, held: PlanObject, tick: int): Tracker {
    var left := s.(pending := Forget(s.pending, held));
    if ack.ok then
      var retired := if s.active.Some? then [Supersede(s.active.value, tick)] else [];
      left.(active := Some(Resolved(held.plan, Active, tick)), history := s.history + retired,
            log := s.log + retired, confirmed := s.confirmed + 1,
            revisions := if held.plan.replacesPlanId != "" then s.revisions + 1 else s.revisions)
    else
      var row := Resolved(held.plan, Rejected(ack.errorCode), tick);
      left.(history := s.history + [row], log := s.log + [row], rejected := s.rejected + 1)
  }

  ghost function Acknowledge(s: Tracker, ack: Ack, tick: int): Tracker {
    if Resolves(s.pending, ack) then Resolve(s, ack, Lookup(s.pending, ack).value, tick) else s
  }

  /** The loop over the observation's rows: waiting rows and repeated signatures are passed over. */
  ghost function AcknowledgeAll(s: Tracker, acks: seq<Ack>, seen: set<Signature>, tick: int): Tracker
    decreases |acks|
  {
    if acks == [] then s
    else if Waits(acks[0]) || SignatureOf(acks[0]) in seen then AcknowledgeAll(s, acks[1..], seen, tick)
    else AcknowledgeAll(Acknowledge(s, acks[0], tick), acks[1..], seen + {SignatureOf(acks[0])}, tick)
  }

  function CutHistory(s: Tracker): Tracker {
    s.(history := LastN(s.history, HISTORY_LIMIT))
  }

  ghost function Ingest(s: Tracker, acks: seq<Ack>, tick: int): Tracker {
    CutHistory(AcknowledgeAll(s, acks, {}, tick))
  }

  // ---- Invariant over every run ----

  /** Aliases of one pending plan all lead to it, under the key fields it carries. */
  ghost predicate OwnsAliases(pending: Pending) {
    forall a :: a in pending ==>
      var plan := pending[a].plan;
      && (plan.callId != "" ==> plan.callId in pending && pending[plan.callId] == pending[a])
      && (plan.idempotencyKey != "" ==> plan.idempotencyKey in pending && pending[plan.idempotencyKey] == pending[a])
      && (plan.callId != "" || plan.idempotencyKey != "" ==> a == plan.callId || a == plan.idempotencyKey)
  }

  ghost predicate Owned(s: Tracker) {
    OwnsAliases(s.pending) && forall a :: a in s.pending ==> s.pending[a].serial < s.nextSerial
  }

  /** The counters balance but for `undone` resolutions, which they count although the plans are as before. */
  ghost predicate Valid(s: Tracker, undone: nat) {
    && Owned(s)
    && s.proposed + undone == |Objects(s.pending)| + s.confirmed + s.rejected
    && |s.log| + (if s.active.Some? then 1 else 0) + undone == s.confirmed + s.rejected
  }

  ghost predicate Settled(s: Tracker) {
    Owned(s) && s.history == LastN(s.log, HISTORY_LIMIT)
  }

  lemma ForgetRemovesOne(pending: Pending, held: PlanObject)
    requires held in Objects(pending)
    ensures Objects(Forget(pending, held)) == Objects(pending) - {held}
    ensures |Objects(Forget(pending, held))| == |Objects(pending)| - 1
  {
    var left := Forget(pending, held);
    forall p | p in Objects(pending) - {held} ensures p in Objects(left) {
      var a :| a in pending && pending[a] == p;
      assert a in left;
    }
    assert Objects(left) == Objects(pending) - {held};
  }

  lemma LookupIsPending(pending: Pending, ack: Ack)
    requires Lookup(pending, ack).Some?
    ensures Lookup(pending, ack).value in Objects(pending)
  {
    var p := Lookup(pending, ack).value;
    if ack.callId != "" && ack.callId in pending {
    } else if ack.idempotencyKey != "" && ack.idempotencyKey in pending {
    } else {
      assert p in Named(pending, ack.planId);
    }
  }

  /** Fresh keys: no alias of the new plan is pending yet. The counts then stay balanced. */
  lemma ProposeKeepsValid(s: Tracker, plan: Plan, tickText: string, undone: nat)
    requires Valid(s, undone) && Aliases(plan, tickText) !! s.pending.Keys
    ensures Valid(Propose(s, plan, tickText), undone)
  {
    var t, held := Propose(s, plan, tickText), PlanObject(s.nextSerial, plan);
    ProposeKeepsAliases(s, plan, tickText);
    ObjectsAfterPropose(s, plan, tickText);
    assert Surviving(s.pending, Aliases(plan, tickText)) == Objects(s.pending);
    assert held !in Objects(s.pending);
  }

  lemma ProposeKeepsAliases(s: Tracker, plan: Plan, tickText: string)
    requires OwnsAliases(s.pending) && Aliases(plan, tickText) !! s.pending.Keys
    ensures OwnsAliases(Propose(s, plan, tickText).pending)
  {
    var t, names := Propose(s, plan, tickText), Aliases(plan, tickText);
    forall a | a in s.pending ensures a in t.pending && t.pending[a] == s.pending[a] {
      assert a !in names;
    }
  }

  /** Without freshness, a plan whose every alias is taken over is lost to the accounting; the balance survives a
      proposal exactly when none is. */
  lemma BalanceAfterPropose(s: Tracker, plan: Plan, tickText: string, undone: nat)
    requires Valid(s, undone)
    ensures var t := Propose(s, plan, tickText);
      t.proposed + undone == |Objects(t.pending)| + t.confirmed + t.rejected <==>
      forall p :: p in Objects(s.pending) ==>
        exists a :: a in s.pending && s.pending[a] == p && a !in Aliases(plan, tickText)
  {
    var t, held := Propose(s, plan, tickText), PlanObject(s.nextSerial, plan);
    var kept := Surviving(s.pending, Aliases(plan, tickText));
    ObjectsAfterPropose(s, plan, tickText);
    assert held !in kept && kept <= Objects(s.pending);
    assert |Objects(t.pending)| == |kept| + 1;
    if kept != Objects(s.pending) {
      ProperSubsetSmaller(kept, Objects(s.pending));
      var p :| p in Objects(s.pending) && p !in kept;
    }
  }

  /** Pending plans that keep an alias outside `taken`. */
  function Surviving(pending: Pending, taken: set<string>): set<PlanObject> {
    set a | a in pending && a !in taken :: pending[a]
  }

  lemma ObjectsAfterPropose(s: Tracker, plan: Plan, tickText: string)
    ensures Objects(Propose(s, plan, tickText).pending) ==
            Surviving(s.pending, Aliases(plan, tickText)) + {PlanObject(s.nextSerial, plan)}
  {
    var t, held := Propose(s, plan, tickText), PlanObject(s.nextSerial, plan);
    var taken := Aliases(plan, tickText);
    var first :| first in taken;
    assert t.pending[first] == held;
    forall p | p in Surviving(s.pending, taken) ensures p in Objects(t.pending) {
      var a :| a in s.pending && a !in taken && s.pending[a] == p;
      assert t.pending[a] == p;
    }
  }

  lemma SingletonOf<T>(s: set<T>, x: T)
    requires |s| == 1 && x in s
    ensures s == {x}
  {
    assert |s - {x}| == 0;
    assert s == {x} + (s - {x});
  }

  lemma ProperSubsetSmaller<T>(a: set<T>, b: set<T>)
    requires a < b
    ensures |a| < |b|
  {
    assert b == a + (b - a);
    assert |b - a| > 0;
  }

  lemma AcknowledgeKeepsOwned(s: Tracker, ack: Ack, tick: int)
    requires Owned(s)
    ensures Owned(Acknowledge(s, ack, tick))
  {
  }

  lemma AcknowledgeKeepsValid(s: Tracker, ack: Ack, tick: int, undone: nat)
    requires Valid(s, undone)
    ensures Valid(Acknowledge(s, ack, tick), undone)
  {
    AcknowledgeKeepsOwned(s, ack, tick);
    if Resolves(s.pending, ack) {
      LookupIsPending(s.pending, ack);
      ForgetRemovesOne(s.pending, Lookup(s.pending, ack).value);
    }
  }

  /** `t` is `s` after further resolutions: rows were only added, the same ones to history and log. */
  ghost predicate Extends(s: Tracker, t: Tracker) {
    && s.log <= t.log && t.history == s.history + t.log[|s.log|..]
    && s.confirmed <= t.confirmed && s.rejected <= t.rejected && t.proposed == s.proposed
  }

  lemma ExtendsTransitive(s: Tracker, t: Tracker, u: Tracker)
    requires Extends(s, t) && Extends(t, u)
    ensures Extends(s, u) && u.log[|s.log|..] == t.log[|s.log|..] + u.log[|t.log|..]
  {
  }

  lemma AcknowledgeExtends(s: Tracker, ack: Ack, tick: int)
    ensures Extends(s, Acknowledge(s, ack, tick))
  {
  }

  lemma {:induction false} AcknowledgeAllExtends(s: Tracker, acks: seq<Ack>, seen: set<Signature>, tick: int)
    ensures Extends(s, AcknowledgeAll(s, acks, seen, tick))
    decreases |acks|
  {
    if acks != [] {
      if Waits(acks[0]) || SignatureOf(acks[0]) in seen {
        AcknowledgeAllExtends(s, acks[1..], seen, tick);
      } else {
        var m := Acknowledge(s, acks[0], tick);
        AcknowledgeExtends(s, acks[0], tick);
        AcknowledgeAllExtends(m, acks[1..], seen + {SignatureOf(acks[0])}, tick);
        ExtendsTransitive(s, m, AcknowledgeAll(s, acks, seen, tick));
      }
    }
  }

  /** Ingestion preserves the balance: proposed plans are the distinct pending ones plus those confirmed or
      rejected, and every resolved plan is the active one or one row of the log. */
  lemma {:induction false} AcknowledgeAllKeepsValid(s: Tracker, acks: seq<Ack>, seen: set<Signature>, tick: int,
                                                    undone: nat)
    requires Valid(s, undone)
    ensures Valid(AcknowledgeAll(s, acks, seen, tick), undone)
    decreases |acks|
  {
    if acks != [] {
      if Waits(acks[0]) || SignatureOf(acks[0]) in seen {
        AcknowledgeAllKeepsValid(s, acks[1..], seen, tick, undone);
      } else {
        AcknowledgeKeepsValid(s, acks[0], tick, undone);
        AcknowledgeAllKeepsValid(Acknowledge(s, acks[0], tick), acks[1..], seen + {SignatureOf(acks[0])}, tick, undone);
      }
    }
  }

  lemma {:induction false} AcknowledgeAllKeepsOwned(s: Tracker, acks: seq<Ack>, seen: set<Signature>, tick: int)
    requires Owned(s)
    ensures Owned(AcknowledgeAll(s, acks, seen, tick))
    decreases |acks|
  {
    if acks != [] {
      if Waits(acks[0]) || SignatureOf(acks[0]) in seen {
        AcknowledgeAllKeepsOwned(s, acks[1..], seen, tick);
      } else {
        AcknowledgeKeepsOwned(s, acks[0], tick);
        AcknowledgeAllKeepsOwned(Acknowledge(s, acks[0], tick), acks[1..], seen + {SignatureOf(acks[0])}, tick);
      }
    }
  }

  lemma IngestKeepsHistory(s: Tracker, acks: seq<Ack>, tick: int)
    requires s.history == LastN(s.log, HISTORY_LIMIT)
    ensures var t := Ingest(s, acks, tick); s.log <= t.log && t.history == LastN(t.log, HISTORY_LIMIT)
  {
    AcknowledgeAllExtends(s, acks, {}, tick);
    var t := AcknowledgeAll(s, acks, {}, tick);
    assert t.log == s.log + t.log[|s.log|..];
    LastOfExtension(s.log, t.log[|s.log|..], HISTORY_LIMIT);
  }

  lemma IngestKeepsSettled(s: Tracker, acks: seq<Ack>, tick: int)
    requires Settled(s)
    ensures Settled(Ingest(s, acks, tick)) && Ingest(s, acks, tick).proposed == s.proposed
  {
    AcknowledgeAllKeepsOwned(s, acks, {}, tick);
    AcknowledgeAllExtends(s, acks, {}, tick);
    IngestKeepsHistory(s, acks, tick);
  }

  lemma LastOfExtension<T>(a: seq<T>, b: seq<T>, n: nat)
    ensures LastN(LastN(a, n) + b, n) == LastN(a + b, n)
  {
  }

  // ---- What feedback decides ----

  /** An acknowledgement that settles the plan `held`. */
  datatype Decision = Decision(ack: Ack, held: PlanObject, tick: int)

  predicate SameKeys(a: Ack, b: Ack) {
    a.callId == b.callId && a.idempotencyKey == b.idempotencyKey && a.planId == b.planId
  }

  /** Row `n` is looked at: it does not report an accepted but still pending call, and no earlier row that was looked at
      has its three keys. */
  ghost predicate Considered(acks: seq<Ack>, n: nat) {
    && n < |acks| && !(acks[n].ok && acks[n].pendingStatus)
    && forall m :: 0 <= m < n && SameKeys(acks[m], acks[n]) ==> acks[m].ok && acks[m].pendingStatus
  }

  /** The aliases of plans not yet decided. */
  ghost function Left(pending: Pending, ds: seq<Decision>): Pending {
    map a | a in pending && (forall d :: d in ds ==> d.held != pending[a]) :: pending[a]
  }

  /** The rows of an observation that settle a plan, each with the plan it settles. */
  ghost function Decisions(pending: Pending, acks: seq<Ack>, tick: int): seq<Decision> {
    if acks == [] then []
    else
      var n := |acks| - 1;
      var before := Decisions(pending, acks[..n], tick);
      var left := Left(pending, before);
      if Considered(acks, n) && Resolves(left, acks[n])
      then before + [Decision(acks[n], Lookup(left, acks[n]).value, tick)] else before
  }

  predicate Confirms(d: Decision) {
    d.ack.ok
  }

  predicate Rejects(d: Decision) {
    !d.ack.ok
  }

  predicate Revises(d: Decision) {
    d.ack.ok && d.held.plan.replacesPlanId != ""
  }

  function Tally(ds: seq<Decision>, p: Decision -> bool): nat {
    if ds == [] then 0 else Tally(ds[..|ds| - 1], p) + if p(ds[|ds| - 1]) then 1 else 0
  }

  /** The plan confirmed last is active. */
  function ActiveAfter(active: Option<Resolved>, ds: seq<Decision>): Option<Resolved> {
    if ds == [] then active
    else
      var last := ds[|ds| - 1];
      if last.ack.ok then Some(Resolved(last.held.plan, Active, last.tick)) else ActiveAfter(active, ds[..|ds| - 1])
  }

  /** The rows that decisions put in the history: a confirmation the plan it replaces, as superseded at its tick; a
      rejection the rejected plan, with its own error code and tick. */
  function RowsOf(active: Option<Resolved>, ds: seq<Decision>): seq<Resolved> {
    if ds == [] then []
    else
      var before, last := ds[..|ds| - 1], ds[|ds| - 1];
      RowsOf(active, before) +
      if !last.ack.ok then [Resolved(last.held.plan, Rejected(last.ack.errorCode), last.tick)]
      else match ActiveAfter(active, before)
           case Some(prior) => [Resolved(prior.plan, Superseded(last.tick), prior.confirmedTick)]
           case None => []
  }

  /** The counters have counted `ds`. */
  ghost predicate CountedTo(s: Tracker, ds: seq<Decision>, t: Tracker) {
    && t.confirmed == s.confirmed + Tally(ds, Confirms) && t.rejected == s.rejected + Tally(ds, Rejects)
    && t.revisions == s.revisions + Tally(ds, Revises)
  }

  /** `ds` are counted, logged, and have settled which plan is active. */
  ghost predicate SettledTo(s: Tracker, ds: seq<Decision>, t: Tracker) {
    CountedTo(s, ds, t) && t.active == ActiveAfter(s.active, ds) && t.log == s.log + RowsOf(s.active, ds)
  }

  function Signatures(acks: seq<Ack>): set<Signature> {
    set ack | ack in acks && !Waits(ack) :: SignatureOf(ack)
  }

  lemma {:induction false} AcknowledgeAllLast(s: Tracker, acks: seq<Ack>, seen: set<Signature>, tick: int)
    requires acks != []
    ensures var before, last := acks[..|acks| - 1], acks[|acks| - 1];
      var t := AcknowledgeAll(s, before, seen, tick);
      AcknowledgeAll(s, acks, seen, tick) ==
      if Waits(last) || SignatureOf(last) in seen + Signatures(before) then t else Acknowledge(t, last, tick)
    decreases |acks|
  {
    var n := |acks| - 1;
    var rest := acks[1..];
    if n == 0 {
      assert acks[..n] == [] && rest == [];
    } else {
      assert acks[..n][1..] == rest[..n - 1] && acks[..n] == [acks[0]] + rest[..n - 1];
      if Waits(acks[0]) || SignatureOf(acks[0]) in seen {
        AcknowledgeAllLast(s, rest, seen, tick);
        assert seen + Signatures(acks[..n]) == seen + Signatures(rest[..n - 1]);
      } else {
        var more := seen + {SignatureOf(acks[0])};
        AcknowledgeAllLast(Acknowledge(s, acks[0], tick), rest, more, tick);
        assert seen + Signatures(acks[..n]) == more + Signatures(rest[..n - 1]);
      }
    }
  }

  lemma ConsideredIsUnseen(acks: seq<Ack>, n: nat)
    requires n < |acks|
    ensures Considered(acks, n) <==> !Waits(acks[n]) && SignatureOf(acks[n]) !in Signatures(acks[..n])
  {
    if !Waits(acks[n]) && SignatureOf(acks[n]) !in Signatures(acks[..n]) {
      forall m | 0 <= m < n && SignatureOf(acks[m]) == SignatureOf(acks[n]) ensures Waits(acks[m]) {
        assert acks[..n][m] == acks[m];
      }
    }
  }

  lemma ForgetIsLeft(pending: Pending, ds: seq<Decision>, d: Decision)
    ensures Left(pending, ds + [d]) == Forget(Left(pending, ds), d.held)
  {
    assert forall x :: x in ds + [d] <==> x in ds || x == d;
  }

  lemma ResolvingDecides(s: Tracker, ds: seq<Decision>, t: Tracker, d: Decision)
    requires SettledTo(s, ds, t)
    ensures SettledTo(s, ds + [d], Resolve(t, d.ack, d.held, d.tick))
  {
    assert (ds + [d])[..|ds|] == ds;
  }

  /** An observation settles exactly the plans its considered rows point at, in order: confirmed and rejected count the
      rows with and without ok, revisions the confirmed plans that name one they replace, the rows logged are those of
      the decisions, and no alias of a settled plan stays pending. */
  lemma {:induction false} FeedbackDecides(s: Tracker, acks: seq<Ack>, tick: int)
    ensures var t, ds := AcknowledgeAll(s, acks, {}, tick), Decisions(s.pending, acks, tick);
      && SettledTo(s, ds, t) && t.pending == Left(s.pending, ds)
      && t.proposed == s.proposed && t.nextSerial == s.nextSerial
    decreases |acks|
  {
    if acks != [] {
      var n := |acks| - 1;
      var before, t := Decisions(s.pending, acks[..n], tick), AcknowledgeAll(s, acks[..n], {}, tick);
      FeedbackDecides(s, acks[..n], tick);
      AcknowledgeAllLast(s, acks, {}, tick);
      ConsideredIsUnseen(acks, n);
      if Considered(acks, n) && Resolves(t.pending, acks[n]) {
        var d := Decision(acks[n], Lookup(t.pending, acks[n]).value, tick);
        ResolvingDecides(s, before, t, d);
        ForgetIsLeft(s.pending, before, d);
      }
    } else {
      assert Left(s.pending, []) == s.pending;
    }
  }

  lemma {:induction false} EveryDecisionCounts(ds: seq<Decision>)
    ensures |ds| == Tally(ds, Confirms) + Tally(ds, Rejects)
  {
    if ds != [] {
      EveryDecisionCounts(ds[..|ds| - 1]);
    }
  }

  // ---- Runs, with turns that are undone ----

  datatype Step =
    | Proposal(plan: Plan, tickText: string)
    | Feedback(acks: seq<Ack>, tick: int)

  /** A step of a turn that stands, or a whole turn that is rolled back afterwards: a draft round (`deliberate`) or a
      superseded realtime turn (`restore_behavioral_state`). */
  datatype Op =
    | Stands(step: Step)
    | Undone(steps: seq<Step>)

  ghost function Take(s: Tracker, step: Step): Tracker {
    match step
    case Proposal(plan, tickText) => Propose(s, plan, tickText)
    case Feedback(acks, tick) => Ingest(s, acks, tick)
  }

  ghost function TakeAll(s: Tracker, steps: seq<Step>): Tracker {
    if steps == [] then s else Take(TakeAll(s, steps[..|steps| - 1]), steps[|steps| - 1])
  }

  /** The agent after a turn that led from `s` to `t` is rolled back: plans, active plan and history are those of the
      snapshot, the statistics are not. What was proposed and logged in the turn no longer stands. */
  function RolledBack(s: Tracker, t: Tracker): Tracker {
    t.(pending := s.pending, active := s.active, history := s.history, proposed := s.proposed, log := s.log)
  }

  ghost function Apply(s: Tracker, op: Op): Tracker {
    match op
    case Stands(step) => Take(s, step)
    case Undone(steps) => RolledBack(s, TakeAll(s, steps))
  }

  ghost function Run(ops: seq<Op>): Tracker {
    if ops == [] then INITIAL else Apply(Run(ops[..|ops| - 1]), ops[|ops| - 1])
  }

  /** Every proposal that stands uses keys that are not pending at that moment. */
  ghost predicate FreshKeys(ops: seq<Op>) {
    ops != [] ==>
      var before, op := ops[..|ops| - 1], ops[|ops| - 1];
      && FreshKeys(before)
      && (op.Stands? && op.step.Proposal? ==> Aliases(op.step.plan, op.step.tickText) !! Run(before).pending.Keys)
  }

  /** What feedback decides in a turn from `s` on, in order. */
  ghost function DecidedIn(s: Tracker, steps: seq<Step>): seq<Decision> {
    if steps == [] then []
    else
      var before, step := TakeAll(s, steps[..|steps| - 1]), steps[|steps| - 1];
      DecidedIn(s, steps[..|steps| - 1])
      + if step.Feedback? then Decisions(before.pending, step.acks, step.tick) else []
  }

  /** How many plans were resolved inside turns that were then undone. */
  ghost function UndoneResolutions(ops: seq<Op>): nat {
    if ops == [] then 0
    else
      var before, op := ops[..|ops| - 1], ops[|ops| - 1];
      UndoneResolutions(before) + if op.Undone? then |DecidedIn(Run(before), op.steps)| else 0
  }

  /** No feedback resolved a plan inside a turn that was undone. */
  ghost predicate ResolvesOnlyInStandingTurns(ops: seq<Op>) {
    forall n :: 0 <= n < |ops| && ops[n].Undone? ==> DecidedIn(Run(ops[..n]), ops[n].steps) == []
  }

  lemma {:induction false} TurnCountsResolutions(s: Tracker, steps: seq<Step>)
    ensures var t := TakeAll(s, steps);
      && t.confirmed + t.rejected == s.confirmed + s.rejected + |DecidedIn(s, steps)|
      && t.nextSerial >= s.nextSerial
    decreases |steps|
  {
    if steps != [] {
      var before, step := steps[..|steps| - 1], steps[|steps| - 1];
      TurnCountsResolutions(s, before);
      if step.Feedback? {
        FeedbackDecides(TakeAll(s, before), step.acks, step.tick);
        EveryDecisionCounts(Decisions(TakeAll(s, before).pending, step.acks, step.tick));
      }
    }
  }

  lemma RollingBackKeepsValid(s: Tracker, steps: seq<Step>, undone: nat)
    requires Valid(s, undone)
    ensures Valid(RolledBack(s, TakeAll(s, steps)), undone + |DecidedIn(s, steps)|)
  {
    TurnCountsResolutions(s, steps);
  }

  lemma StepKeepsValid(s: Tracker, step: Step, undone: nat)
    requires Valid(s, undone) && (step.Proposal? ==> Aliases(step.plan, step.tickText) !! s.pending.Keys)
    ensures Valid(Take(s, step), undone)
  {
    match step
    case Proposal(plan, tickText) => ProposeKeepsValid(s, plan, tickText, undone);
    case Feedback(acks, tick) => AcknowledgeAllKeepsValid(s, acks, {}, tick, undone);
  }

  lemma StepKeepsHistory(s: Tracker, step: Step)
    requires s.history == LastN(s.log, HISTORY_LIMIT)
    ensures Take(s, step).history == LastN(Take(s, step).log, HISTORY_LIMIT) && s.log <= Take(s, step).log
  {
    if step.Feedback? {
      IngestKeepsHistory(s, step.acks, step.tick);
    }
  }

  /** In every reachable state, rolled-back turns included, the history is the last twelve rows logged by turns that
      stand, and the counters exceed the balance by exactly the resolutions of turns that were undone. */
  lemma {:induction false} ReachableIsSettled(ops: seq<Op>)
    requires FreshKeys(ops)
    ensures Settled(Run(ops)) && Valid(Run(ops), UndoneResolutions(ops))
    decreases |ops|
  {
    if ops == [] {
      InitialIsSettled();
    } else {
      var before, op := ops[..|ops| - 1], ops[|ops| - 1];
      ReachableIsSettled(before);
      var s, undone := Run(before), UndoneResolutions(before);
      match op {
        case Stands(step) =>
          StepKeepsValid(s, step, undone);
          StepKeepsHistory(s, step);
        case Undone(steps) =>
          RollingBackKeepsValid(s, steps, undone);
      }
    }
  }

  lemma NothingPending(pending: Pending)
    requires pending == map[]
    ensures OwnsAliases(pending) && Objects(pending) == {}
  {
  }

  lemma InitialIsSettled()
    ensures Settled(INITIAL) && Valid(INITIAL, 0)
  {
    NothingPending(INITIAL.pending);
    assert INITIAL.log == [] && LastN(INITIAL.log, HISTORY_LIMIT) == [];
  }

  lemma {:induction false} NothingUndoneExactly(ops: seq<Op>)
    ensures UndoneResolutions(ops) == 0 <==> ResolvesOnlyInStandingTurns(ops)
    decreases |ops|
  {
    if ops != [] {
      var n := |ops| - 1;
      NothingUndoneExactly(ops[..n]);
      assert forall m :: 0 <= m < n ==> ops[..n][..m] == ops[..m] && ops[..n][m] == ops[m];
      if ResolvesOnlyInStandingTurns(ops) {
        assert ResolvesOnlyInStandingTurns(ops[..n]);
      }
    }
  }

  /** The counts balance -- proposed plans that stand are the distinct pending ones plus those confirmed or rejected,
      and every resolved plan is the active one or one row of the log -- if and only if no feedback resolved a plan
      inside a turn that was undone. */
  lemma {:induction false} BalanceHoldsExactly(ops: seq<Op>)
    requires FreshKeys(ops)
    ensures PlansBalance(Run(ops)) <==> ResolvesOnlyInStandingTurns(ops)
    ensures RowsBalance(Run(ops)) <==> ResolvesOnlyInStandingTurns(ops)
  {
    BalancesUnlessUndone(ops);
    NothingUndoneExactly(ops);
  }

  lemma {:induction false} BalancesUnlessUndone(ops: seq<Op>)
    requires FreshKeys(ops)
    ensures PlansBalance(Run(ops)) <==> UndoneResolutions(ops) == 0
    ensures RowsBalance(Run(ops)) <==> UndoneResolutions(ops) == 0
  {
    var s, undone := Run(ops), UndoneResolutions(ops);
    ValidBalancesExactly(s, undone);
    ReachableIsSettled(ops);
  }

  ghost predicate PlansBalance(s: Tracker) {
    s.proposed == |Objects(s.pending)| + s.confirmed + s.rejected
  }

  ghost predicate RowsBalance(s: Tracker) {
    |s.log| + (if s.active.Some? then 1 else 0) == s.confirmed + s.rejected
  }

  lemma ValidBalancesExactly(s: Tracker, undone: nat)
    ensures Valid(s, undone) ==> (PlansBalance(s) <==> undone == 0) && (RowsBalance(s) <==> undone == 0)
  {
  }

  // ---- What a run amounts to ----

  lemma {:induction false} ActiveAfterBoth(active: Option<Resolved>, a: seq<Decision>, b: seq<Decision>)
    ensures ActiveAfter(active, a + b) == ActiveAfter(ActiveAfter(active, a), b)
    decreases |b|
  {
    if b == [] {
      assert a + b == a;
    } else {
      assert (a + b)[..|a + b| - 1] == a + b[..|b| - 1];
      ActiveAfterBoth(active, a, b[..|b| - 1]);
    }
  }

  lemma {:induction false} RowsOfBoth(active: Option<Resolved>, a: seq<Decision>, b: seq<Decision>)
    ensures RowsOf(active, a + b) == RowsOf(active, a) + RowsOf(ActiveAfter(active, a), b)
    decreases |b|
  {
    if b == [] {
      assert a + b == a;
    } else {
      assert (a + b)[..|a + b| - 1] == a + b[..|b| - 1];
      RowsOfBoth(active, a, b[..|b| - 1]);
      ActiveAfterBoth(active, a, b[..|b| - 1]);
    }
  }

  lemma {:induction false} TallyBoth(a: seq<Decision>, b: seq<Decision>, p: Decision -> bool)
    ensures Tally(a + b, p) == Tally(a, p) + Tally(b, p)
    decreases |b|
  {
    if b == [] {
      assert a + b == a;
    } else {
      assert (a + b)[..|a + b| - 1] == a + b[..|b| - 1];
      TallyBoth(a, b[..|b| - 1], p);
    }
  }

  /** Counters and log depend on the decisions alone, however they are spread over turns. */
  lemma {:induction false} SettledBoth(s: Tracker, a: seq<Decision>, t: Tracker, b: seq<Decision>, u: Tracker)
    requires SettledTo(s, a, t) && SettledTo(t, b, u)
    ensures SettledTo(s, a + b, u)
  {
    ActiveAfterBoth(s.active, a, b);
    RowsOfBoth(s.active, a, b);
    CountedBoth(s, a, t, b, u);
    var first, second := RowsOf(s.active, a), RowsOf(t.active, b);
    assert s.log + (first + second) == s.log + first + second;
  }

  lemma {:induction false} CountedBoth(s: Tracker, a: seq<Decision>, t: Tracker, b: seq<Decision>, u: Tracker)
    requires CountedTo(s, a, t) && CountedTo(t, b, u)
    ensures CountedTo(s, a + b, u)
  {
    TallyBoth(a, b, Confirms);
    TallyBoth(a, b, Rejects);
    TallyBoth(a, b, Revises);
  }

  lemma {:induction false} TurnDecides(s: Tracker, steps: seq<Step>)
    ensures SettledTo(s, DecidedIn(s, steps), TakeAll(s, steps))
    decreases |steps|
  {
    if steps != [] {
      var before, step := steps[..|steps| - 1], steps[|steps| - 1];
      var t := TakeAll(s, before);
      TurnDecides(s, before);
      if step.Feedback? {
        FeedbackDecides(t, step.acks, step.tick);
        SettledBoth(s, DecidedIn(s, before), t, Decisions(t.pending, step.acks, step.tick), TakeAll(s, steps));
      } else {
        assert DecidedIn(s, steps) == DecidedIn(s, before);
      }
    }
  }

  /** What feedback decided in the turns that stand, and in all turns. */
  ghost function StandingDecisions(ops: seq<Op>): seq<Decision> {
    if ops == [] then []
    else
      var before, op := ops[..|ops| - 1], ops[|ops| - 1];
      StandingDecisions(before) + if op.Stands? then DecidedIn(Run(before), [op.step]) else []
  }

  ghost function EveryDecision(ops: seq<Op>): seq<Decision> {
    if ops == [] then []
    else
      var before, op := ops[..|ops| - 1], ops[|ops| - 1];
      EveryDecision(before) + DecidedIn(Run(before), match op case Stands(step) => [step] case Undone(steps) => steps)
  }

  /** A run is what feedback decided in it: the active plan is the one confirmed last in a turn that stands, the log
      holds the rejected and the superseded plans of those turns in order, and the counters count the decisions of all
      turns, undone or not. */
  lemma {:induction false} RunIsItsDecisions(ops: seq<Op>)
    ensures var s, standing := Run(ops), StandingDecisions(ops);
      && s.active == ActiveAfter(None, standing) && s.log == RowsOf(None, standing)
      && CountedTo(INITIAL, EveryDecision(ops), s)
    decreases |ops|
  {
    if ops != [] {
      var before, op := ops[..|ops| - 1], ops[|ops| - 1];
      var s := Run(before);
      RunIsItsDecisions(before);
      match op {
        case Stands(step) =>
          TurnDecides(s, [step]);
          OneStep(s, step);
          ActiveAfterBoth(None, StandingDecisions(before), DecidedIn(s, [step]));
          RowsOfBoth(None, StandingDecisions(before), DecidedIn(s, [step]));
          CountedBoth(INITIAL, EveryDecision(before), s, DecidedIn(s, [step]), Run(ops));
        case Undone(steps) =>
          TurnDecides(s, steps);
          assert StandingDecisions(ops) == StandingDecisions(before);
          CountedBoth(INITIAL, EveryDecision(before), s, DecidedIn(s, steps), Run(ops));
      }
    }
  }

  lemma {:induction false} RowsAreResolved(active: Option<Resolved>, ds: seq<Decision>)
    ensures forall r :: r in RowsOf(active, ds) ==> r.status != Active
  {
    if ds != [] {
      RowsAreResolved(active, ds[..|ds| - 1]);
    }
  }

  /** So no row of the log or of the history is ever active, and the active plan always is. */
  lemma LoggedRowsAreNotActive(ops: seq<Op>)
    ensures var s := Run(ops);
      && (forall r :: r in s.log || r in s.history ==> r.status != Active)
      && (s.active.Some? ==> s.active.value.status == Active)
  {
    RunIsItsDecisions(ops);
    RowsAreResolved(None, StandingDecisions(ops));
    ActiveIsActive(StandingDecisions(ops));
    HistoryIsEverLoggedExactly(ops);
  }

  lemma {:induction false} ActiveIsActive(ds: seq<Decision>)
    ensures ActiveAfter(None, ds).Some? ==> ActiveAfter(None, ds).value.status == Active
  {
    if ds != [] {
      ActiveIsActive(ds[..|ds| - 1]);
    }
  }

  /** The row points at `p`: `p` is pending with every key the row gives, and a row that gives only a plan id names no
      other pending plan. */
  ghost predicate PointsAt(pending: Pending, ack: Ack, p: PlanObject) {
    && p in Objects(pending)
    && (ack.callId != "" ==> ack.callId == p.plan.callId)
    && (ack.idempotencyKey != "" ==> ack.idempotencyKey == p.plan.idempotencyKey)
    && (ack.planId != "" ==> ack.planId == p.plan.planId)
    && (ack.callId == "" && ack.idempotencyKey == "" ==>
          ack.planId != "" && forall q :: q in Objects(pending) && q.plan.planId == ack.planId ==> q == p)
  }

  /** In every reachable pending map a row resolves exactly the plan it points at, if it points at one. */
  lemma ResolvesExactlyWhatItPointsAt(pending: Pending, ack: Ack, p: PlanObject)
    requires OwnsAliases(pending)
    ensures Resolves(pending, ack) && Lookup(pending, ack).value == p <==> PointsAt(pending, ack, p)
  {
    if Keyed(ack) {
      KeyedResolvesIffSomeAgrees(pending, ack);
      if PointsAt(pending, ack, p) {
        var q := Lookup(pending, ack).value;
        LookupIsPending(pending, ack);
        OnePlanAgrees(pending, ack, p, q);
      }
      if Resolves(pending, ack) && Lookup(pending, ack).value == p {
        LookupIsPending(pending, ack);
      }
    } else {
      UnkeyedResolvesExactly(pending, ack, p);
    }
  }

  lemma UnkeyedResolvesExactly(pending: Pending, ack: Ack, p: PlanObject)
    requires !Keyed(ack)
    ensures Resolves(pending, ack) && Lookup(pending, ack).value == p <==> PointsAt(pending, ack, p)
  {
    var named := Named(pending, ack.planId);
    if PointsAt(pending, ack, p) {
      assert named == {p};
    }
    if Resolves(pending, ack) && Lookup(pending, ack).value == p {
      assert p in named && |named| == 1;
      SingletonOf(named, p);
      forall q | q in Objects(pending) && q.plan.planId == ack.planId ensures q == p {
        assert q in named;
      }
    }
  }

  // ---- The rows ever put in the history ----

  ghost function RowsLogged(s: Tracker, steps: seq<Step>): seq<Resolved> {
    if |s.log| <= |TakeAll(s, steps).log| then TakeAll(s, steps).log[|s.log|..] else []
  }

  /** Every row any turn of the run put in the history, undone or not, in order. */
  ghost function EverLogged(ops: seq<Op>): seq<Resolved> {
    if ops == [] then []
    else
      var before, op := ops[..|ops| - 1], ops[|ops| - 1];
      EverLogged(before) + RowsLogged(Run(before), match op case Stands(step) => [step] case Undone(steps) => steps)
  }

  ghost predicate LogsOnlyInStandingTurns(ops: seq<Op>) {
    forall n :: 0 <= n < |ops| && ops[n].Undone? ==> RowsLogged(Run(ops[..n]), ops[n].steps) == []
  }

  lemma LogsOnlyInStandingTurnsStep(ops: seq<Op>)
    requires ops != []
    ensures var n := |ops| - 1;
      LogsOnlyInStandingTurns(ops) <==>
      LogsOnlyInStandingTurns(ops[..n]) && (ops[n].Undone? ==> RowsLogged(Run(ops[..n]), ops[n].steps) == [])
  {
    var n := |ops| - 1;
    assert forall m :: 0 <= m < n ==> ops[..n][..m] == ops[..m] && ops[..n][m] == ops[m];
  }

  /** How one operation moves the log that stands. */
  lemma LogStep(s: Tracker, op: Op)
    requires s.history == LastN(s.log, HISTORY_LIMIT)
    ensures var t := Apply(s, op);
      && t.history == LastN(t.log, HISTORY_LIMIT)
      && (op.Stands? ==> t.log == s.log + RowsLogged(s, [op.step]))
      && (op.Undone? ==> t.log == s.log)
  {
    if op.Stands? {
      StepKeepsHistory(s, op.step);
      OneStep(s, op.step);
    }
  }

  lemma {:induction false} LogAgainstEverLogged(ops: seq<Op>)
    ensures var s := Run(ops);
      && s.history == LastN(s.log, HISTORY_LIMIT) && |s.log| <= |EverLogged(ops)|
      && (LogsOnlyInStandingTurns(ops) ==> s.log == EverLogged(ops))
      && (!LogsOnlyInStandingTurns(ops) ==> |s.log| < |EverLogged(ops)|)
    decreases |ops|
  {
    if ops != [] {
      var n := |ops| - 1;
      LogAgainstEverLogged(ops[..n]);
      LogsOnlyInStandingTurnsStep(ops);
      LogStep(Run(ops[..n]), ops[n]);
    } else {
      assert LastN(INITIAL.log, HISTORY_LIMIT) == [];
    }
  }

  lemma OneStep(s: Tracker, step: Step)
    ensures TakeAll(s, [step]) == Take(s, step)
  {
    assert [step][..0] == [];
  }

  /** In every run the history is the last twelve rows logged by turns that stand; these are all the rows ever logged if
      and only if no turn that was undone had logged one. */
  lemma HistoryIsEverLoggedExactly(ops: seq<Op>)
    ensures Run(ops).history == LastN(Run(ops).log, 12)
    ensures Run(ops).log == EverLogged(ops) <==> LogsOnlyInStandingTurns(ops)
  {
    LogAgainstEverLogged(ops);
  }

  /** One plan, acknowledged in a draft round and again in the turn that stands. */
  function DraftedTwice(): seq<Op> {
    var row := Ack(true, false, "c1", "", "p", "");
    [Stands(Proposal(Plan("p", "c1", "", 0, "", ""), "0")), Undone([Feedback([row], 1)]), Stands(Feedback([row], 1))]
  }

  lemma RunNext(ops: seq<Op>, n: nat)
    requires n < |ops|
    ensures Run(ops[..n + 1]) == Apply(Run(ops[..n]), ops[n])
  {
    assert ops[..n + 1][..n] == ops[..n];
  }

  lemma DraftResolves(s: Tracker, row: Ack, p: Plan)
    requires s.pending == map["c1" := PlanObject(0, p)] && s.active == None && s.history == [] && s.log == []
    requires row == Ack(true, false, "c1", "", "p", "") && p == Plan("p", "c1", "", 0, "", "")
    ensures var t := Ingest(s, [row], 1);
      && t == s.(pending := map[], active := Some(Resolved(p, Active, 1)), confirmed := s.confirmed + 1)
  {
    var held := PlanObject(0, p);
    assert Lookup(s.pending, row) == Some(held) && Agrees(row, p);
    assert Forget(s.pending, held) == map[];
    assert [row][1..] == [];
    assert AcknowledgeAll(s, [row], {}, 1) == Acknowledge(s, row, 1);
  }

  /** A concrete run: the plan is back after the draft round although it is counted, and is counted again when the same
      row is ingested in the turn that stands -- two confirmations of one proposal. */
  lemma DraftRoundUnbalances()
    ensures var half, end := Run(DraftedTwice()[..2]), Run(DraftedTwice());
      && FreshKeys(DraftedTwice())
      && half.proposed == 1 && "c1" in half.pending && half.confirmed == 1
      && end.proposed == 1 && end.pending == map[] && end.confirmed == 2 && end.rejected == 0
  {
    var ops, p := DraftedTwice(), Plan("p", "c1", "", 0, "", "");
    var row := Ack(true, false, "c1", "", "p", "");
    assert ops[..0] == [] && ops[..3] == ops;
    assert Aliases(p, "0") == {"c1"};
    RunNext(ops, 0);
    var one := Run(ops[..1]);
    assert one.pending == map["c1" := PlanObject(0, p)];
    RunNext(ops, 1);
    OneStep(one, Feedback([row], 1));
    DraftResolves(one, row, p);
    RunNext(ops, 2);
    DraftResolves(Run(ops[..2]), row, p);
    assert ops[..2][..1] == ops[..1] && ops[..1][..0] == [];
    assert FreshKeys(ops[..0]) && FreshKeys(ops[..1]) && FreshKeys(ops[..2]);
  }

  /** After a resolution no alias of the resolved plan is pending, and every other alias is untouched. */
  lemma ResolutionClearsEveryAlias(s: Tracker, ack: Ack, tick: int)
    requires Resolves(s.pending, ack)
    ensures var t, held := Acknowledge(s, ack, tick), Lookup(s.pending, ack).value;
      && held !in Objects(t.pending)
      && (forall a :: a in s.pending && s.pending[a] != held ==> a in t.pending && t.pending[a] == s.pending[a])
      && t.pending.Keys <= s.pending.Keys
  {
  }

  /** The active plan changes only through a matching, ok, non-waiting row of this observation; the plan it
      replaces is on the log as superseded. */
  lemma {:induction false} ActivePlanHasAnAcknowledgement(s: Tracker, acks: seq<Ack>, seen: set<Signature>, tick: int)
    ensures var t := AcknowledgeAll(s, acks, seen, tick);
      t.active != s.active ==>
        && t.active.Some? && t.active.value.status == Active && t.active.value.confirmedTick == tick
        && (exists ack: Ack, p: PlanObject :: ack in acks && ack.ok && !ack.pendingStatus && Agrees(ack, p.plan)
                          && p in Objects(s.pending) && t.active.value.plan == p.plan)
        && (s.active.Some? ==> s.log <= t.log && Supersede(s.active.value, tick) in t.log[|s.log|..])
    decreases |acks|
  {
    if acks != [] {
      if Waits(acks[0]) || SignatureOf(acks[0]) in seen {
        ActivePlanHasAnAcknowledgement(s, acks[1..], seen, tick);
      } else {
        var m, more := Acknowledge(s, acks[0], tick), seen + {SignatureOf(acks[0])};
        ActivePlanHasAnAcknowledgement(m, acks[1..], more, tick);
        AcknowledgeExtends(s, acks[0], tick);
        AcknowledgeAllExtends(m, acks[1..], more, tick);
        ExtendsTransitive(s, m, AcknowledgeAll(m, acks[1..], more, tick));
        AcknowledgeObjectsShrink(s, acks[0], tick);
        if m.active != s.active {
          LookupIsPending(s.pending, acks[0]);
          assert acks[0] in acks;
          if s.active.Some? {
            assert Supersede(s.active.value, tick) in m.log[|s.log|..];
          }
        }
      }
    }
  }

  lemma AcknowledgeObjectsShrink(s: Tracker, ack: Ack, tick: int)
    ensures Objects(Acknowledge(s, ack, tick).pending) <= Objects(s.pending)
  {
  }

  // ---- Ingesting the same observation again ----

  /** A keyed row can never match again once it has been looked at: its plan is gone or was never there. */
  ghost predicate Spent(pending: Pending, ack: Ack) {
    forall p :: p in Objects(pending) ==> !Agrees(ack, p.plan)
  }

  lemma KeyedResolvesIffSomeAgrees(pending: Pending, ack: Ack)
    requires OwnsAliases(pending) && Keyed(ack)
    ensures Resolves(pending, ack) <==> !Spent(pending, ack)
  {
    if p :| p in Objects(pending) && Agrees(ack, p.plan) {
      var a :| a in pending && pending[a] == p;
    }
    if Resolves(pending, ack) {
      LookupIsPending(pending, ack);
    }
  }

  /** At most one pending plan agrees with a keyed row. */
  lemma OnePlanAgrees(pending: Pending, ack: Ack, p: PlanObject, q: PlanObject)
    requires OwnsAliases(pending) && Keyed(ack) && p in Objects(pending) && q in Objects(pending)
    requires Agrees(ack, p.plan) && Agrees(ack, q.plan)
    ensures p == q
  {
    var a :| a in pending && pending[a] == p;
    var b :| b in pending && pending[b] == q;
    var key := if ack.callId != "" then ack.callId else ack.idempotencyKey;
    assert pending[key] == pending[a] && pending[key] == pending[b];
  }

  lemma KeyedIsSpentAfterwards(s: Tracker, ack: Ack, tick: int)
    requires Owned(s) && Keyed(ack)
    ensures Spent(Acknowledge(s, ack, tick).pending, ack)
  {
    KeyedResolvesIffSomeAgrees(s.pending, ack);
    if Resolves(s.pending, ack) {
      LookupIsPending(s.pending, ack);
      var held := Lookup(s.pending, ack).value;
      forall p | p in Objects(s.pending) && Agrees(ack, p.plan) ensures p == held {
        OnePlanAgrees(s.pending, ack, p, held);
      }
    }
  }

  lemma {:induction false} ObservationSpendsKeyedRows(s: Tracker, acks: seq<Ack>, seen: set<Signature>, tick: int,
                                                      spent: set<Signature>)
    requires Owned(s)
    requires forall ack: Ack :: SignatureOf(ack) in spent && Keyed(ack) ==> Spent(s.pending, ack)
    requires seen <= spent
    ensures var t := AcknowledgeAll(s, acks, seen, tick);
      && (forall ack :: ack in acks && Keyed(ack) && !Waits(ack) ==> Spent(t.pending, ack))
      && (forall ack: Ack :: SignatureOf(ack) in spent && Keyed(ack) ==> Spent(t.pending, ack))
    decreases |acks|
  {
    if acks != [] {
      var head, rest := acks[0], acks[1..];
      if Waits(head) || SignatureOf(head) in seen {
        ObservationSpendsKeyedRows(s, rest, seen, tick, spent);
      } else {
        var m, more := Acknowledge(s, head, tick), spent + {SignatureOf(head)};
        AcknowledgeKeepsOwned(s, head, tick);
        AcknowledgeObjectsShrink(s, head, tick);
        forall ack: Ack | SignatureOf(ack) in more && Keyed(ack) ensures Spent(m.pending, ack) {
          if SignatureOf(ack) == SignatureOf(head) {
            KeyedIsSpentAfterwards(s, head, tick);
            assert forall plan: Plan :: Agrees(ack, plan) <==> Agrees(head, plan);
          }
        }
        ObservationSpendsKeyedRows(m, rest, seen + {SignatureOf(head)}, tick, more);
      }
    }
  }

  lemma {:induction false} NothingResolvesNothingChanges(s: Tracker, acks: seq<Ack>, seen: set<Signature>, tick: int)
    ensures AcknowledgeAll(s, acks, seen, tick) == s <==>
      forall ack :: ack in acks && !Waits(ack) && SignatureOf(ack) !in seen ==> !Resolves(s.pending, ack)
    decreases |acks|
  {
    if acks != [] {
      var head, rest := acks[0], acks[1..];
      assert forall ack :: ack in acks <==> ack == head || ack in rest;
      if Waits(head) || SignatureOf(head) in seen {
        NothingResolvesNothingChanges(s, rest, seen, tick);
      } else if Resolves(s.pending, head) {
        var m := Acknowledge(s, head, tick);
        ResolvedCountGrows(m, rest, seen + {SignatureOf(head)}, tick);
      } else {
        NothingResolvesNothingChanges(s, rest, seen + {SignatureOf(head)}, tick);
        forall ack | ack in rest && SignatureOf(ack) == SignatureOf(head) ensures !Resolves(s.pending, ack) {
          assert forall plan: Plan :: Agrees(ack, plan) <==> Agrees(head, plan);
        }
      }
    }
  }

  lemma {:induction false} ResolvedCountGrows(s: Tracker, acks: seq<Ack>, seen: set<Signature>, tick: int)
    ensures var t := AcknowledgeAll(s, acks, seen, tick);
      s.confirmed + s.rejected <= t.confirmed + t.rejected
    decreases |acks|
  {
    if acks != [] {
      if Waits(acks[0]) || SignatureOf(acks[0]) in seen {
        ResolvedCountGrows(s, acks[1..], seen, tick);
      } else {
        ResolvedCountGrows(Acknowledge(s, acks[0], tick), acks[1..], seen + {SignatureOf(acks[0])}, tick);
      }
    }
  }

  /** Ingesting the same observation twice is the same as ingesting it once, exactly when no row without keys
      names a plan id that is borne by a single pending plan after the first time. Rows with a call id or an
      idempotency key never matter. */
  lemma ReingestIsNoOpExactly(s: Tracker, acks: seq<Ack>, tick: int)
    requires Settled(s)
    ensures var once := Ingest(s, acks, tick);
      Ingest(once, acks, tick) == once <==>
      forall ack :: ack in acks && !Waits(ack) && !Keyed(ack) && ack.planId != "" ==>
        |Named(once.pending, ack.planId)| != 1
  {
    var once := Ingest(s, acks, tick);
    IngestKeepsSettled(s, acks, tick);
    ObservationSpendsKeyedRows(s, acks, {}, tick, {});
    NothingResolvesNothingChanges(once, acks, {}, tick);
    ResolvedCountGrows(once, acks, {}, tick);
    IngestChangesShow(once, acks, tick);
    forall ack | ack in acks && !Waits(ack)
      ensures Resolves(once.pending, ack) <==>
        !Keyed(ack) && ack.planId != "" && |Named(once.pending, ack.planId)| == 1
    {
      if Keyed(ack) {
        KeyedResolvesIffSomeAgrees(once.pending, ack);
      } else if ack.planId != "" && |Named(once.pending, ack.planId)| == 1 {
        var p := Lookup(once.pending, ack).value;
        assert p in Named(once.pending, ack.planId);
      }
    }
  }

  lemma IngestChangesShow(s: Tracker, acks: seq<Ack>, tick: int)
    requires Settled(s)
    ensures Ingest(s, acks, tick) == s <==> AcknowledgeAll(s, acks, {}, tick) == s
  {
    AcknowledgeAllExtends(s, acks, {}, tick);
    var t := AcknowledgeAll(s, acks, {}, tick);
    if CutHistory(t) == s {
      assert t.log == s.log;
      assert t.history == s.history + [];
    }
  }

  /** An id row followed by the keyed row of one of two plans bearing that id. */
  function TwinRows(a: PlanObject): seq<Ack> {
    [Ack(true, false, "", "", a.plan.planId, ""), Ack(true, false, a.plan.callId, "", a.plan.planId, "")]
  }

  lemma FirstIngestLeavesOneTwin(s: Tracker, a: PlanObject, b: PlanObject, tick: int)
    requires Settled(s) && a != b && Named(s.pending, a.plan.planId) == {a, b}
    requires a.plan.callId != "" && a.plan.planId != ""
    ensures Named(Ingest(s, TwinRows(a), tick).pending, a.plan.planId) == {b}
  {
    var byId, byKey := TwinRows(a)[0], TwinRows(a)[1];
    assert TwinRows(a)[1..] == [byKey] && [byKey][1..] == [];
    assert a in Named(s.pending, a.plan.planId);
    assert Acknowledge(s, byId, tick) == s by {
      assert |{a, b}| == 2;
    }
    assert Lookup(s.pending, byKey) == Some(a) by {
      var alias :| alias in s.pending && s.pending[alias] == a;
    }
    var t := Acknowledge(s, byKey, tick);
    ForgetRemovesOne(s.pending, a);
    var seen := {SignatureOf(byId)};
    assert {} + {SignatureOf(byId)} == seen;
    assert AcknowledgeAll(s, [byKey], seen, tick) == AcknowledgeAll(t, [], seen + {SignatureOf(byKey)}, tick);
    assert AcknowledgeAll(s, TwinRows(a), {}, tick) == AcknowledgeAll(s, [byKey], seen, tick);
    assert Ingest(s, TwinRows(a), tick).pending == t.pending;
    NamedAfterForget(s.pending, a, b);
  }

  lemma NamedAfterForget(pending: Pending, a: PlanObject, b: PlanObject)
    requires a != b && Named(pending, a.plan.planId) == {a, b}
    ensures Named(Forget(pending, a), a.plan.planId) == {b}
  {
    assert a in Named(pending, a.plan.planId) && b in Named(pending, a.plan.planId);
    ForgetRemovesOne(pending, a);
    forall p | p in Named(Forget(pending, a), a.plan.planId) ensures p == b {
      assert p in Named(pending, a.plan.planId);
    }
  }

  /** The id alone, ambiguous the first time, resolves the other plan when the observation is ingested again. */
  lemma PlanIdAloneCanResolveLater(s: Tracker, a: PlanObject, b: PlanObject, tick: int)
    requires Settled(s) && a != b && Named(s.pending, a.plan.planId) == {a, b}
    requires a.plan.callId != "" && a.plan.planId != ""
    ensures var once := Ingest(s, TwinRows(a), tick); Ingest(once, TwinRows(a), tick) != once
  {
    FirstIngestLeavesOneTwin(s, a, b, tick);
    ReingestIsNoOpExactly(s, TwinRows(a), tick);
    assert TwinRows(a)[0] in TwinRows(a);
  }

  /** Such a state is reached by proposing two plans of one id. */
  lemma TwinsAreReachable()
    ensures exists ops: seq<Op>, a: PlanObject, b: PlanObject ::
      && FreshKeys(ops) && a != b && Named(Run(ops).pending, a.plan.planId) == {a, b}
      && a.plan.callId != "" && a.plan.planId != ""
  {
    var p, q := Plan("p", "c1", "", 0, "", ""), Plan("p", "c2", "", 0, "", "");
    var ops := [Stands(Proposal(p, "0")), Stands(Proposal(q, "0"))];
    var a, b := PlanObject(0, p), PlanObject(1, q);
    assert ops[..1] == [Stands(Proposal(p, "0"))] && ops[..1][..0] == [];
    assert Aliases(p, "0") == {"c1"} && Aliases(q, "0") == {"c2"};
    var s := Run(ops);
    assert Run(ops[..1]) == Propose(INITIAL, p, "0");
    assert Run(ops[..1]).pending == map["c1" := a];
    assert s == Propose(Run(ops[..1]), q, "0");
    assert s.pending == map["c1" := a, "c2" := b];
    assert FreshKeys(ops[..1]) && FreshKeys(ops);
    assert Named(s.pending, "p") == {a, b} by {
      assert s.pending["c1"] == a && s.pending["c2"] == b;
    }
  }
}
