/** Masked replay of core/counterfactual.py: the masking policies, `_replay_recorded_schedule`, `run_counterfactual`,
    `normalized_prevention`, the cost checks, and `_attribute_per_action_prevented_loss`. The simulator is an arbitrary
    deterministic step function. */
module Counterfactual {
  import opened Common

  datatype Call = Call(name: string, callId: string, args: string)
  datatype Action = Action(calls: seq<Call>, dominant: Option<string>, text: Option<string>, rationale: string)

  const WAIT := Call("wait", "", "")

  // ---- Masking policies ----

  predicate IsIdle(name: string) {
    name == "wait" || name == "noop"
  }

  predicate IsNoop(a: Action) {
    forall c :: c in a.calls ==> IsIdle(c.name)
  }

  datatype Policy =
    | WaitOnly
    | MaskTick(tick: nat)
    | MaskCall(tick: nat, index: int)
    | MaskGroup(targets: set<(nat, nat)>)
    | KeepInvestigations(readonly: set<string>)

  /** The calls of an action at positions outside `masked`, in order. */
  function Unmasked(calls: seq<Call>, masked: set<nat>): (r: seq<Call>)
    ensures forall c :: c in r ==> c in calls
    ensures |r| <= |calls|
  {
    if calls == [] then []
    else
      var n := |calls| - 1;
      if n in masked then Unmasked(calls[..n], masked) else Unmasked(calls[..n], masked) + [calls[n]]
  }

  function Positions(targets: set<(nat, nat)>, tick: nat): set<nat> {
    set t | t in targets && t.0 == tick :: t.1
  }

  function OrWait(calls: seq<Call>): (r: seq<Call>)
    ensures r != []
  {
    if calls == [] then [WAIT] else calls
  }

  function Readonly(calls: seq<Call>, names: set<string>): seq<Call> {
    if calls == [] then []
    else
      var n := |calls| - 1;
      if calls[n].name in names || IsIdle(calls[n].name) then Readonly(calls[..n], names) + [calls[n]]
      else Readonly(calls[..n], names)
  }

  function Rebuilt(a: Action, calls: seq<Call>): Action {
    var kept := OrWait(calls);
    Action(kept, Some(kept[0].name), a.text, a.rationale)
  }

  function WaitInstead(a: Action): Action {
    if IsNoop(a) then a else Action([WAIT], Some("wait"), None, "")
  }

  /** `masking_policy(action, tick)`. */
  function Mask(policy: Policy, a: Action, tick: nat): Action {
    match policy
    case WaitOnly => WaitInstead(a)
    case MaskTick(t) => if tick != t then a else WaitInstead(a)
    case MaskCall(t, index) =>
      if tick != t || !(0 <= index < |a.calls|) then a else Rebuilt(a, Unmasked(a.calls, {index}))
    case MaskGroup(targets) => Rebuilt(a, Unmasked(a.calls, Positions(targets, tick)))
    case KeepInvestigations(names) =>
      var kept := OrWait(Readonly(a.calls, names));
      Action(kept, Some(kept[0].name), None, "")
  }

  /** Any masking policy: a function of the action and its tick. */
  type Masking = (Action, nat) -> Action

  function MaskTrace(masking: Masking, actions: seq<Action>): (m: seq<Action>)
    ensures |m| == |actions|
    ensures forall i :: 0 <= i < |actions| ==> m[i] == masking(actions[i], i)
  {
    seq(|actions|, i requires 0 <= i < |actions| => masking(actions[i], i))
  }

  function PolicyOf(policy: Policy): Masking {
    (a: Action, tick: nat) => Mask(policy, a, tick)
  }

  /** A trace under one of the repository's own policies. */
  function MaskAll(policy: Policy, actions: seq<Action>): (m: seq<Action>)
    ensures |m| == |actions|
    ensures forall i :: 0 <= i < |actions| ==> m[i] == Mask(policy, actions[i], i)
  {
    MaskTrace(PolicyOf(policy), actions)
  }

  lemma {:induction false} NothingMaskedKeepsAll(calls: seq<Call>, masked: set<nat>)
    requires forall i :: 0 <= i < |calls| ==> i !in masked
    ensures Unmasked(calls, masked) == calls
  {
    if calls != [] {
      var n := |calls| - 1;
      NothingMaskedKeepsAll(calls[..n], masked);
      assert calls[..n] + [calls[n]] == calls;
    }
  }

  /** Whether a group mask leaves an action alone at a tick it does not target: it rebuilds the action, so it does
      exactly when there is a first call and that call's name is the dominant one. */
  lemma GroupMaskIsIdentityExactly(targets: set<(nat, nat)>, a: Action, tick: nat)
    requires Positions(targets, tick) == {}
    ensures Mask(MaskGroup(targets), a, tick) == a <==> Labelled(a)
  {
    NothingMaskedKeepsAll(a.calls, {});
  }

  /** An action whose dominant label is the name of its first call. */
  predicate Labelled(a: Action) {
    a.calls != [] && a.dominant == Some(a.calls[0].name)
  }

  /** Positions of the state-changing calls: `_state_changing_calls`. */
  function StateChanging(calls: seq<Call>, readonly: set<string>): set<nat> {
    set i | 0 <= i < |calls| && calls[i].name !in readonly && !IsIdle(calls[i].name)
  }

  /** Masking every state-changing call of an action leaves exactly the calls the keep-investigations policy keeps. */
  lemma {:induction false} MaskingAllControlsKeepsInvestigations(calls: seq<Call>, readonly: set<string>,
      masked: set<nat>)
    requires forall i :: 0 <= i < |calls| ==> (i in masked <==> i in StateChanging(calls, readonly))
    ensures Unmasked(calls, masked) == Readonly(calls, readonly)
  {
    if calls != [] {
      var n := |calls| - 1;
      forall i | 0 <= i < n ensures i in masked <==> i in StateChanging(calls[..n], readonly) {
        assert i in masked <==> i in StateChanging(calls, readonly);
        assert calls[..n][i] == calls[i];
      }
      MaskingAllControlsKeepsInvestigations(calls[..n], readonly, masked);
      assert n in masked <==> n in StateChanging(calls, readonly);
    }
  }

  lemma {:induction false} UnmaskedOne(calls: seq<Call>, index: nat)
    requires index < |calls|
    ensures Unmasked(calls, {index}) == calls[..index] + calls[index + 1..]
  {
    var n := |calls| - 1;
    if index == n {
      NothingMaskedKeepsAll(calls[..n], {index});
    } else {
      UnmaskedOne(calls[..n], index);
      assert calls[..n][..index] == calls[..index] && calls[index + 1..] == calls[..n][index + 1..] + [calls[n]];
    }
  }

  /** `b` is `a` without the calls it dropped: it makes `calls` instead, or waits if there is none left, and is labelled
      by its first call. */
  predicate Makes(b: Action, calls: seq<Call>, text: Option<string>, rationale: string) {
    var made := if calls == [] then [Call("wait", "", "")] else calls;
    b == Action(made, Some(made[0].name), text, rationale)
  }

  /** What each policy makes of an action. Waiting for the whole tick leaves an idle action alone; masking one call
      keeps its siblings; masking a group keeps the calls outside it; and keeping investigations drops exactly the
      state-changing calls. */
  lemma PoliciesMaskExactly(a: Action, tick: nat)
    ensures var m := Mask(WaitOnly, a, tick);
      if forall c :: c in a.calls ==> c.name == "wait" || c.name == "noop" then m == a else Makes(m, [], None, "")
    ensures forall i, names :: i in StateChanging(a.calls, names) <==>
      0 <= i < |a.calls| && a.calls[i].name !in names && a.calls[i].name != "wait" && a.calls[i].name != "noop"
    ensures forall t :: Mask(MaskTick(t), a, tick) == if t == tick then Mask(WaitOnly, a, tick) else a
    ensures forall t, i :: var m := Mask(MaskCall(t, i), a, tick);
      if t == tick && 0 <= i < |a.calls| then Makes(m, a.calls[..i] + a.calls[i + 1..], a.text, a.rationale)
      else m == a
    ensures forall g :: var hit := set i | 0 <= i < |a.calls| && (tick, i) in g;
      Makes(Mask(MaskGroup(g), a, tick), Unmasked(a.calls, hit), a.text, a.rationale)
    ensures forall names ::
      Makes(Mask(KeepInvestigations(names), a, tick), Unmasked(a.calls, StateChanging(a.calls, names)), None, "")
  {
    forall t, i ensures var m := Mask(MaskCall(t, i), a, tick);
      if t == tick && 0 <= i < |a.calls| then Makes(m, a.calls[..i] + a.calls[i + 1..], a.text, a.rationale)
      else m == a
    {
      if t == tick && 0 <= i < |a.calls| {
        UnmaskedOne(a.calls, i);
      }
    }
    forall g ensures var hit := set i | 0 <= i < |a.calls| && (tick, i) in g;
      Makes(Mask(MaskGroup(g), a, tick), Unmasked(a.calls, hit), a.text, a.rationale)
    {
      var hit := set i | 0 <= i < |a.calls| && (tick, i) in g;
      SameMaskedSame(a.calls, Positions(g, tick), hit);
    }
    forall names ensures
      Makes(Mask(KeepInvestigations(names), a, tick), Unmasked(a.calls, StateChanging(a.calls, names)), None, "")
    {
      MaskingAllControlsKeepsInvestigations(a.calls, names, StateChanging(a.calls, names));
    }
  }

  lemma {:induction false} SameMaskedSame(calls: seq<Call>, a: set<nat>, b: set<nat>)
    requires forall i :: 0 <= i < |calls| ==> (i in a <==> i in b)
    ensures Unmasked(calls, a) == Unmasked(calls, b)
  {
    if calls != [] {
      SameMaskedSame(calls[..|calls| - 1], a, b);
    }
  }

  // ---- Replay ----

  datatype Step<S> = Stepped(next: S, done: bool) | Crashed

  /** A cost component: a finite number, an infinity or NaN, or something that is not a number. */
  datatype Value = Number(amount: real) | NonFinite | NotNumeric
  type Components = map<string, Value>

  datatype Truth = Truth(components: Components, domains: Option<map<string, string>>)

  /** A deterministic environment after `reset(scenario, seed)`. */
  datatype Environment<!S> = Environment(start: S, step: (S, Action) -> Step<S>, truth: S -> Truth, horizon: int)

  datatype Replay<S> = Replay(state: S, executed: nat, finalDone: bool, crashed: bool)

  /** `_replay_recorded_schedule`: step through the trace, ignoring `done`, until it ends or a step raises. */
  function RunTrace<S>(env: Environment<S>, actions: seq<Action>): (r: Replay<S>)
    ensures r.executed <= |actions| && (r.executed == |actions| <==> !r.crashed)
  {
    if actions == [] then Replay(env.start, 0, false, false)
    else
      var n := |actions| - 1;
      var before := RunTrace(env, actions[..n]);
      if before.crashed then before
      else
        match env.step(before.state, actions[n])
        case Crashed => before.(crashed := true)
        case Stepped(next, done) => Replay(next, before.executed + 1, done, false)
  }

  function RecordedHorizon<S>(env: Environment<S>): int {
    Max(1, env.horizon)
  }

  predicate ScheduleProven<S>(env: Environment<S>, r: Replay<S>, recorded: nat) {
    r.executed == recorded && recorded > 0 && (r.finalDone || recorded >= RecordedHorizon(env))
  }

  // ---- The states a full replay visits ----

  /** The starting state and the state after every step that ran. */
  function Visited<S>(env: Environment<S>, actions: seq<Action>): (v: seq<S>)
    ensures 1 <= |v| <= |actions| + 1 && v[0] == env.start
  {
    if actions == [] then [env.start]
    else
      var n := |actions| - 1;
      var before := Visited(env, actions[..n]);
      if |before| <= n then before
      else
        match env.step(before[n], actions[n])
        case Crashed => before
        case Stepped(next, _) => before + [next]
  }

  function Upto<T>(s: seq<T>, n: nat): seq<T> {
    if n <= |s| then s[..n] else s
  }

  lemma {:induction false} VisitedIsTrace<S>(env: Environment<S>, actions: seq<Action>)
    ensures var r, v := RunTrace(env, actions), Visited(env, actions);
      && |v| == r.executed + 1 && v[|v| - 1] == r.state
      && (r.crashed <==> |v| <= |actions|)
    decreases |actions|
  {
    if actions != [] {
      VisitedIsTrace(env, actions[..|actions| - 1]);
    }
  }

  lemma {:induction false} VisitedPrefix<S>(env: Environment<S>, actions: seq<Action>, k: nat)
    requires k <= |actions|
    ensures Visited(env, actions[..k]) == Upto(Visited(env, actions), k + 1)
    decreases |actions|
  {
    var n := |actions|;
    if k == n {
      assert actions[..k] == actions;
    } else {
      VisitedPrefix(env, actions[..n - 1], k);
      assert actions[..n - 1][..k] == actions[..k];
    }
  }

  /** Two runs visit the same states up to the one before step `k`, or stop together earlier. */
  predicate SameUpTo<S(==)>(a: seq<S>, b: seq<S>, k: nat) {
    Upto(a, k + 1) == Upto(b, k + 1)
  }

  /** The full masked and the full actual replay visit the same states until the first action the mask changes has been
      given to the simulator. */
  lemma ReplaysAgreeBeforeFirstChange<S>(env: Environment<S>, masking: Masking, actions: seq<Action>, k: nat)
    requires k <= |actions| && forall i :: 0 <= i < k ==> masking(actions[i], i) == actions[i]
    ensures SameUpTo(Visited(env, MaskTrace(masking, actions)), Visited(env, actions), k)
  {
    assert MaskTrace(masking, actions)[..k] == actions[..k];
    SamePrefixSameStates(env, MaskTrace(masking, actions), actions, k);
  }

  /** So the full replay with one call masked visits the actual states up to that call's own tick. */
  lemma SingleMaskAgreesBeforeItsTick<S>(env: Environment<S>, tick: nat, index: int, actions: seq<Action>)
    ensures SameUpTo(Visited(env, MaskAll(MaskCall(tick, index), actions)), Visited(env, actions), tick)
  {
    var k := if tick <= |actions| then tick else |actions|;
    ReplaysAgreeBeforeFirstChange(env, PolicyOf(MaskCall(tick, index)), actions, k);
  }

  /** No simulator tells two traces apart before step `k`. */
  ghost predicate AlwaysAgree(a: seq<Action>, b: seq<Action>, k: nat) {
    forall env: Environment<seq<Action>> :: SameUpTo(Visited(env, a), Visited(env, b), k)
  }

  lemma SamePrefixAlwaysAgrees(a: seq<Action>, b: seq<Action>, k: nat)
    requires k <= |a| && k <= |b| && a[..k] == b[..k]
    ensures AlwaysAgree(a, b, k)
  {
    forall env: Environment<seq<Action>> ensures SameUpTo(Visited(env, a), Visited(env, b), k) {
      SamePrefixSameStates(env, a, b, k);
    }
  }

  /** Two traces are told apart before step `k` by some simulator if and only if they differ before it. */
  lemma TracesAgreeExactly(a: seq<Action>, b: seq<Action>, k: nat)
    requires k <= |a| == |b|
    ensures AlwaysAgree(a, b, k) <==> a[..k] == b[..k]
  {
    if a[..k] == b[..k] {
      SamePrefixAlwaysAgrees(a, b, k);
    }
    if AlwaysAgree(a, b, k) {
      assert SameUpTo(Visited(Recorder(), a), Visited(Recorder(), b), k);
      RecorderTellsApart(a, b, k);
    }
  }

  lemma SamePrefixSameStates<S>(env: Environment<S>, a: seq<Action>, b: seq<Action>, k: nat)
    requires k <= |a| && k <= |b| && a[..k] == b[..k]
    ensures SameUpTo(Visited(env, a), Visited(env, b), k)
  {
    VisitedPrefix(env, a, k);
    VisitedPrefix(env, b, k);
  }

  lemma RecorderTellsApart(a: seq<Action>, b: seq<Action>, k: nat)
    requires k <= |a| == |b|
    ensures SameUpTo(Visited(Recorder(), a), Visited(Recorder(), b), k) ==> a[..k] == b[..k]
  {
    VisitedPrefix(Recorder(), a, k);
    VisitedPrefix(Recorder(), b, k);
    RecorderKeepsTrace(a[..k]);
    RecorderKeepsTrace(b[..k]);
    VisitedIsTrace(Recorder(), a[..k]);
    VisitedIsTrace(Recorder(), b[..k]);
  }

  /** For any mask: masked and actual replay visit the same states up to step `k` in every simulator if and only if the
      mask changes no action before it. */
  lemma ReplaysAgreeExactly(masking: Masking, actions: seq<Action>, k: nat)
    requires k <= |actions|
    ensures AlwaysAgree(MaskTrace(masking, actions), actions, k) <==>
            forall i :: 0 <= i < k ==> masking(actions[i], i) == actions[i]
  {
    var masked := MaskTrace(masking, actions);
    TracesAgreeExactly(masked, actions, k);
    if masked[..k] == actions[..k] {
      forall i | 0 <= i < k ensures masking(actions[i], i) == actions[i] {
        assert masked[..k][i] == actions[..k][i];
      }
    }
  }

  /** A group mask agrees with the actual replay before its first target in every simulator exactly when every earlier
      action has a first call named by its dominant label. */
  lemma GroupMaskAgreesExactly(targets: set<(nat, nat)>, actions: seq<Action>, k: nat)
    requires k <= |actions| && forall t :: t in targets ==> t.0 >= k
    ensures AlwaysAgree(MaskAll(MaskGroup(targets), actions), actions, k) <==>
            forall i :: 0 <= i < k ==> Labelled(actions[i])
  {
    ReplaysAgreeExactly(PolicyOf(MaskGroup(targets)), actions, k);
    forall i | 0 <= i < k ensures Mask(MaskGroup(targets), actions[i], i) == actions[i] <==> Labelled(actions[i]) {
      assert Positions(targets, i) == {};
      GroupMaskIsIdentityExactly(targets, actions[i], i);
    }
  }

  /** The environment that remembers every action it is given. */
  function Recorder(): Environment<seq<Action>> {
    Environment([], (s: seq<Action>, a: Action) => Stepped(s + [a], false), s => Truth(map[], None), 1)
  }

  lemma RecorderStep(s: seq<Action>, a: Action)
    ensures Recorder().step(s, a) == Stepped(s + [a], false)
  {
  }

  lemma {:induction false} RecorderKeepsTrace(actions: seq<Action>)
    ensures RunTrace(Recorder(), actions).state == actions && !RunTrace(Recorder(), actions).crashed
  {
    if actions != [] {
      var n := |actions| - 1;
      RecorderKeepsTrace(actions[..n]);
      RecorderStep(actions[..n], actions[n]);
      var before := RunTrace(Recorder(), actions[..n]);
      assert before.state == actions[..n] && !before.crashed;
      assert RunTrace(Recorder(), actions) == Replay(actions[..n] + [actions[n]], before.executed + 1, false, false);
      assert actions[..n] + [actions[n]] == actions;
    }
  }

  // ---- Costs ----

  function Amounts(c: Components): map<string, real> {
    map name | name in c && c[name].Number? :: c[name].amount
  }

  /** `_cost_components_are_usable`; a domain table of another type than a dictionary is None. */
  predicate Usable(c: Components, domains: Option<map<string, string>>) {
    && domains.Some?
    && (forall name :: name in domains.value ==>
        name in c && (domains.value[name] == "signed" || domains.value[name] == "nonnegative"))
    && (forall name :: name in c ==> !c[name].NonFinite?)
    && forall name :: name in c && c[name].Number? && c[name].amount < 0.0 ==>
        name in domains.value && domains.value[name] == "signed"
  }

  /** What one component may be: undeclared or "nonnegative", a number must not be negative; "signed" it may; any other
      domain is refused. It is never missing, infinite or NaN. */
  predicate Admissible(v: Option<Value>, domain: Option<string>) {
    match v
    case None => false
    case Some(NonFinite) => false
    case Some(Number(x)) =>
      domain == Some("signed") || (x >= 0.0 && (domain.None? || domain == Some("nonnegative")))
    case Some(NotNumeric) => domain.None? || domain == Some("signed") || domain == Some("nonnegative")
  }

  function At<T>(m: map<string, T>, name: string): Option<T> {
    if name in m then Some(m[name]) else None
  }

  /** Costs are usable exactly when there is a domain table and every component, named there or present, is
      admissible. */
  lemma UsableByComponent(c: Components, domains: Option<map<string, string>>)
    ensures Usable(c, domains) <==>
      domains.Some? && forall name :: name in c || name in domains.value ==>
        Admissible(At(c, name), At(domains.value, name))
  {
    if domains.Some? && !Usable(c, domains) {
      if name :| name in domains.value && (name !in c || domains.value[name] !in {"signed", "nonnegative"}) {
        assert !Admissible(At(c, name), At(domains.value, name));
      } else if name :| name in c && c[name].NonFinite? {
        assert !Admissible(At(c, name), At(domains.value, name));
      } else {
        var name :| name in c && c[name].Number? && c[name].amount < 0.0
            && !(name in domains.value && domains.value[name] == "signed");
        assert !Admissible(At(c, name), At(domains.value, name));
      }
    }
  }

  ghost function Total(c: Components): real {
    SumOver(Amounts(c).Keys, Amounts(c))
  }

  /** A component adds its amount if it is a finite number, and nothing otherwise. */
  lemma TotalAdds(c: Components, name: string, v: Value)
    requires name !in c
    ensures Total(c[name := v]) == Total(c) + if v.Number? then v.amount else 0.0
  {
    var before, after := Amounts(c), Amounts(c[name := v]);
    if v.Number? {
      assert after.Keys - {name} == before.Keys;
      SumOverSplit(after.Keys, after, name);
      SumOverAgree(before.Keys, before, after);
    } else {
      assert after == before;
    }
  }

  ghost function Cost(t: Truth): real {
    if Usable(t.components, t.domains) then Total(t.components) else 0.0
  }

  /** Without signed components no usable cost is negative. */
  lemma UndeclaredCostsAreNonNegative(t: Truth)
    requires Usable(t.components, t.domains)
        && forall name :: name in t.domains.value ==> t.domains.value[name] != "signed"
    ensures Cost(t) >= 0.0
  {
    SumNonNegative(Amounts(t.components).Keys, Amounts(t.components));
  }

  lemma {:induction false} SumNonNegative(keys: set<string>, f: map<string, real>)
    requires keys <= f.Keys && forall k :: k in keys ==> f[k] >= 0.0
    ensures SumOver(keys, f) >= 0.0
  {
    if keys != {} {
      var k :| k in keys;
      SumOverSplit(keys, f, k);
      SumNonNegative(keys - {k}, f);
    }
  }

  // ---- The report ----

  datatype Reason = NoReason | ScheduleUnproven | BaselineUnusable

  datatype Report = Report(actualCost: real, counterfactualCost: real, preventedLoss: real, actual: Truth,
                           counterfactual: Truth, applicable: bool, reason: Reason)

  /** The report from the two branches of the replay. */
  ghost function ReportOf<S>(env: Environment<S>, actual: Replay<S>, masked: Replay<S>, recorded: nat): Report {
    var a, m := env.truth(actual.state), env.truth(masked.state);
    var proven := ScheduleProven(env, actual, recorded) && masked.executed == recorded
                  && actual.executed == masked.executed;
    var usable := a.domains == m.domains && Usable(a.components, a.domains) && Usable(m.components, m.domains);
    var applicable := proven && usable && Cost(m) > 0.0;
    Report(Cost(a), Cost(m), Cost(m) - Cost(a), a, m, applicable,
           if applicable then NoReason else if !proven then ScheduleUnproven else BaselineUnusable)
  }

  /** `run_counterfactual`, which reuses the actual replay when the mask changes nothing. */
  ghost function RunCounterfactual<S>(env: Environment<S>, actions: seq<Action>, masking: Masking): Report {
    var actual, masked := RunTrace(env, actions), MaskTrace(masking, actions);
    ReportOf(env, actual, if masked == actions then actual else RunTrace(env, masked), |actions|)
  }

  /** The two passes of `run_counterfactual`. */
  method CompareBranches<S>(env: Environment<S>, actions: seq<Action>, masking: Masking) returns (report: Report)
    ensures report == RunCounterfactual(env, actions, masking)
  {
    var actual := ReplaySchedule(env, actions);
    var maskedActions := MaskTrace(masking, actions);
    var masked := actual;
    if maskedActions != actions {
      masked := ReplaySchedule(env, maskedActions);
    }
    var a, m := env.truth(actual.state), env.truth(masked.state);
    var actualCost := SumCosts(a);
    var maskedCost := SumCosts(m);
    var proven := ScheduleProven(env, actual, |actions|) && masked.executed == |actions|;
    var usable := a.domains == m.domains && Usable(a.components, a.domains) && Usable(m.components, m.domains);
    var applicable := proven && usable && maskedCost > 0.0;
    report := Report(actualCost, maskedCost, maskedCost - actualCost, a, m, applicable,
                     if applicable then NoReason else if !proven then ScheduleUnproven else BaselineUnusable);
  }

  lemma {:induction false} CrashHappensAt<S>(env: Environment<S>, actions: seq<Action>)
    requires RunTrace(env, actions).crashed
    ensures var run := RunTrace(env, actions);
      run.executed < |actions| && RunTrace(env, actions[..run.executed + 1]) == run
    decreases |actions|
  {
    var n := |actions| - 1;
    if RunTrace(env, actions[..n]).crashed {
      CrashHappensAt(env, actions[..n]);
      var e := RunTrace(env, actions).executed;
      assert actions[..n][..e + 1] == actions[..e + 1];
    } else {
      assert actions[..n + 1] == actions;
    }
  }

  /** A mask that changes no action the actual replay reaches -- the one that raises included -- leaves the whole replay
      as it was and prevents nothing. */
  lemma UnreachedMaskPreventsNothing<S>(env: Environment<S>, actions: seq<Action>, masking: Masking)
    requires forall i :: 0 <= i < |actions| && i <= RunTrace(env, actions).executed ==>
      masking(actions[i], i) == actions[i]
    ensures RunTrace(env, MaskTrace(masking, actions)) == RunTrace(env, actions)
    ensures RunCounterfactual(env, actions, masking).preventedLoss == 0.0
  {
    var run, masked := RunTrace(env, actions), MaskTrace(masking, actions);
    if run.crashed {
      CrashHappensAt(env, actions);
      var reached := run.executed + 1;
      assert masked[..reached] == actions[..reached];
      assert RunTrace(env, masked[..reached]) == run;
      CrashEndsTrace(env, masked, reached);
    } else {
      assert masked == actions;
    }
    assert RunTrace(env, masked) == run;
  }

  /** The whole trace ran, and its last step ended the episode. */
  predicate EndsDone<S(==)>(env: Environment<S>, actions: seq<Action>) {
    var n, v := |actions|, Visited(env, actions);
    n > 0 && |v| == n + 1 && env.step(v[n - 1], actions[n - 1]) == Stepped(v[n], true)
  }

  lemma FinalDoneIsLastStep<S>(env: Environment<S>, actions: seq<Action>)
    requires actions != [] && !RunTrace(env, actions).crashed
    ensures RunTrace(env, actions).finalDone <==> EndsDone(env, actions)
  {
    var n := |actions| - 1;
    VisitedIsTrace(env, actions);
    VisitedIsTrace(env, actions[..n]);
  }

  /** An applicable report rests on two full replays that each visit a state after every recorded action, on an actual
      one that ended the episode or reached its horizon, on equal, usable cost declarations at the two last states and
      on a positive baseline; the reason code is empty exactly for applicable reports. */
  lemma ApplicableMeansProven<S>(env: Environment<S>, actions: seq<Action>, masking: Masking)
    ensures var r, n := RunCounterfactual(env, actions, masking), |actions|;
      var a, m := Visited(env, actions), Visited(env, MaskTrace(masking, actions));
      && (r.reason == NoReason <==> r.applicable)
      && r.actual == env.truth(a[|a| - 1]) && r.counterfactual == env.truth(m[|m| - 1])
      && (Usable(r.actual.components, r.actual.domains) ==> r.actualCost == Total(r.actual.components))
      && (Usable(r.counterfactual.components, r.counterfactual.domains) ==>
           r.counterfactualCost == Total(r.counterfactual.components))
      && r.preventedLoss == r.counterfactualCost - r.actualCost
      && (r.reason == ScheduleUnproven <==>
          !(n > 0 && |a| == n + 1 && |m| == n + 1 && (EndsDone(env, actions) || n >= env.horizon)))
      && (r.applicable <==>
          && n > 0 && |a| == n + 1 && |m| == n + 1
          && (EndsDone(env, actions) || n >= env.horizon)
          && r.actual.domains == r.counterfactual.domains
          && Usable(r.actual.components, r.actual.domains)
          && Usable(r.counterfactual.components, r.counterfactual.domains)
          && Total(r.counterfactual.components) > 0.0)
  {
    VisitedIsTrace(env, actions);
    VisitedIsTrace(env, MaskTrace(masking, actions));
    if actions != [] && !RunTrace(env, actions).crashed {
      FinalDoneIsLastStep(env, actions);
    }
  }

  predicate IsClose(a: real, b: real) {
    var gap := if a >= b then a - b else b - a;
    var scale := MaxReal(if a >= 0.0 then a else -a, if b >= 0.0 then b else -b);
    gap <= 0.000000001 * scale
  }

  /** `CounterfactualReport.normalized_prevention`. */
  ghost function Normalized(r: Report): real {
    if !r.applicable then 0.0
    else if r.actualCost < 0.0 && !(r.actual.components != map[] && Usable(r.actual.components, r.actual.domains)
                                    && IsClose(Cost(r.actual), r.actualCost)) then 0.0
    else if r.counterfactualCost <= 0.0 then 0.0
    else MaxReal(0.0, MinReal(1.0, r.preventedLoss / r.counterfactualCost))
  }

  lemma DivisionOrder(a: real, b: real)
    requires b > 0.0
    ensures a / b >= 1.0 <==> a >= b
    ensures a / b <= 0.0 <==> a <= 0.0
  {
    assert (a / b) * b == a;
  }

  lemma DifferenceOverWhole(a: real, b: real)
    requires b > 0.0
    ensures (b - a) / b == 1.0 - a / b
  {
    var x, y := a / b, (b - a) / b;
    assert x * b == a && y * b == b - a;
    var z := x + y - 1.0;
    assert z * b == 0.0;
    if z > 0.0 {
      PositiveProduct(z, b);
    } else if z < 0.0 {
      PositiveProduct(-z, b);
    }
  }

  lemma PositiveProduct(a: real, b: real)
    requires a > 0.0 && b > 0.0
    ensures a * b > 0.0
  {
  }

  lemma EmptyTotalIsZero(c: Components)
    ensures c == map[] ==> Total(c) == 0.0
  {
    assert c == map[] ==> Amounts(c).Keys == {};
  }

  /** The score of a replayed report lies in [0, 1]; it is 1 exactly when the report is applicable and the agent's own
      cost is not positive, and 0 exactly when it is inapplicable or acting cost at least as much as waiting. */
  lemma NormalizedIsCalibrated<S>(env: Environment<S>, actions: seq<Action>, masking: Masking)
    ensures var r := RunCounterfactual(env, actions, masking);
      && 0.0 <= Normalized(r) <= 1.0
      && (Normalized(r) == 1.0 <==> r.applicable && r.actualCost <= 0.0)
      && (Normalized(r) == 0.0 <==> !r.applicable || r.actualCost >= r.counterfactualCost)
      && (r.applicable && 0.0 <= r.actualCost <= r.counterfactualCost ==>
           Normalized(r) == 1.0 - r.actualCost / r.counterfactualCost)
  {
    var r := RunCounterfactual(env, actions, masking);
    if r.applicable {
      DivisionOrder(r.preventedLoss, r.counterfactualCost);
      DifferenceOverWhole(r.actualCost, r.counterfactualCost);
      if r.actualCost < 0.0 {
        EmptyTotalIsZero(r.actual.components);
      }
    }
  }

  // ---- Per-call attribution ----

  datatype Target = Target(tick: nat, index: nat)

  function CallTargets(calls: seq<Call>, readonly: set<string>, tick: nat): seq<Target> {
    if calls == [] then []
    else
      var n := |calls| - 1;
      var before := CallTargets(calls[..n], readonly, tick);
      if calls[n].name !in readonly && !IsIdle(calls[n].name) then before + [Target(tick, n)] else before
  }

  /** Every state-changing call of the trace, in order. */
  function Targets(actions: seq<Action>, readonly: set<string>): seq<Target> {
    if actions == [] then []
    else
      var n := |actions| - 1;
      Targets(actions[..n], readonly) + CallTargets(actions[n].calls, readonly, n)
  }

  function Capped(targets: seq<Target>, cap: Option<int>): seq<Target> {
    if cap.None? || |targets| <= Max(0, cap.value) then targets else targets[..Max(0, cap.value)]
  }

  datatype Entry = Entry(target: Target, marginal: real)
  datatype Failure = Failure(target: Target, reason: Reason)

  /** Whether masking one call yields a marginal, and which. */
  ghost function Attribute<S>(env: Environment<S>, actions: seq<Action>, target: Target): Option<real> {
    var actual := env.truth(RunTrace(env, actions).state);
    var replay := RunTrace(env, MaskAll(MaskCall(target.tick, target.index), actions));
    var truth := env.truth(replay.state);
    if replay.executed == |actions| && truth.domains == actual.domains && Usable(truth.components, truth.domains)
    then Some(Cost(truth) - Cost(actual)) else None
  }

  /** `masked` is the trace without one of its calls: an action with no other call waits instead. */
  predicate RemovesCall(actions: seq<Action>, target: Target, masked: seq<Action>) {
    && |masked| == |actions|
    && (forall i :: 0 <= i < |actions| && i != target.tick ==> masked[i] == actions[i])
    && (target.tick < |actions| ==>
        var a := actions[target.tick];
        if target.index < |a.calls|
        then Makes(masked[target.tick], a.calls[..target.index] + a.calls[target.index + 1..], a.text, a.rationale)
        else masked[target.tick] == a)
  }

  /** The last state the replay of a trace visits, as its environment tells it. */
  function LastTruth<S>(env: Environment<S>, actions: seq<Action>): Truth {
    var v := Visited(env, actions);
    env.truth(v[|v| - 1])
  }

  /** `delta` is what the call at `target` prevented: the trace without it runs to its end, under the same usable cost
      declarations as the actual one, and costs that much more. */
  ghost predicate Prevents<S>(env: Environment<S>, actions: seq<Action>, target: Target, delta: real) {
    exists masked: seq<Action> :: RemovesCall(actions, target, masked) && Without(env, actions, masked, delta)
  }

  /** The masked trace runs to its end under the actual one's declarations, and costs `delta` more. */
  ghost predicate Without<S>(env: Environment<S>, actions: seq<Action>, masked: seq<Action>, delta: real) {
    && |Visited(env, masked)| == |actions| + 1
    && var actual, without := LastTruth(env, actions), LastTruth(env, masked);
      && without.domains == actual.domains && Usable(without.components, without.domains)
      && delta == Total(without.components)
                  - if Usable(actual.components, actual.domains) then Total(actual.components) else 0.0
  }

  ghost predicate PreventsNothing<S>(env: Environment<S>, actions: seq<Action>, target: Target) {
    forall delta :: !Prevents(env, actions, target, delta)
  }

  /** Why a call has no marginal: the trace without it does not run to its end, or else its costs are unusable. */
  ghost predicate FailsFor<S>(env: Environment<S>, actions: seq<Action>, f: Failure) {
    exists masked: seq<Action> ::
      && RemovesCall(actions, f.target, masked)
      && f.reason == if |Visited(env, masked)| <= |actions| then ScheduleUnproven else BaselineUnusable
  }

  lemma RemovesCallIsUnique(actions: seq<Action>, target: Target, a: seq<Action>, b: seq<Action>)
    requires RemovesCall(actions, target, a) && RemovesCall(actions, target, b)
    ensures a == b
  {
    forall i | 0 <= i < |a| ensures a[i] == b[i] {
    }
  }

  lemma MaskCallRemovesIt(actions: seq<Action>, target: Target)
    ensures RemovesCall(actions, target, MaskAll(MaskCall(target.tick, target.index), actions))
  {
    var masked := MaskAll(MaskCall(target.tick, target.index), actions);
    forall i | 0 <= i < |actions| ensures i != target.tick ==> masked[i] == actions[i] {
      PoliciesMaskExactly(actions[i], i);
    }
    if target.tick < |actions| {
      PoliciesMaskExactly(actions[target.tick], target.tick);
    }
  }

  lemma {:induction false} AttributeIsWithout<S>(env: Environment<S>, actions: seq<Action>, target: Target, delta: real)
    ensures Attribute(env, actions, target) == Some(delta) <==>
            Without(env, actions, MaskAll(MaskCall(target.tick, target.index), actions), delta)
  {
    VisitedIsTrace(env, actions);
    VisitedIsTrace(env, MaskAll(MaskCall(target.tick, target.index), actions));
  }

  /** Attribution is exact: a call has a marginal if and only if it prevents some amount, and then it is that amount. */
  lemma {:induction false} AttributionIsExact<S>(env: Environment<S>, actions: seq<Action>, target: Target, delta: real)
    ensures Attribute(env, actions, target) == Some(delta) <==> Prevents(env, actions, target, delta)
  {
    var masked := MaskAll(MaskCall(target.tick, target.index), actions);
    MaskCallRemovesIt(actions, target);
    AttributeIsWithout(env, actions, target, delta);
    if other: seq<Action> :| RemovesCall(actions, target, other) && Without(env, actions, other, delta) {
      RemovesCallIsUnique(actions, target, other, masked);
    }
  }

  function EntryTargets(entries: seq<Entry>): seq<Target> {
    seq(|entries|, i requires 0 <= i < |entries| => entries[i].target)
  }

  function FailureTargets(failures: seq<Failure>): seq<Target> {
    seq(|failures|, i requires 0 <= i < |failures| => failures[i].target)
  }

  ghost predicate CallTargetsOf(calls: seq<Call>, readonly: set<string>, tick: nat, t: Target) {
    t.tick == tick && t.index < |calls| && t.index in StateChanging(calls, readonly)
  }

  predicate Earlier(s: Target, t: Target) {
    s.tick < t.tick || (s.tick == t.tick && s.index < t.index)
  }

  predicate InTraceOrder(ts: seq<Target>) {
    forall i, j :: 0 <= i < j < |ts| ==> Earlier(ts[i], ts[j])
  }

  lemma ConcatInTraceOrder(a: seq<Target>, b: seq<Target>)
    requires InTraceOrder(a) && InTraceOrder(b)
    requires forall s, t :: s in a && t in b ==> Earlier(s, t)
    ensures InTraceOrder(a + b)
  {
  }

  lemma {:induction false} CallTargetsAreStateChanging(calls: seq<Call>, readonly: set<string>, tick: nat)
    ensures forall t :: t in CallTargets(calls, readonly, tick) <==> CallTargetsOf(calls, readonly, tick, t)
    ensures InTraceOrder(CallTargets(calls, readonly, tick))
  {
    if calls != [] {
      var n := |calls| - 1;
      CallTargetsAreStateChanging(calls[..n], readonly, tick);
      assert forall t: Target :: t.index < n ==>
        (CallTargetsOf(calls, readonly, tick, t) <==> CallTargetsOf(calls[..n], readonly, tick, t));
      ConcatInTraceOrder(CallTargets(calls[..n], readonly, tick), [Target(tick, n)]);
    }
  }

  /** The attribution loop visits exactly the state-changing calls, each once, in trace order. */
  lemma {:induction false} TargetsAreStateChangingCalls(actions: seq<Action>, readonly: set<string>)
    ensures forall t :: t in Targets(actions, readonly) <==>
      t.tick < |actions| && CallTargetsOf(actions[t.tick].calls, readonly, t.tick, t)
    ensures InTraceOrder(Targets(actions, readonly))
    decreases |actions|
  {
    if actions != [] {
      var n := |actions| - 1;
      TargetsAreStateChangingCalls(actions[..n], readonly);
      CallTargetsAreStateChanging(actions[n].calls, readonly, n);
      ConcatInTraceOrder(Targets(actions[..n], readonly), CallTargets(actions[n].calls, readonly, n));
    }
  }

  // ---- Groups of repeated calls ----

  /** The targets of the calls with one name and one argument signature, in trace order. */
  function GroupOf(actions: seq<Action>, targets: seq<Target>, name: string, args: string): (g: seq<Target>)
    ensures forall t :: t in g <==>
      && t in targets && t.tick < |actions| && t.index < |actions[t.tick].calls|
      && actions[t.tick].calls[t.index].name == name && actions[t.tick].calls[t.index].args == args
  {
    if targets == [] then []
    else
      var n := |targets| - 1;
      assert forall x :: x in targets <==> x in targets[..n] || x == targets[n];
      var t, before := targets[n], GroupOf(actions, targets[..n], name, args);
      if t.tick < |actions| && t.index < |actions[t.tick].calls|
         && actions[t.tick].calls[t.index].name == name && actions[t.tick].calls[t.index].args == args
      then before + [t] else before
  }

  function PairsOf(targets: seq<Target>): set<(nat, nat)> {
    set t | t in targets :: (t.tick, t.index)
  }

  /** Mask the calls of `targets` one at a time, the last one first. */
  function MaskInTurn(actions: seq<Action>, targets: seq<Target>): seq<Action>
    decreases |targets|
  {
    if targets == [] then actions
    else
      var n := |targets| - 1;
      MaskInTurn(MaskAll(MaskCall(targets[n].tick, targets[n].index), actions), targets[..n])
  }

  /** Rebuild an action only where it is targeted. */
  function MaskTargeted(a: Action, masked: set<nat>): Action {
    if masked == {} then a else Rebuilt(a, Unmasked(a.calls, masked))
  }

  /** Removing a position and then smaller ones is removing all of them at once. */
  lemma {:induction false} UnmaskBelow(calls: seq<Call>, j: nat, below: set<nat>)
    requires j < |calls| && forall p :: p in below ==> p < j
    ensures Unmasked(Unmasked(calls, {j}), below) == Unmasked(calls, below + {j})
    ensures |Unmasked(calls, {j})| == |calls| - 1
  {
    var n := |calls| - 1;
    if n == j {
      NothingMaskedKeepsAll(calls[..n], {j});
      UnmaskIgnoresBeyond(calls[..n], below, below + {j});
    } else {
      UnmaskBelow(calls[..n], j, below);
      UnmaskAbove(calls, j, below);
    }
  }

  lemma {:induction false} UnmaskAbove(calls: seq<Call>, j: nat, below: set<nat>)
    requires j < |calls| - 1 && forall p :: p in below ==> p < j
    requires |Unmasked(calls[..|calls| - 1], {j})| == |calls| - 2
    ensures var n, u := |calls| - 1, Unmasked(calls[..|calls| - 1], {j});
      && Unmasked(calls, {j}) == u + [calls[n]]
      && Unmasked(Unmasked(calls, {j}), below) == Unmasked(u, below) + [calls[n]]
      && Unmasked(calls, below + {j}) == Unmasked(calls[..n], below + {j}) + [calls[n]]
  {
    var n, u := |calls| - 1, Unmasked(calls[..|calls| - 1], {j});
    assert Unmasked(calls, {j}) == u + [calls[n]];
    UnmaskedThenOne(u, calls[n], below);
    assert |u| !in below && n !in below + {j};
  }

  lemma UnmaskedThenOne(calls: seq<Call>, last: Call, masked: set<nat>)
    ensures Unmasked(calls + [last], masked) ==
            if |calls| in masked then Unmasked(calls, masked) else Unmasked(calls, masked) + [last]
  {
    assert (calls + [last])[..|calls|] == calls;
  }

  lemma {:induction false} UnmaskIgnoresBeyond(calls: seq<Call>, a: set<nat>, b: set<nat>)
    requires forall i :: 0 <= i < |calls| ==> (i in a <==> i in b)
    ensures Unmasked(calls, a) == Unmasked(calls, b)
  {
    if calls != [] {
      UnmaskIgnoresBeyond(calls[..|calls| - 1], a, b);
    }
  }

  lemma MaskLastThenRest(a: Action, j: nat, below: set<nat>)
    requires j < |a.calls| && forall p :: p in below ==> p < j
    ensures MaskTargeted(Mask(MaskCall(0, j), a, 0), below) == MaskTargeted(a, below + {j})
  {
    UnmaskBelow(a.calls, j, below);
    assert j in below + {j};
    if below == {} {
      assert below + {j} == {j};
    } else {
      var p :| p in below;
      assert Unmasked(a.calls, {j}) != [];
      assert Mask(MaskCall(0, j), a, 0).calls == Unmasked(a.calls, {j});
    }
  }

  ghost predicate ValidTargets(actions: seq<Action>, targets: seq<Target>) {
    InTraceOrder(targets) && forall t :: t in targets ==> t.tick < |actions| && t.index < |actions[t.tick].calls|
  }

  lemma EarlierTargetsStayValid(actions: seq<Action>, targets: seq<Target>)
    requires targets != [] && ValidTargets(actions, targets)
    ensures var n := |targets| - 1;
      ValidTargets(MaskAll(MaskCall(targets[n].tick, targets[n].index), actions), targets[..n])
  {
    var n := |targets| - 1;
    var last := targets[n];
    var masked := MaskAll(MaskCall(last.tick, last.index), actions);
    forall t | t in targets[..n] ensures t.tick < |masked| && t.index < |masked[t.tick].calls| {
      var i :| 0 <= i < n && targets[i] == t;
      assert Earlier(targets[i], targets[n]);
      if t.tick == last.tick {
        UnmaskBelow(actions[t.tick].calls, last.index, {});
      }
    }
  }

  lemma PositionsSplit(targets: seq<Target>, tick: nat)
    requires targets != [] && InTraceOrder(targets)
    ensures var n := |targets| - 1;
      var before, last := Positions(PairsOf(targets[..n]), tick), targets[n];
      && Positions(PairsOf(targets), tick) == (if last.tick == tick then before + {last.index} else before)
      && (last.tick == tick ==> forall p :: p in before ==> p < last.index)
  {
    var n := |targets| - 1;
    var before, last := Positions(PairsOf(targets[..n]), tick), targets[n];
    assert targets == targets[..n] + [last];
    forall p | p in before ensures last.tick == tick ==> p < last.index {
      var t :| t in targets[..n] && t.tick == tick && t.index == p;
      var i :| 0 <= i < n && targets[i] == t;
      assert Earlier(targets[i], targets[n]);
    }
    forall p: nat
      ensures p in Positions(PairsOf(targets), tick) <==> p in before || (last.tick == tick && p == last.index)
    {
      if last.tick == tick && p == last.index {
        assert (last.tick, last.index) in PairsOf(targets);
      }
      if p in before {
        assert (tick, p) in PairsOf(targets);
      }
      if p in Positions(PairsOf(targets), tick) {
        var t :| t in targets && t.tick == tick && t.index == p;
        assert t == last || t in targets[..n];
      }
    }
  }

  /** Masking calls one at a time, the last one first, masks exactly those calls and touches no other action. */
  lemma {:induction false} MaskInTurnIsExact(actions: seq<Action>, targets: seq<Target>)
    requires ValidTargets(actions, targets)
    ensures var m := MaskInTurn(actions, targets);
      && |m| == |actions|
      && forall i :: 0 <= i < |actions| ==> m[i] == MaskTargeted(actions[i], Positions(PairsOf(targets), i))
    decreases |targets|
  {
    if targets == [] {
      assert forall i :: Positions(PairsOf(targets), i) == {};
    } else {
      var n := |targets| - 1;
      var last := targets[n];
      var masked := MaskAll(MaskCall(last.tick, last.index), actions);
      EarlierTargetsStayValid(actions, targets);
      MaskInTurnIsExact(masked, targets[..n]);
      forall i | 0 <= i < |actions|
        ensures MaskTargeted(masked[i], Positions(PairsOf(targets[..n]), i)) ==
                MaskTargeted(actions[i], Positions(PairsOf(targets), i))
      {
        PositionsSplit(targets, i);
        if i == last.tick {
          MaskLastThenRest(actions[i], last.index, Positions(PairsOf(targets[..n]), i));
          assert masked[i] == Mask(MaskCall(0, last.index), actions[i], 0);
        }
      }
    }
  }

  lemma {:induction false} GroupKeepsOrder(actions: seq<Action>, targets: seq<Target>, name: string, args: string)
    requires InTraceOrder(targets)
    ensures InTraceOrder(GroupOf(actions, targets, name, args))
  {
    if targets != [] {
      var n := |targets| - 1;
      GroupKeepsOrder(actions, targets[..n], name, args);
      forall s, t | s in GroupOf(actions, targets[..n], name, args) && t in [targets[n]] ensures Earlier(s, t) {
        var i :| 0 <= i < n && targets[i] == s;
      }
      ConcatInTraceOrder(GroupOf(actions, targets[..n], name, args), [targets[n]]);
    }
  }

  /** Whether the action at some tick holds a call of the group. */
  predicate Targeted(group: seq<Target>, tick: nat) {
    exists t :: t in group && t.tick == tick
  }

  /** Masking a group of repeated calls is masking its calls in turn if and only if every action without a call of the
      group has a first call named by its dominant label: only then is the group's effect that of its calls alone. */
  lemma GroupMaskIsItsCallsInTurnExactly(actions: seq<Action>, readonly: set<string>, name: string, args: string)
    ensures var group := GroupOf(actions, Targets(actions, readonly), name, args);
      MaskAll(MaskGroup(PairsOf(group)), actions) == MaskInTurn(actions, group) <==>
      forall i :: 0 <= i < |actions| && !Targeted(group, i) ==> Labelled(actions[i])
  {
    var group := GroupOf(actions, Targets(actions, readonly), name, args);
    var masked, turn := MaskAll(MaskGroup(PairsOf(group)), actions), MaskInTurn(actions, group);
    TargetsAreStateChangingCalls(actions, readonly);
    GroupKeepsOrder(actions, Targets(actions, readonly), name, args);
    MaskInTurnIsExact(actions, group);
    forall i | 0 <= i < |actions| ensures masked[i] == turn[i] <==> Targeted(group, i) || Labelled(actions[i]) {
      TargetedMeansPositions(group, i);
      if !Targeted(group, i) {
        GroupMaskIsIdentityExactly(PairsOf(group), actions[i], i);
      }
    }
    assert masked == turn <==> forall i :: 0 <= i < |actions| ==> masked[i] == turn[i];
  }

  lemma TargetedMeansPositions(group: seq<Target>, tick: nat)
    ensures Targeted(group, tick) <==> Positions(PairsOf(group), tick) != {}
  {
    if t :| t in group && t.tick == tick {
      assert (t.tick, t.index) in PairsOf(group) && t.index in Positions(PairsOf(group), tick);
    }
    if p :| p in Positions(PairsOf(group), tick) {
      var t :| t in group && t.tick == tick && t.index == p;
    }
  }

  /** A fallback wait, labelled by its cause, before two identical valve calls in one action. */
  function FallbackTrace(): seq<Action> {
    [Action([WAIT], Some("fc_retry_fallback"), None, ""),
     Action([Call("open_valve", "a", "v=1"), Call("open_valve", "b", "v=1")], Some("open_valve"), None, "")]
  }

  /** The concrete difference: masking the repeated calls of tick 1 already changes what the simulator is given at
      tick 0. */
  lemma GroupMaskDisturbsEarlierTick()
    ensures var actions := FallbackTrace();
      var group := GroupOf(actions, Targets(actions, {}), "open_valve", "v=1");
      && group == [Target(1, 0), Target(1, 1)]
      && !SameUpTo(Visited(Recorder(), MaskAll(MaskGroup(PairsOf(group)), actions)), Visited(Recorder(), actions), 1)
  {
    var actions, group := FallbackTrace(), [Target(1, 0), Target(1, 1)];
    FallbackTargets();
    FallbackGroup();
    FallbackIsRelabelled(PairsOf(group));
    RecorderTellsApart(MaskAll(MaskGroup(PairsOf(group)), actions), actions, 1);
  }

  lemma FallbackGroup()
    ensures GroupOf(FallbackTrace(), [Target(1, 0), Target(1, 1)], "open_valve", "v=1") == [Target(1, 0), Target(1, 1)]
  {
    var group := [Target(1, 0), Target(1, 1)];
    assert group[..1] == [Target(1, 0)] && group[..1][..0] == [];
    assert GroupOf(FallbackTrace(), group[..1], "open_valve", "v=1") == group[..1];
  }

  lemma FallbackIsRelabelled(targets: set<(nat, nat)>)
    requires targets == PairsOf([Target(1, 0), Target(1, 1)])
    ensures MaskAll(MaskGroup(targets), FallbackTrace())[..1] != FallbackTrace()[..1]
  {
    var actions := FallbackTrace();
    assert Positions(targets, 0) == {};
    GroupMaskIsIdentityExactly(targets, actions[0], 0);
    assert MaskAll(MaskGroup(targets), actions)[..1][0] != actions[..1][0];
  }

  lemma FallbackTargets()
    ensures Targets(FallbackTrace(), {}) == [Target(1, 0), Target(1, 1)]
  {
    var actions := FallbackTrace();
    var calls := actions[1].calls;
    assert actions[..1] == [actions[0]] && actions[..1][..0] == [];
    assert calls[..1] == [calls[0]] && calls[..1][..0] == [];
    assert CallTargets([WAIT], {}, 0) == [];
    assert CallTargets(calls[..1], {}, 1) == [Target(1, 0)];
    assert Targets(actions[..1], {}) == [];
  }

  // ---- The attribution loop ----

  /** What the two result lists say about the calls attempted so far. */
  ghost predicate Accounts<S>(env: Environment<S>, actions: seq<Action>, attempted: seq<Target>,
                              entries: seq<Entry>, failures: seq<Failure>)
  {
    && multiset(EntryTargets(entries)) + multiset(FailureTargets(failures)) == multiset(attempted)
    && (forall e :: e in entries ==> Prevents(env, actions, e.target, e.marginal))
    && (forall f :: f in failures ==> FailsFor(env, actions, f) && PreventsNothing(env, actions, f.target))
    && InTraceOrder(EntryTargets(entries)) && InTraceOrder(FailureTargets(failures))
  }

  lemma AccountEntry<S>(env: Environment<S>, actions: seq<Action>, attempted: seq<Target>, entries: seq<Entry>,
                        failures: seq<Failure>, e: Entry)
    requires Accounts(env, actions, attempted, entries, failures)
    requires Prevents(env, actions, e.target, e.marginal) && forall t :: t in attempted ==> Earlier(t, e.target)
    ensures Accounts(env, actions, attempted + [e.target], entries + [e], failures)
  {
    assert EntryTargets(entries + [e]) == EntryTargets(entries) + [e.target];
    AttemptedBefore(EntryTargets(entries), FailureTargets(failures), attempted);
    ConcatInTraceOrder(EntryTargets(entries), [e.target]);
    OneMoreAttempted(EntryTargets(entries), FailureTargets(failures), attempted, e.target);
  }

  lemma EarlierCome(targets: seq<Target>, n: nat)
    requires n < |targets| && InTraceOrder(targets)
    ensures forall t :: t in targets[..n] ==> Earlier(t, targets[n])
  {
  }

  lemma AttemptedBefore(a: seq<Target>, b: seq<Target>, whole: seq<Target>)
    requires multiset(a) + multiset(b) == multiset(whole)
    ensures forall t :: t in a || t in b ==> t in whole
  {
    forall t | t in a || t in b ensures t in whole {
      assert t in multiset(a) + multiset(b) && t in multiset(whole);
    }
  }

  lemma OneMoreAttempted(a: seq<Target>, b: seq<Target>, whole: seq<Target>, t: Target)
    requires multiset(a) + multiset(b) == multiset(whole)
    ensures multiset(a) + multiset(b + [t]) == multiset(whole + [t])
    ensures multiset(a + [t]) + multiset(b) == multiset(whole + [t])
  {
    assert multiset(b + [t]) == multiset(b) + multiset{t} && multiset(a + [t]) == multiset(a) + multiset{t};
    assert multiset(whole + [t]) == multiset(whole) + multiset{t};
  }

  lemma AccountFailure<S>(env: Environment<S>, actions: seq<Action>, attempted: seq<Target>, entries: seq<Entry>,
                          failures: seq<Failure>, f: Failure)
    requires Accounts(env, actions, attempted, entries, failures)
    requires FailsFor(env, actions, f) && PreventsNothing(env, actions, f.target)
    requires forall t :: t in attempted ==> Earlier(t, f.target)
    ensures Accounts(env, actions, attempted + [f.target], entries, failures + [f])
  {
    assert FailureTargets(failures + [f]) == FailureTargets(failures) + [f.target];
    AttemptedBefore(EntryTargets(entries), FailureTargets(failures), attempted);
    ConcatInTraceOrder(FailureTargets(failures), [f.target]);
    OneMoreAttempted(EntryTargets(entries), FailureTargets(failures), attempted, f.target);
  }

  /** One pass of the attribution loop: replay with one call masked. */
  method AttributeCall<S>(env: Environment<S>, actions: seq<Action>, actual: Truth, target: Target)
    returns (marginal: Option<real>, reason: Reason)
    requires actual == env.truth(RunTrace(env, actions).state)
    ensures marginal == Attribute(env, actions, target)
    ensures marginal.Some? ==> Prevents(env, actions, target, marginal.value)
    ensures marginal == None ==>
      FailsFor(env, actions, Failure(target, reason)) && PreventsNothing(env, actions, target)
  {
    forall delta ensures Attribute(env, actions, target) == Some(delta) <==> Prevents(env, actions, target, delta) {
      AttributionIsExact(env, actions, target, delta);
    }
    MaskCallRemovesIt(actions, target);
    VisitedIsTrace(env, MaskAll(MaskCall(target.tick, target.index), actions));
    var replay := ReplaySchedule(env, MaskAll(MaskCall(target.tick, target.index), actions));
    if replay.executed != |actions| {
      return None, ScheduleUnproven;
    }
    var truth := env.truth(replay.state);
    if truth.domains != actual.domains || !Usable(truth.components, truth.domains) {
      return None, BaselineUnusable;
    }
    var cost := SumCosts(truth);
    var actualCost := SumCosts(actual);
    return Some(cost - actualCost), NoReason;
  }

  /** `_attribute_per_action_prevented_loss`. Entries and failures together are the attempted calls, each call in
      exactly one of them, and an entry carries the outcome delta of masking that call alone. */
  method AttributePerAction<S>(env: Environment<S>, actions: seq<Action>, readonly: set<string>, cap: Option<int>)
    returns (entries: seq<Entry>, failures: seq<Failure>, attempted: seq<Target>, capped: bool)
    ensures attempted <= Targets(actions, readonly)
    ensures |attempted| == if cap.None? then |Targets(actions, readonly)|
                           else Min(|Targets(actions, readonly)|, Max(0, cap.value))
    ensures capped <==> |attempted| < |Targets(actions, readonly)|
    ensures Accounts(env, actions, attempted, entries, failures)
  {
    var targets := Targets(actions, readonly);
    attempted := Capped(targets, cap);
    capped := cap.Some? && |targets| > Max(0, cap.value);
    var run := ReplaySchedule(env, actions);
    var actual := env.truth(run.state);
    entries, failures := [], [];
    TargetsAreStateChangingCalls(actions, readonly);
    for i := 0 to |attempted|
      invariant Accounts(env, actions, attempted[..i], entries, failures)
    {
      assert attempted[..i + 1] == attempted[..i] + [attempted[i]];
      EarlierCome(attempted, i);
      var marginal, reason := AttributeCall(env, actions, actual, attempted[i]);
      match marginal {
        case None =>
          AccountFailure(env, actions, attempted[..i], entries, failures, Failure(attempted[i], reason));
          failures := failures + [Failure(attempted[i], reason)];
        case Some(delta) =>
          AccountEntry(env, actions, attempted[..i], entries, failures, Entry(attempted[i], delta));
          entries := entries + [Entry(attempted[i], delta)];
      }
    }
    assert attempted[..|attempted|] == attempted;
  }

  /** The stepping loop of `_replay_recorded_schedule`. */
  method ReplaySchedule<S>(env: Environment<S>, actions: seq<Action>) returns (r: Replay<S>)
    ensures r == RunTrace(env, actions)
  {
    var state, executed, finalDone := env.start, 0, false;
    for i := 0 to |actions|
      invariant RunTrace(env, actions[..i]) == Replay(state, executed, finalDone, false)
    {
      assert actions[..i + 1][..i] == actions[..i];
      match env.step(state, actions[i]) {
        case Crashed =>
          CrashEndsTrace(env, actions, i + 1);
          return Replay(state, executed, finalDone, true);
        case Stepped(next, done) =>
          state, executed, finalDone := next, executed + 1, done;
      }
    }
    assert actions[..|actions|] == actions;
    r := Replay(state, executed, finalDone, false);
  }

  lemma {:induction false} CrashEndsTrace<S>(env: Environment<S>, actions: seq<Action>, n: nat)
    requires n <= |actions| && RunTrace(env, actions[..n]).crashed
    ensures RunTrace(env, actions) == RunTrace(env, actions[..n])
    decreases |actions| - n
  {
    if n == |actions| {
      assert actions[..n] == actions;
    } else {
      assert actions[..n + 1][..n] == actions[..n];
      CrashEndsTrace(env, actions, n + 1);
    }
  }

  /** `_sum_costs`. */
  method SumCosts(t: Truth) returns (total: real)
    ensures total == Cost(t)
  {
    total := 0.0;
    if !Usable(t.components, t.domains) {
      return;
    }
    var amounts := Amounts(t.components);
    var todo := amounts.Keys;
    while todo != {}
      invariant todo <= amounts.Keys
      invariant total + SumOver(todo, amounts) == Total(t.components)
      decreases todo
    {
      var name :| name in todo;
      SumOverSplit(todo, amounts, name);
      total := total + amounts[name];
      todo := todo - {name};
    }
  }
}
