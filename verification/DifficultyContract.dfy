/** The four-level difficulty contract of core/difficulty_contract.py: floors on configuration and replay evidence,
    the exemption for bounded replays, and the calibration loop over the levels. */
module DifficultyContract {
  import opened Common

  datatype Level = Basic | Medium | High | Extreme

  function Rank(level: Level): nat {
    match level
    case Basic => 0
    case Medium => 1
    case High => 2
    case Extreme => 3
  }

  const LEVELS := [Basic, Medium, High, Extreme]

  datatype Requirements = Requirements(
    horizonTicks: int, taskMilestones: int, perturbations: int, visiblePerturbations: int, hiddenPerturbations: int,
    perturbationKinds: int, eventSpanTicks: int, effectiveTicks: int, physicalTools: int, strategySwitches: int,
    interactionTurns: int, dependencyDepth: int)

  /** `DIFFICULTY_REQUIREMENTS`. */
  function RequirementsOf(level: Level): Requirements {
    match level
    case Basic => Requirements(3, 1, 0, 0, 0, 0, 0, 1, 1, 0, 1, 1)
    case Medium => Requirements(6, 1, 1, 1, 0, 1, 0, 2, 1, 0, 2, 1)
    case High => Requirements(6, 2, 2, 1, 1, 2, 2, 2, 2, 1, 3, 2)
    case Extreme => Requirements(10, 3, 3, 1, 1, 3, 4, 3, 2, 2, 4, 3)
  }

  function PlanningDepthFloor(level: Level): int {
    match level
    case Basic => 1
    case Medium => 2
    case High => 3
    case Extreme => 4
  }

  function ConstraintBreadthFloor(level: Level): int {
    match level
    case Basic => 1
    case Medium => 2
    case High => 2
    case Extreme => 3
  }

  // ---- Evidence ----

  datatype Perturbation = Perturbation(kind: string, tick: int, hidden: bool)

  /** `milestones` is the declared, nonempty milestone or phase list, if any; `axes` says which of the family's
      constraint axes are positive. */
  datatype Scenario = Scenario(
    declared: Option<Level>, staticFamily: bool, perturbations: seq<Perturbation>, horizonTicks: int,
    milestones: Option<set<int>>, observabilityBurden: int, decisionDepth: int, axes: seq<bool>, taskSize: int)

  datatype DepthStatus = DeclaredDag | PhaseDag | SingleStageDag | OrderedMilestones | OtherStatus
  datatype ReplayStatus = OneMinimal | BudgetExhausted | BoundedUpperBound | ProvedLowerBound | OtherReplay

  datatype Trajectory = Trajectory(
    effectiveTicks: set<int>, observedTools: set<string>, strategySwitches: int, interactionTurns: int,
    exactDepth: Option<int>, depthStatus: DepthStatus, depthLowerBound: Option<int>, depthProof: Option<DepthStatus>)

  datatype Minimality = Minimality(
    status: ReplayStatus, minimalTicks: set<int>, minimalEndpoints: set<string>, minimalToolSet: set<string>,
    exactDepth: Option<int>, depthStatus: DepthStatus, depthLowerBound: Option<int>, depthProof: Option<DepthStatus>,
    successfulTicks: Option<set<int>>, successfulTools: set<string>)

  // ---- Features ----

  function Events(rows: seq<Perturbation>): seq<Perturbation> {
    if rows == [] then []
    else if rows[0].kind == "storm_window" then Events(rows[1..])
    else [rows[0]] + Events(rows[1..])
  }

  function HiddenCount(rows: seq<Perturbation>): (n: nat)
    ensures n <= |rows|
  {
    if rows == [] then 0 else (if rows[0].hidden then 1 else 0) + HiddenCount(rows[1..])
  }

  function Ticks(rows: seq<Perturbation>): set<int> {
    set r | r in rows :: r.tick
  }

  function Latest(rows: seq<Perturbation>): (t: int)
    requires rows != []
    ensures forall r :: r in rows ==> r.tick <= t
  {
    if |rows| == 1 then rows[0].tick else Max(rows[0].tick, Latest(rows[1..]))
  }

  function Earliest(rows: seq<Perturbation>): (t: int)
    requires rows != []
    ensures forall r :: r in rows ==> t <= r.tick
  {
    if |rows| == 1 then rows[0].tick else Min(rows[0].tick, Earliest(rows[1..]))
  }

  function CountTrue(flags: seq<bool>): nat {
    if flags == [] then 0 else (if flags[0] then 1 else 0) + CountTrue(flags[1..])
  }

  datatype Static = Static(
    milestones: nat, perturbations: nat, visible: nat, hidden: nat, kinds: nat, span: nat, breadth: nat)

  /** `_configuration_features`, with `_task_milestones` counted. */
  function Configuration(s: Scenario): Static {
    var rows := Events(s.perturbations);
    var span := if rows == [] then 0 else Latest(rows) - Earliest(rows);
    assert rows != [] ==> rows[0] in rows;
    Static(
      if s.milestones.Some? then |s.milestones.value| else if rows == [] then 1 else |Ticks(rows)|,
      |rows|, |rows| - HiddenCount(rows), HiddenCount(rows), |set r | r in rows :: r.kind|, span, CountTrue(s.axes))
  }

  datatype Behaviour = Behaviour(
    effectiveTicks: nat, observedTools: nat, strategySwitches: int, interactionTurns: int, exactDepth: Option<int>,
    depthStatus: DepthStatus, depthLowerBound: Option<int>, depthProof: Option<DepthStatus>, replay: ReplayStatus,
    minimalTicks: nat, minimalTools: nat, successfulTicks: nat, successfulTools: nat)

  function Allowed(tools: set<string>, allowed: set<string>): set<string> {
    if allowed == {} then tools else tools * allowed
  }

  /** `_behavior_features`. */
  function BehaviourOf(t: Trajectory, m: Minimality, allowed: set<string>): Behaviour {
    var minimal := if m.minimalEndpoints != {} then m.minimalEndpoints else m.minimalToolSet;
    var successful := if m.successfulTools != {} then m.successfulTools else m.minimalToolSet;
    Behaviour(
      |if m.status.OneMinimal? then t.effectiveTicks + m.minimalTicks else t.effectiveTicks|,
      |Allowed(t.observedTools, allowed)|, t.strategySwitches, t.interactionTurns,
      if t.exactDepth.Some? then t.exactDepth else m.exactDepth,
      if t.exactDepth.Some? then t.depthStatus else m.depthStatus,
      if t.depthLowerBound.Some? then t.depthLowerBound else m.depthLowerBound,
      if t.depthProof.Some? then t.depthProof else m.depthProof,
      m.status, |m.minimalTicks|, |Allowed(minimal, allowed)|,
      |if m.successfulTicks.Some? then m.successfulTicks.value else m.minimalTicks|,
      |Allowed(successful, allowed)|)
  }

  predicate IsStatic(s: Scenario) {
    s.staticFamily && s.perturbations == []
  }

  /** What the configuration features count: the perturbations that are no storm windows, hidden and visible ones apart,
      their kinds, their distinct ticks where no milestones are declared, and the distance of the farthest two. */
  lemma ConfigurationCounts(s: Scenario)
    ensures var c, all := Configuration(s), s.perturbations;
      var counted := set i | 0 <= i < |all| && all[i].kind != "storm_window";
      var hidden := set i | 0 <= i < |all| && all[i].kind != "storm_window" && all[i].hidden;
      && c.perturbations == |counted| && c.hidden == |hidden| && c.visible == |counted| - |hidden|
      && c.breadth == |set i | 0 <= i < |s.axes| && s.axes[i]|
    ensures var c, counted := Configuration(s), set r | r in s.perturbations && r.kind != "storm_window";
      var ticks := set r | r in counted :: r.tick;
      && c.kinds == |set r | r in counted :: r.kind|
      && c.milestones == (if s.milestones.Some? then |s.milestones.value| else if counted == {} then 1 else |ticks|)
      && (forall x, y :: x in ticks && y in ticks ==> x - y <= c.span)
      && (if counted == {} then c.span == 0 else exists x, y :: x in ticks && y in ticks && x - y == c.span)
  {
    var rows := Events(s.perturbations);
    var counted := set r | r in s.perturbations && r.kind != "storm_window";
    EventsAreCounted(s.perturbations);
    EventsAreReal(s.perturbations);
    CountTrueCounts(s.axes);
    assert counted == set r | r in rows;
    assert (set r | r in counted :: r.tick) == Ticks(rows);
    assert (set r | r in counted :: r.kind) == set r | r in rows :: r.kind;
    assert rows == [] <==> counted == {} by {
      if rows != [] {
        assert rows[0] in counted;
      }
    }
    if rows != [] {
      SpanIsAttained(rows);
    }
  }

  lemma {:induction false} EventsAreReal(rows: seq<Perturbation>)
    ensures forall r :: r in Events(rows) <==> r in rows && r.kind != "storm_window"
  {
    if rows != [] {
      EventsAreReal(rows[1..]);
      assert forall r :: r in rows <==> r == rows[0] || r in rows[1..];
    }
  }

  function Shifted(s: set<nat>): set<nat> {
    set i | i in s :: i + 1
  }

  lemma {:induction false} ShiftedHasSameSize(s: set<nat>)
    ensures |Shifted(s)| == |s|
  {
    if k :| k in s {
      var less := Shifted(s - {k});
      ShiftedHasSameSize(s - {k});
      forall x | x in Shifted(s) ensures x in less || x == k + 1 {
        var i :| i in s && i + 1 == x;
        assert i == k || i in s - {k};
      }
      assert k + 1 !in less && Shifted(s) == less + {k + 1};
    }
  }

  lemma OneMoreInFront(first: bool, rest: set<nat>, all: set<nat>)
    requires forall i: nat :: i in all <==> if i == 0 then first else i - 1 in rest
    ensures |all| == |rest| + if first then 1 else 0
  {
    var shifted := Shifted(rest);
    ShiftedHasSameSize(rest);
    forall i: nat | i > 0 ensures i in all <==> i in shifted {
      if i - 1 in rest {
        assert (i - 1) + 1 in shifted;
      }
    }
    assert all == if first then shifted + {0} else shifted;
  }

  lemma {:induction false} EventsAreCounted(rows: seq<Perturbation>)
    ensures |Events(rows)| == |set i | 0 <= i < |rows| && rows[i].kind != "storm_window"|
    ensures HiddenCount(Events(rows)) ==
            |set i | 0 <= i < |rows| && rows[i].kind != "storm_window" && rows[i].hidden|
  {
    if rows != [] {
      var rest := rows[1..];
      EventsAreCounted(rest);
      OneMoreInFront(rows[0].kind != "storm_window",
                     set i | 0 <= i < |rest| && rest[i].kind != "storm_window",
                     set i | 0 <= i < |rows| && rows[i].kind != "storm_window");
      OneMoreInFront(rows[0].kind != "storm_window" && rows[0].hidden,
                     set i | 0 <= i < |rest| && rest[i].kind != "storm_window" && rest[i].hidden,
                     set i | 0 <= i < |rows| && rows[i].kind != "storm_window" && rows[i].hidden);
      assert rows[0].kind != "storm_window" ==> Events(rows)[1..] == Events(rest);
    }
  }

  lemma {:induction false} CountTrueCounts(flags: seq<bool>)
    ensures CountTrue(flags) == |set i | 0 <= i < |flags| && flags[i]|
  {
    if flags != [] {
      var rest := flags[1..];
      CountTrueCounts(rest);
      OneMoreInFront(flags[0], set i | 0 <= i < |rest| && rest[i], set i | 0 <= i < |flags| && flags[i]);
    }
  }

  lemma {:induction false} SpanIsAttained(rows: seq<Perturbation>)
    requires rows != []
    ensures Latest(rows) in Ticks(rows) && Earliest(rows) in Ticks(rows)
    ensures forall t :: t in Ticks(rows) ==> Earliest(rows) <= t <= Latest(rows)
  {
    assert rows[0] in rows;
    if |rows| > 1 {
      SpanIsAttained(rows[1..]);
      assert forall r :: r in rows[1..] ==> r in rows;
    }
  }

  /** What the behaviour features count. An empty list of physical tools restricts nothing; the one-minimal replay's own
      ticks count as effective; depth and its proof come from the trajectory where it has them, else from the replay. */
  lemma BehaviourCounts(t: Trajectory, m: Minimality, allowed: set<string>)
    ensures var b := BehaviourOf(t, m, allowed);
      && b.effectiveTicks == |set x | x in t.effectiveTicks + m.minimalTicks &&
                                      (x in t.effectiveTicks || m.status.OneMinimal?)|
      && b.minimalTicks == |m.minimalTicks| && b.replay == m.status
      && b.observedTools == Physical(t.observedTools, allowed)
      && b.strategySwitches == t.strategySwitches && b.interactionTurns == t.interactionTurns
      && b.minimalTools == Physical(if m.minimalEndpoints == {} then m.minimalToolSet else m.minimalEndpoints, allowed)
      && b.successfulTools == Physical(if m.successfulTools == {} then m.minimalToolSet else m.successfulTools, allowed)
      && (m.successfulTicks.Some? ==> b.successfulTicks == |m.successfulTicks.value|)
      && (m.successfulTicks.None? ==> b.successfulTicks == |m.minimalTicks|)
      && (t.exactDepth.Some? ==> b.exactDepth == t.exactDepth && b.depthStatus == t.depthStatus)
      && (t.exactDepth.None? ==> b.exactDepth == m.exactDepth && b.depthStatus == m.depthStatus)
      && (t.depthLowerBound.Some? ==> b.depthLowerBound == t.depthLowerBound)
      && (t.depthLowerBound.None? ==> b.depthLowerBound == m.depthLowerBound)
      && (t.depthProof.Some? ==> b.depthProof == t.depthProof)
      && (t.depthProof.None? ==> b.depthProof == m.depthProof)
  {
    var counted := set x | x in t.effectiveTicks + m.minimalTicks && (x in t.effectiveTicks || m.status.OneMinimal?);
    assert counted == if m.status.OneMinimal? then t.effectiveTicks + m.minimalTicks else t.effectiveTicks;
    forall tools: set<string> ensures |Allowed(tools, allowed)| == Physical(tools, allowed) {
      assert Allowed(tools, allowed) == set x | x in tools && (allowed == {} || x in allowed);
    }
  }

  /** How many of the tools are physical. */
  function Physical(tools: set<string>, allowed: set<string>): nat {
    |set x | x in tools && (allowed == {} || x in allowed)|
  }

  // ---- Checks ----

  datatype Check =
    | HorizonFloor | AdaptiveControlRequired | PlanningDepth | ConstraintBreadth | SourceTaskSize
    | TaskMilestones | PerturbationCount | VisiblePerturbations | HiddenPerturbations | PerturbationKinds | EventSpan
    | ObservedTicks | ObservedTools | StrategySwitches | InteractionTurns | ExactDependencyDepth
    | BoundedReplayDepth | BoundedReplayTicks | BoundedReplayTools
    | OneMinimalReplay | OneMinimalTicks | OneMinimalTools

  type Checks = seq<(Check, bool)>

  function StaticChecks(level: Level, s: Scenario): Checks {
    var r, c := RequirementsOf(level), Configuration(s);
    [(HorizonFloor, s.horizonTicks >= r.horizonTicks)] +
    (if IsStatic(s) then
      [(AdaptiveControlRequired, !level.High? && !level.Extreme?),
       (PlanningDepth, s.decisionDepth >= PlanningDepthFloor(level)),
       (ConstraintBreadth, c.breadth >= ConstraintBreadthFloor(level)),
       (SourceTaskSize, s.taskSize >= r.horizonTicks)]
    else
      [(TaskMilestones, c.milestones >= r.taskMilestones),
       (PerturbationCount, c.perturbations >= r.perturbations),
       (VisiblePerturbations, c.visible >= r.visiblePerturbations),
       (HiddenPerturbations, c.hidden >= r.hiddenPerturbations ||
         (r.hiddenPerturbations > 0 && s.observabilityBurden > 0)),
       (PerturbationKinds, c.kinds >= r.perturbationKinds),
       (EventSpan, c.span >= r.eventSpanTicks)])
  }

  predicate ExactDepthProof(b: Behaviour, floor: int) {
    b.exactDepth.Some? && (b.depthStatus.DeclaredDag? || b.depthStatus.PhaseDag? || b.depthStatus.SingleStageDag?)
    && b.exactDepth.value >= floor
  }

  predicate BoundedDepthProof(b: Behaviour, floor: int) {
    && b.depthStatus.OrderedMilestones? && b.depthProof == Some(OrderedMilestones)
    && b.depthLowerBound.Some? && b.depthLowerBound.value >= floor
    && (b.replay.BudgetExhausted? || b.replay.BoundedUpperBound? || b.replay.ProvedLowerBound?)
    && b.successfulTicks > 0 && b.successfulTools > 0
  }

  function BehaviourChecks(level: Level, b: Behaviour): Checks {
    var r := RequirementsOf(level);
    var exact, bounded := ExactDepthProof(b, r.dependencyDepth), BoundedDepthProof(b, r.dependencyDepth);
    [(ObservedTicks, b.effectiveTicks >= r.effectiveTicks),
     (ObservedTools, b.observedTools >= r.physicalTools),
     (StrategySwitches, b.strategySwitches >= r.strategySwitches),
     (InteractionTurns, b.interactionTurns >= r.interactionTurns),
     (ExactDependencyDepth, exact),
     (BoundedReplayDepth, bounded || exact),
     (BoundedReplayTicks, exact || (bounded && b.successfulTicks >= r.effectiveTicks)),
     (BoundedReplayTools, exact || (bounded && b.successfulTools >= r.physicalTools)),
     (OneMinimalReplay, b.replay.OneMinimal?),
     (OneMinimalTicks, b.minimalTicks >= r.effectiveTicks),
     (OneMinimalTools, b.minimalTools >= r.physicalTools)]
  }

  function AllChecks(level: Level, s: Scenario, b: Behaviour): Checks {
    StaticChecks(level, s) + BehaviourChecks(level, b)
  }

  predicate Exempt(check: Check) {
    check.ExactDependencyDepth? || check.OneMinimalReplay? || check.OneMinimalTicks? || check.OneMinimalTools?
  }

  predicate Holds(checks: Checks, check: Check) {
    (check, true) in checks
  }

  predicate BoundedReplay(checks: Checks) {
    Holds(checks, BoundedReplayDepth) && !Holds(checks, ExactDependencyDepth)
  }

  function Failures(checks: Checks, bounded: bool): seq<Check> {
    if checks == [] then []
    else
      var n := |checks| - 1;
      var rest := Failures(checks[..n], bounded);
      if checks[n].1 || (bounded && Exempt(checks[n].0)) then rest else rest + [checks[n].0]
  }

  /** With behaviour and minimality both required nothing is pending: a level passes when no check fails. */
  predicate Passes(level: Level, s: Scenario, b: Behaviour) {
    var checks := AllChecks(level, s, b);
    Failures(checks, BoundedReplay(checks)) == []
  }

  // ---- What passing means ----

  lemma {:induction false} NoFailures(checks: Checks, bounded: bool)
    ensures Failures(checks, bounded) == [] <==>
      forall i :: 0 <= i < |checks| ==> checks[i].1 || (bounded && Exempt(checks[i].0))
    decreases |checks|
  {
    if checks != [] {
      NoFailures(checks[..|checks| - 1], bounded);
    }
  }

  predicate ConfigurationMeets(level: Level, s: Scenario) {
    var r, c := RequirementsOf(level), Configuration(s);
    && s.horizonTicks >= r.horizonTicks
    && (if s.staticFamily && s.perturbations == [] then
          && (level.Basic? || level.Medium?)
          && s.decisionDepth >= PlanningDepthFloor(level) && c.breadth >= ConstraintBreadthFloor(level)
          && s.taskSize >= r.horizonTicks
        else
          && c.milestones >= r.taskMilestones && c.perturbations >= r.perturbations
          && c.visible >= r.visiblePerturbations
          && (c.hidden >= r.hiddenPerturbations || (r.hiddenPerturbations > 0 && s.observabilityBurden > 0))
          && c.kinds >= r.perturbationKinds && c.span >= r.eventSpanTicks)
  }

  predicate BehaviourMeets(level: Level, b: Behaviour) {
    var r := RequirementsOf(level);
    && b.effectiveTicks >= r.effectiveTicks && b.observedTools >= r.physicalTools
    && b.strategySwitches >= r.strategySwitches && b.interactionTurns >= r.interactionTurns
  }

  /** The dependency depth is known exactly, from a graph, and deep enough. */
  predicate DepthIsProved(b: Behaviour, floor: int) {
    match b.exactDepth
    case None => false
    case Some(depth) => floor <= depth && b.depthStatus in {DeclaredDag, PhaseDag, SingleStageDag}
  }

  /** Ordered milestones bound the depth from below, deep enough, and some replay of a search that ran out of budget or
      stopped at a bound did succeed. */
  predicate DepthIsBounded(b: Behaviour, floor: int) {
    && (match b.depthLowerBound case None => false case Some(depth) => floor <= depth)
    && b.depthStatus == OrderedMilestones && b.depthProof == Some(OrderedMilestones)
    && b.replay in {BudgetExhausted, BoundedUpperBound, ProvedLowerBound}
    && b.successfulTicks != 0 && b.successfulTools != 0
  }

  /** An exactly proved depth with a one-minimal replay that meets the tick and tool floors. */
  predicate ExactRoute(level: Level, b: Behaviour) {
    var r := RequirementsOf(level);
    && DepthIsProved(b, r.dependencyDepth)
    && b.replay.OneMinimal? && b.minimalTicks >= r.effectiveTicks && b.minimalTools >= r.physicalTools
  }

  /** An ordered-milestone depth bound with a successful bounded replay that meets the tick and tool floors. */
  predicate BoundedRoute(level: Level, b: Behaviour) {
    var r := RequirementsOf(level);
    && DepthIsBounded(b, r.dependencyDepth)
    && b.successfulTicks >= r.effectiveTicks && b.successfulTools >= r.physicalTools
  }

  lemma StaticChecksMean(level: Level, s: Scenario)
    ensures (forall i :: 0 <= i < |StaticChecks(level, s)| ==> StaticChecks(level, s)[i].1) <==>
        ConfigurationMeets(level, s)
    ensures forall i :: 0 <= i < |StaticChecks(level, s)| ==>
      !Exempt(StaticChecks(level, s)[i].0) && !StaticChecks(level, s)[i].0.BoundedReplayDepth?
  {
    var c := StaticChecks(level, s);
    if IsStatic(s) {
      assert |c| == 5;
      assert c[0].1 == (s.horizonTicks >= RequirementsOf(level).horizonTicks);
      assert c[1].0.AdaptiveControlRequired? && c[2].0.PlanningDepth? && c[3].0.ConstraintBreadth?
          && c[4].0.SourceTaskSize?;
    } else {
      assert |c| == 7;
      assert c[0].1 == (s.horizonTicks >= RequirementsOf(level).horizonTicks);
      assert c[1].0.TaskMilestones? && c[2].0.PerturbationCount? && c[3].0.VisiblePerturbations?
          && c[4].0.HiddenPerturbations? && c[5].0.PerturbationKinds? && c[6].0.EventSpan?;
    }
  }

  lemma BehaviourChecksMean(level: Level, b: Behaviour, bounded: bool)
    ensures var c, r := BehaviourChecks(level, b), RequirementsOf(level);
      (forall i :: 0 <= i < |c| ==> c[i].1 || (bounded && Exempt(c[i].0))) <==>
      && BehaviourMeets(level, b)
      && (ExactDepthProof(b, r.dependencyDepth) || BoundedRoute(level, b))
      && (bounded || ExactRoute(level, b))
  {
    var c, r := BehaviourChecks(level, b), RequirementsOf(level);
    assert |c| == 11;
    assert c[0].0.ObservedTicks? && c[1].0.ObservedTools? && c[2].0.StrategySwitches? && c[3].0.InteractionTurns?;
    assert c[4].0.ExactDependencyDepth? && c[5].0.BoundedReplayDepth? && c[6].0.BoundedReplayTicks?
        && c[7].0.BoundedReplayTools?;
    assert c[8].0.OneMinimalReplay? && c[9].0.OneMinimalTicks? && c[10].0.OneMinimalTools?;
  }

  lemma OnlyEntry(checks: Checks, k: nat)
    requires k < |checks| && forall i :: 0 <= i < |checks| && i != k ==> checks[i].0 != checks[k].0
    ensures Holds(checks, checks[k].0) <==> checks[k].1
  {
  }

  lemma BoundedReplayMeans(level: Level, s: Scenario, b: Behaviour)
    ensures var r := RequirementsOf(level);
      BoundedReplay(AllChecks(level, s, b)) <==>
        BoundedDepthProof(b, r.dependencyDepth) && !ExactDepthProof(b, r.dependencyDepth)
  {
    StaticChecksMean(level, s);
    var r, a, c := RequirementsOf(level), StaticChecks(level, s), BehaviourChecks(level, b);
    assert c[4] == (ExactDependencyDepth, ExactDepthProof(b, r.dependencyDepth));
    assert c[5].0 == BoundedReplayDepth;
    forall check | check in {ExactDependencyDepth, BoundedReplayDepth}
      ensures Holds(a + c, check) <==> Holds(c, check)
    {
      assert (check, true) !in a;
    }
    OnlyEntry(c, 4);
    OnlyEntry(c, 5);
  }

  /** A level passes exactly when its configuration and behaviour floors hold and one of two evidence routes is
      complete. The checks, the exemption set and the derived bounded-replay flag say no more and no less. */
  lemma PassesExactly(level: Level, s: Scenario, b: Behaviour)
    ensures Passes(level, s, b) <==>
      ConfigurationMeets(level, s) && BehaviourMeets(level, b) && (ExactRoute(level, b) || BoundedRoute(level, b))
  {
    var checks := AllChecks(level, s, b);
    var bounded := BoundedReplay(checks);
    var a, c := StaticChecks(level, s), BehaviourChecks(level, b);
    NoFailures(checks, bounded);
    StaticChecksMean(level, s);
    BehaviourChecksMean(level, b, bounded);
    BoundedReplayMeans(level, s, b);
    AllSatisfiedOfBoth(a, c, bounded);
  }

  ghost predicate AllSatisfied(checks: Checks, bounded: bool) {
    forall i :: 0 <= i < |checks| ==> checks[i].1 || (bounded && Exempt(checks[i].0))
  }

  lemma AllSatisfiedOfBoth(a: Checks, b: Checks, bounded: bool)
    ensures AllSatisfied(a + b, bounded) <==> AllSatisfied(a, bounded) && AllSatisfied(b, bounded)
  {
    var both := a + b;
    assert forall i :: 0 <= i < |a| ==> both[i] == a[i];
    if AllSatisfied(both, bounded) {
      forall i | 0 <= i < |b| ensures b[i].1 || (bounded && Exempt(b[i].0)) {
        assert both[|a| + i] == b[i];
      }
    }
  }

  /** Evidence that passes a level passes every lower level. */
  lemma PassesDownward(lower: Level, level: Level, s: Scenario, b: Behaviour)
    requires Rank(lower) <= Rank(level) && Passes(level, s, b)
    ensures Passes(lower, s, b)
  {
    PassesExactly(level, s, b);
    PassesExactly(lower, s, b);
  }

  /** Static scheduling items never pass above medium. */
  lemma StaticStopsAtMedium(level: Level, s: Scenario, b: Behaviour)
    requires IsStatic(s) && Passes(level, s, b)
    ensures Rank(level) <= 1
  {
    PassesExactly(level, s, b);
  }

  // ---- Calibration ----

  datatype Calibration = Calibration(declared: Option<Level>, calibrated: Option<Level>, matches: bool, passed: bool)

  /** The last passing level of the loop over the first `n` levels. */
  function LastPassing(s: Scenario, b: Behaviour, n: nat): Option<Level>
    requires n <= |LEVELS|
  {
    if n == 0 then None
    else if Passes(LEVELS[n - 1], s, b) then Some(LEVELS[n - 1])
    else LastPassing(s, b, n - 1)
  }

  function Calibrate(s: Scenario, b: Behaviour): Calibration {
    var level := LastPassing(s, b, |LEVELS|);
    Calibration(s.declared, level, level.Some? && s.declared == level, level.Some?)
  }

  /** `difficulty_calibration_matches_level`, for a calibration of the current contract version. */
  predicate MatchesLevel(c: Calibration, level: Level) {
    c.passed && c.matches && c.declared == Some(level) && c.calibrated == Some(level)
  }

  lemma {:induction false} LastPassingAmong(s: Scenario, b: Behaviour, level: Level, n: nat)
    requires n <= |LEVELS|
    ensures var top := LastPassing(s, b, n);
      && (top.Some? ==> Passes(top.value, s, b) && Rank(top.value) < n)
      && (Passes(level, s, b) && Rank(level) < n ==> top.Some? && Rank(level) <= Rank(top.value))
  {
    if n > 0 {
      LastPassingAmong(s, b, level, n - 1);
      assert LEVELS[n - 1] == level <==> Rank(level) == n - 1;
      assert Rank(LEVELS[n - 1]) == n - 1;
    }
  }

  lemma LastPassingIsTop(s: Scenario, b: Behaviour, level: Level)
    ensures var top := Calibrate(s, b).calibrated;
      && (top.Some? ==> Passes(top.value, s, b))
      && (Passes(level, s, b) ==> top.Some? && Rank(level) <= Rank(top.value))
  {
    LastPassingAmong(s, b, level, |LEVELS|);
  }

  /** The passing levels are an initial segment, and the calibrated level is its top: a level passes exactly when it
      is at most the calibrated one. */
  lemma CalibratedIsTopOfInitialSegment(s: Scenario, b: Behaviour, level: Level)
    ensures var top := Calibrate(s, b).calibrated;
      && (Passes(level, s, b) <==> top.Some? && Rank(level) <= Rank(top.value))
      && (top.Some? && IsStatic(s) ==> Rank(top.value) <= 1)
  {
    var top := Calibrate(s, b).calibrated;
    LastPassingIsTop(s, b, level);
    if top.Some? {
      if Rank(level) <= Rank(top.value) {
        PassesDownward(level, top.value, s, b);
      }
      if IsStatic(s) {
        StaticStopsAtMedium(top.value, s, b);
      }
    }
  }

  /** A calibration certifies a label exactly when the item declares it, passes it, and passes nothing above it. */
  lemma CertifiedExactly(s: Scenario, b: Behaviour, level: Level)
    ensures MatchesLevel(Calibrate(s, b), level) <==>
      && s.declared == Some(level) && Passes(level, s, b)
      && forall higher: Level :: Rank(higher) > Rank(level) ==> !Passes(higher, s, b)
  {
    var top := LastPassing(s, b, |LEVELS|);
    LastPassingIsTop(s, b, level);
    if MatchesLevel(Calibrate(s, b), level) {
      forall higher: Level | Rank(higher) > Rank(level) ensures !Passes(higher, s, b) {
        LastPassingIsTop(s, b, higher);
      }
    } else if top.Some? {
      assert Passes(top.value, s, b) && (Rank(top.value) == Rank(level) ==> top.value == level);
    }
  }

  // ---- The loops ----

  /** The failure loop of `evaluate_difficulty_contract` with behaviour and minimality required. */
  method EvaluateContract(level: Level, s: Scenario, b: Behaviour) returns (failures: seq<Check>)
    ensures failures == [] <==> Passes(level, s, b)
    ensures var checks := AllChecks(level, s, b); failures == Failures(checks, BoundedReplay(checks))
  {
    var checks := AllChecks(level, s, b);
    var bounded := BoundedReplay(checks);
    failures := [];
    for i := 0 to |checks|
      invariant failures == Failures(checks[..i], bounded)
    {
      assert checks[..i + 1][..i] == checks[..i];
      if !(checks[i].1 || (bounded && Exempt(checks[i].0))) {
        failures := failures + [checks[i].0];
      }
    }
    assert checks[..|checks|] == checks;
  }

  /** `calibrate_difficulty_level`: its result is the top of the passing levels. */
  method CalibrateDifficultyLevel(s: Scenario, t: Trajectory, m: Minimality, physicalTools: set<string>)
    returns (c: Calibration)
    ensures c == Calibrate(s, BehaviourOf(t, m, physicalTools))
    ensures forall level: Level :: Passes(level, s, BehaviourOf(t, m, physicalTools)) <==>
      c.calibrated.Some? && Rank(level) <= Rank(c.calibrated.value)
  {
    var b := BehaviourOf(t, m, physicalTools);
    var calibrated: Option<Level> := None;
    for i := 0 to |LEVELS|
      invariant calibrated == LastPassing(s, b, i)
    {
      var failures := EvaluateContract(LEVELS[i], s, b);
      if failures == [] {
        calibrated := Some(LEVELS[i]);
      }
    }
    c := Calibration(s.declared, calibrated, calibrated.Some? && s.declared == calibrated, calibrated.Some?);
    forall level: Level
      ensures Passes(level, s, b) <==> c.calibrated.Some? && Rank(level) <= Rank(c.calibrated.value)
    {
      CalibratedIsTopOfInitialSegment(s, b, level);
    }
  }
}
