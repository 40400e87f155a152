/** The two order-sensitive filters over the tool calls of one model response:
    `_bound_native_action_dependencies` and `_bound_protocol_repair_action` in
    baselines/llm_agent.py. */
module CausalFilter {
  import opened Common

  /** `malformed` stands for a truthy `__protocol_error__` argument; an absent call id is "". */
  datatype ToolCall = ToolCall(name: string, malformed: bool, callId: string, dependsOn: seq<string>)
  datatype Action = Action(toolCalls: seq<ToolCall>, dominant: string)

  function Id(call: ToolCall): set<string> {
    if call.callId == "" then {} else {call.callId}
  }

  predicate Mentions(call: ToolCall, ids: set<string>) {
    exists d :: d in call.dependsOn && d in ids
  }

  predicate AllIn(ids: seq<string>, known: set<string>) {
    forall d :: d in ids ==> d in known
  }

  function Restrict(ids: seq<string>, known: set<string>): (r: seq<string>)
    ensures AllIn(r, known)
    ensures forall d :: d in r <==> d in ids && d in known
    ensures AllIn(ids, known) ==> r == ids
  {
    if ids == [] then []
    else if ids[0] in known then [ids[0]] + Restrict(ids[1..], known)
    else Restrict(ids[1..], known)
  }

  function Cleared(call: ToolCall, available: set<string>): ToolCall {
    call.(dependsOn := Restrict(call.dependsOn, available))
  }

  // ---- Which calls depend on something discarded ----

  function Everything(calls: seq<ToolCall>): set<nat> {
    set i {:trigger calls[i]} | 0 <= i < |calls|
  }

  /** `d` is the id of one of the first `n` calls that is in `dropped`. */
  ghost predicate IsDroppedId(calls: seq<ToolCall>, dropped: set<nat>, n: nat, d: string)
    requires n <= |calls|
  {
    exists j :: j in dropped && j < n && d in Id(calls[j])
  }

  lemma IsDroppedIdStep(calls: seq<ToolCall>, dropped: set<nat>, n: nat)
    requires n < |calls|
    ensures forall d :: IsDroppedId(calls, dropped, n + 1, d) <==>
                        IsDroppedId(calls, dropped, n, d) || (n in dropped && d in Id(calls[n]))
  {
  }

  /** Call `i` depends on a discarded id, or on the id of an earlier call of `dropped`. */
  ghost predicate DependsOnDropped(calls: seq<ToolCall>, discarded: set<string>, dropped: set<nat>, i: nat)
    requires i < |calls|
  {
    exists d :: d in calls[i].dependsOn && (d in discarded || IsDroppedId(calls, dropped, i, d))
  }

  /** `dropped` contains every call of `eligible` that depends on a discarded or already dropped call. */
  ghost predicate Closed(calls: seq<ToolCall>, discarded: set<string>, eligible: set<nat>, dropped: set<nat>) {
    forall i :: 0 <= i < |calls| && i in eligible && DependsOnDropped(calls, discarded, dropped, i) ==> i in dropped
  }

  /** The least closed set, by the only order in which it can be computed. */
  ghost predicate IsLeastClosed(calls: seq<ToolCall>, discarded: set<string>, eligible: set<nat>, dropped: set<nat>) {
    && Closed(calls, discarded, eligible, dropped)
    && forall other: set<nat> :: Closed(calls, discarded, eligible, other) ==> dropped <= other
  }

  /** A set whose members are exactly the eligible dependants is the least closed set. */
  lemma ExactMembersAreLeast(calls: seq<ToolCall>, discarded: set<string>, eligible: set<nat>, dropped: set<nat>)
    requires forall i :: i in dropped ==> i < |calls|
    requires forall i :: 0 <= i < |calls| ==>
      (i in dropped <==> i in eligible && DependsOnDropped(calls, discarded, dropped, i))
    ensures IsLeastClosed(calls, discarded, eligible, dropped)
  {
    forall other: set<nat> | Closed(calls, discarded, eligible, other) ensures dropped <= other {
      forall i | i in dropped ensures i in other {
        MemberForced(calls, discarded, eligible, dropped, other, i);
      }
    }
  }

  lemma {:induction false} MemberForced(calls: seq<ToolCall>, discarded: set<string>, eligible: set<nat>,
                                        dropped: set<nat>, other: set<nat>, i: nat)
    requires forall k :: k in dropped ==> k < |calls|
    requires forall k :: 0 <= k < |calls| ==>
      (k in dropped <==> k in eligible && DependsOnDropped(calls, discarded, dropped, k))
    requires Closed(calls, discarded, eligible, other) && i in dropped
    ensures i in other
    decreases i
  {
    var d :| d in calls[i].dependsOn && (d in discarded || IsDroppedId(calls, dropped, i, d));
    if d !in discarded {
      var j :| j in dropped && j < i && d in Id(calls[j]);
      MemberForced(calls, discarded, eligible, dropped, other, j);
    }
    assert DependsOnDropped(calls, discarded, other, i);
  }

  // ---- The native filter ----

  datatype Native = Native(kept: seq<ToolCall>, available: set<string>, unavailable: set<string>,
                           dropped: nat, cleared: nat)

  function NativeStart(available: set<string>, unavailable: set<string>): Native {
    Native([], available, unavailable, 0, 0)
  }

  function NativeStep(s: Native, call: ToolCall): Native {
    if Mentions(call, s.unavailable) then
      s.(dropped := s.dropped + 1, unavailable := s.unavailable + Id(call))
    else
      s.(kept := s.kept + [Cleared(call, s.available)],
         cleared := if AllIn(call.dependsOn, s.available) then s.cleared else s.cleared + 1,
         available := s.available + Id(call))
  }

  function NativeRun(start: Native, calls: seq<ToolCall>): Native {
    if calls == [] then start
    else NativeStep(NativeRun(start, calls[..|calls| - 1]), calls[|calls| - 1])
  }

  function NativeDropped(start: Native, calls: seq<ToolCall>): set<nat> {
    set i | 0 <= i < |calls| && Mentions(calls[i], NativeRun(start, calls[..i]).unavailable)
  }

  function NativeDominant(action: Action, kept: seq<ToolCall>): string {
    if kept == [] && action.toolCalls != [] then "native_dependency_rejected"
    else if kept != [] && |kept| != |action.toolCalls| then kept[0].name
    else action.dominant
  }

  lemma NativePrefix(start: Native, calls: seq<ToolCall>, i: nat)
    requires i < |calls|
    ensures NativeRun(start, calls[..i + 1]) == NativeStep(NativeRun(start, calls[..i]), calls[i])
  {
    assert calls[..i + 1][..i] == calls[..i];
  }

  lemma {:induction false} NativeIds(start: Native, calls: seq<ToolCall>, n: nat)
    requires n <= |calls|
    ensures forall d :: d in NativeRun(start, calls[..n]).unavailable <==>
      d in start.unavailable || IsDroppedId(calls, NativeDropped(start, calls), n, d)
  {
    if n == 0 {
      assert calls[..0] == [];
    } else {
      NativeIds(start, calls, n - 1);
      NativeIdsStep(start, calls, n - 1);
      IsDroppedIdStep(calls, NativeDropped(start, calls), n - 1);
    }
  }

  lemma {:induction false} NativeIdsStep(start: Native, calls: seq<ToolCall>, n: nat)
    requires n < |calls|
    ensures var dropped := NativeDropped(start, calls);
      forall d :: d in NativeRun(start, calls[..n + 1]).unavailable <==>
        d in NativeRun(start, calls[..n]).unavailable || (n in dropped && d in Id(calls[n]))
  {
    var dropped, s := NativeDropped(start, calls), NativeRun(start, calls[..n]);
    NativePrefix(start, calls, n);
    assert n in dropped <==> Mentions(calls[n], s.unavailable);
    assert calls[..n + 1][..n] == calls[..n];
  }

  /** The native filter drops exactly the least set of calls that depend on a discarded id
      directly or through an earlier dropped call. */
  lemma NativeDropsLeastClosure(available: set<string>, discarded: set<string>, calls: seq<ToolCall>)
    ensures IsLeastClosed(calls, discarded, Everything(calls),
                          NativeDropped(NativeStart(available, discarded), calls))
  {
    var start := NativeStart(available, discarded);
    var dropped := NativeDropped(start, calls);
    forall i | 0 <= i < |calls|
      ensures i in dropped <==> DependsOnDropped(calls, discarded, dropped, i)
    {
      NativeIds(start, calls, i);
    }
    ExactMembersAreLeast(calls, discarded, Everything(calls), dropped);
  }

  /** `kept` lists `calls` without the positions in `dropped`, dependencies aside. */
  ghost predicate KeptOf(calls: seq<ToolCall>, dropped: set<nat>, kept: seq<ToolCall>)
    decreases |calls|
  {
    if calls == [] then kept == []
    else
      var n := |calls| - 1;
      if n in dropped then KeptOf(calls[..n], dropped, kept)
      else
        && kept != [] && kept[|kept| - 1].(dependsOn := []) == calls[n].(dependsOn := [])
        && KeptOf(calls[..n], dropped, kept[..|kept| - 1])
  }

  lemma {:induction false} KeptOfIgnoresLater(calls: seq<ToolCall>, a: set<nat>, b: set<nat>, kept: seq<ToolCall>)
    requires KeptOf(calls, a, kept) && forall i :: 0 <= i < |calls| ==> (i in a <==> i in b)
    ensures KeptOf(calls, b, kept)
    decreases |calls|
  {
    if calls != [] {
      var n := |calls| - 1;
      if n in a {
        KeptOfIgnoresLater(calls[..n], a, b, kept);
      } else {
        KeptOfIgnoresLater(calls[..n], a, b, kept[..|kept| - 1]);
      }
    }
  }

  /** Ids usable by the call kept at position `k`: those known before, and those of earlier kept calls. */
  function EarlierIds(known: set<string>, kept: seq<ToolCall>, k: nat): set<string>
    requires k <= |kept|
  {
    if k == 0 then known else EarlierIds(known, kept, k - 1) + Id(kept[k - 1])
  }

  ghost predicate CausallyClosed(known: set<string>, discarded: set<string>, kept: seq<ToolCall>) {
    forall k :: 0 <= k < |kept| ==>
      AllIn(kept[k].dependsOn, EarlierIds(known, kept, k)) && !Mentions(kept[k], discarded)
  }

  lemma EarlierIdsStable(known: set<string>, kept: seq<ToolCall>, more: seq<ToolCall>, k: nat)
    requires k <= |kept|
    ensures EarlierIds(known, kept + more, k) == EarlierIds(known, kept, k)
  {
  }

  lemma CausallyClosedExtends(known: set<string>, discarded: set<string>, kept: seq<ToolCall>, call: ToolCall)
    requires CausallyClosed(known, discarded, kept) && !Mentions(call, discarded)
    requires AllIn(call.dependsOn, EarlierIds(known, kept, |kept|))
    ensures CausallyClosed(known, discarded, kept + [call])
    ensures EarlierIds(known, kept + [call], |kept| + 1) == EarlierIds(known, kept, |kept|) + Id(call)
  {
    var extended := kept + [call];
    EarlierIdsStable(known, kept, [call], |kept|);
    forall k | 0 <= k < |extended|
      ensures AllIn(extended[k].dependsOn, EarlierIds(known, extended, k)) && !Mentions(extended[k], discarded)
    {
      EarlierIdsStable(known, kept, [call], k);
      if k < |kept| {
        assert extended[k] == kept[k];
      }
    }
  }

  lemma NativeDroppedPrefix(start: Native, calls: seq<ToolCall>, n: nat)
    requires n <= |calls|
    ensures forall i :: 0 <= i < n ==> (i in NativeDropped(start, calls[..n]) <==> i in NativeDropped(start, calls))
  {
    forall i | 0 <= i < n ensures i in NativeDropped(start, calls[..n]) <==> i in NativeDropped(start, calls) {
      assert calls[..n][..i] == calls[..i];
    }
  }

  /** The kept calls are the others, in order. */
  lemma {:induction false} NativeKeepsTheOthers(start: Native, calls: seq<ToolCall>)
    requires start.kept == []
    ensures KeptOf(calls, NativeDropped(start, calls), NativeRun(start, calls).kept)
    ensures NativeRun(start, calls).dropped + |NativeRun(start, calls).kept| == start.dropped + |calls|
    decreases |calls|
  {
    if calls != [] {
      var n := |calls| - 1;
      NativeKeepsTheOthers(start, calls[..n]);
      var s, end := NativeRun(start, calls[..n]), NativeRun(start, calls);
      NativeDroppedPrefix(start, calls, n);
      KeptOfIgnoresLater(calls[..n], NativeDropped(start, calls[..n]), NativeDropped(start, calls), s.kept);
      assert n in NativeDropped(start, calls) <==> Mentions(calls[n], s.unavailable);
      if !Mentions(calls[n], s.unavailable) {
        assert end.kept[..|end.kept| - 1] == s.kept;
      }
    }
  }

  /** Each kept call keeps only dependencies on prior ids or on earlier kept calls. */
  lemma {:induction false} NativeKeepsCausalCalls(available: set<string>, discarded: set<string>, calls: seq<ToolCall>)
    ensures var end := NativeRun(NativeStart(available, discarded), calls);
      && CausallyClosed(available, discarded, end.kept)
      && end.available == EarlierIds(available, end.kept, |end.kept|)
      && discarded <= end.unavailable
    decreases |calls|
  {
    if calls != [] {
      var n := |calls| - 1;
      NativeKeepsCausalCalls(available, discarded, calls[..n]);
      var s := NativeRun(NativeStart(available, discarded), calls[..n]);
      if !Mentions(calls[n], s.unavailable) {
        CausallyClosedExtends(available, discarded, s.kept, Cleared(calls[n], s.available));
      }
    }
  }

  /** The native filter keeps a subsequence that is causally closed. */
  lemma NativeKeepsCausalSubsequence(available: set<string>, discarded: set<string>, calls: seq<ToolCall>)
    ensures var start := NativeStart(available, discarded);
      var end := NativeRun(start, calls);
      && KeptOf(calls, NativeDropped(start, calls), end.kept)
      && CausallyClosed(available, discarded, end.kept)
      && end.available == EarlierIds(available, end.kept, |end.kept|)
      && end.dropped + |end.kept| == |calls|
  {
    NativeKeepsTheOthers(NativeStart(available, discarded), calls);
    NativeKeepsCausalCalls(available, discarded, calls);
  }

  // ---- The protocol-repair filter ----

  /** A declared cost: the source turns unparsable, non-finite and negative values into infinity. */
  datatype Cost = Finite(units: real) | Infinite
  datatype Tool = Tool(name: string, declared: Option<real>)
  /** `maxCost` is None for an infinite cap, under which costs play no part at all. */
  datatype Budget = Budget(maxCalls: nat, maxCost: Option<real>)

  const COST_SLACK := 0.000000001

  function ParseCost(declared: Option<real>): (c: Cost)
    ensures c.Finite? ==> c.units >= 0.0
  {
    if declared.Some? && declared.value >= 0.0 then Finite(declared.value) else Infinite
  }

  type Costs = map<string, Cost>

  ghost predicate ValidCosts(costs: Costs) {
    forall name :: name in costs && costs[name].Finite? ==> costs[name].units >= 0.0
  }

  /** Spec `k` is the last one of its name. */
  predicate LastOfItsName(tools: seq<Tool>, k: nat) {
    k < |tools| && forall j :: k < j < |tools| ==> tools[j].name != tools[k].name
  }

  function ToolCosts(tools: seq<Tool>): (costs: Costs)
    ensures ValidCosts(costs)
    ensures forall name :: name in costs <==> exists i :: 0 <= i < |tools| && tools[i].name == name
  {
    if tools == [] then map[]
    else
      var n := |tools| - 1;
      var before := ToolCosts(tools[..n]);
      assert forall i :: 0 <= i < n ==> tools[..n][i] == tools[i];
      before[tools[n].name := ParseCost(tools[n].declared)]
  }

  /** The cost of a tool is what the last spec of its name declares, if that is a number that is not negative, and
      infinite otherwise. */
  lemma {:induction false} CostsAreDeclared(tools: seq<Tool>, k: nat)
    requires LastOfItsName(tools, k)
    ensures var costs, name, declared := ToolCosts(tools), tools[k].name, tools[k].declared;
      && name in costs
      && (forall v :: costs[name] == Finite(v) <==> declared == Some(v) && v >= 0.0)
      && (costs[name].Infinite? <==> declared.None? || declared.value < 0.0)
    decreases |tools|
  {
    var n := |tools| - 1;
    if k < n {
      assert LastOfItsName(tools[..n], k) && tools[..n][k] == tools[k];
      CostsAreDeclared(tools[..n], k);
      assert tools[n].name != tools[k].name;
    }
  }

  datatype Counters = Counters(malformed: nat, unknownTool: nat, dependency: nat, cleared: nat, budget: nat)

  const NO_COUNTS := Counters(0, 0, 0, 0, 0)

  datatype Repair = Repair(kept: seq<ToolCall>, spent: real, available: set<string>, unavailable: set<string>,
                           counts: Counters)

  datatype Verdict = Malformed | UnknownTool | Discarded | OverBudget | Kept

  function RepairStart(available: set<string>, unavailable: set<string>): Repair {
    Repair([], 0.0, available, unavailable, NO_COUNTS)
  }

  predicate Exceeds(budget: Budget, kept: seq<ToolCall>, spent: real, cost: Cost) {
    Overruns(budget, |kept|, spent, cost)
  }

  predicate Overruns(budget: Budget, count: nat, spent: real, cost: Cost) {
    || count >= budget.maxCalls
    || (budget.maxCost.Some? && (cost.Infinite? || spent + cost.units > budget.maxCost.value + COST_SLACK))
  }

  /** What a kept call adds to the amount spent; an infinite cost is only ever kept under an infinite cap. */
  function Units(cost: Cost): real {
    if cost.Finite? then cost.units else 0.0
  }

  function Judge(budget: Budget, costs: Costs, s: Repair, call: ToolCall): Verdict {
    if call.malformed then Malformed
    else if call.name !in costs then UnknownTool
    else if Mentions(call, s.unavailable) then Discarded
    else if Exceeds(budget, s.kept, s.spent, costs[call.name]) then OverBudget
    else Kept
  }

  function RepairStep(budget: Budget, costs: Costs, s: Repair, call: ToolCall): Repair {
    var counts := s.counts;
    var counted := if AllIn(call.dependsOn, s.available) then counts else counts.(cleared := counts.cleared + 1);
    match Judge(budget, costs, s, call)
    case Malformed => s.(counts := counts.(malformed := counts.malformed + 1))
    case UnknownTool => s.(counts := counts.(unknownTool := counts.unknownTool + 1))
    case Discarded =>
      s.(unavailable := s.unavailable + Id(call), counts := counts.(dependency := counts.dependency + 1))
    case OverBudget => s.(counts := counted.(budget := counted.budget + 1))
    case Kept =>
      s.(kept := s.kept + [Cleared(call, s.available)], spent := s.spent + Units(costs[call.name]),
         available := s.available + Id(call), counts := counted)
  }

  function RepairRun(budget: Budget, costs: Costs, start: Repair, calls: seq<ToolCall>): Repair {
    if calls == [] then start
    else RepairStep(budget, costs, RepairRun(budget, costs, start, calls[..|calls| - 1]), calls[|calls| - 1])
  }

  function VerdictAt(budget: Budget, costs: Costs, start: Repair, calls: seq<ToolCall>, i: nat): Verdict
    requires i < |calls|
  {
    Judge(budget, costs, RepairRun(budget, costs, start, calls[..i]), calls[i])
  }

  function RejectionLabel(previous: string, counts: Counters): string {
    if counts.malformed > 0 then "protocol_repair_malformed_rejected"
    else if counts.dependency > 0 || previous == "protocol_repair_dependency_rejected"
    then "protocol_repair_dependency_rejected"
    else "protocol_repair_budget_rejected"
  }

  predicate IsSettledRejection(dominant: string) {
    || dominant == "protocol_repair_budget_rejected" || dominant == "protocol_repair_dependency_rejected"
    || dominant == "protocol_repair_malformed_rejected" || dominant == "protocol_repair_no_tool_call"
  }

  /** The whole filter: the bounded action and what it adds to the five counters. */
  function BoundRepair(action: Action, costs: Costs, budget: Budget, available: set<string>, unavailable: set<string>)
    : (Action, Counters)
  {
    if action.toolCalls == [] && action.dominant == "provider_no_tool_call" then
      (action.(dominant := "protocol_repair_no_tool_call"), NO_COUNTS)
    else if action.toolCalls == [] && IsSettledRejection(action.dominant) then (action, NO_COUNTS)
    else
      var end := RepairRun(budget, costs, RepairStart(available, unavailable), action.toolCalls);
      (Action(end.kept, if end.kept != [] then end.kept[0].name else RejectionLabel(action.dominant, end.counts)),
       end.counts)
  }

  lemma RepairPrefix(budget: Budget, costs: Costs, start: Repair, calls: seq<ToolCall>, i: nat)
    requires i < |calls|
    ensures RepairRun(budget, costs, start, calls[..i + 1]) ==
            RepairStep(budget, costs, RepairRun(budget, costs, start, calls[..i]), calls[i])
  {
    assert calls[..i + 1][..i] == calls[..i];
  }

  /** Both caps hold, whatever the model proposed. */
  lemma {:induction false} RepairRespectsBudget(budget: Budget, costs: Costs, start: Repair, calls: seq<ToolCall>)
    requires ValidCosts(costs) && start.kept == [] && start.spent == 0.0
    requires budget.maxCost.Some? ==> budget.maxCost.value >= 0.0
    ensures var end := RepairRun(budget, costs, start, calls);
      && |end.kept| <= budget.maxCalls && 0.0 <= end.spent
      && (budget.maxCost.Some? ==> end.spent <= budget.maxCost.value + COST_SLACK && AllFinite(costs, end.kept))
      && end.spent == Spent(costs, end.kept)
    decreases |calls|
  {
    if calls != [] {
      var n := |calls| - 1;
      RepairRespectsBudget(budget, costs, start, calls[..n]);
      var s := RepairRun(budget, costs, start, calls[..n]);
      if Judge(budget, costs, s, calls[n]).Kept? {
        var call := Cleared(calls[n], s.available);
        assert (s.kept + [call])[..|s.kept|] == s.kept;
      }
    }
  }

  /** Every call is kept or counted under exactly one reason. */
  lemma {:induction false} RepairAccountsForEveryCall(budget: Budget, costs: Costs, available: set<string>,
                                                      discarded: set<string>, calls: seq<ToolCall>)
    ensures var end := RepairRun(budget, costs, RepairStart(available, discarded), calls);
      |end.kept| + end.counts.malformed + end.counts.unknownTool + end.counts.dependency + end.counts.budget == |calls|
    decreases |calls|
  {
    if calls != [] {
      RepairAccountsForEveryCall(budget, costs, available, discarded, calls[..|calls| - 1]);
    }
  }

  lemma RepairStepEffect(budget: Budget, costs: Costs, s: Repair, call: ToolCall)
    ensures var t := RepairStep(budget, costs, s, call);
      && s.unavailable <= t.unavailable
      && (Judge(budget, costs, s, call).Kept? ==>
          t.kept == s.kept + [Cleared(call, s.available)] && t.available == s.available + Id(call)
          && !Mentions(Cleared(call, s.available), s.unavailable))
      && (!Judge(budget, costs, s, call).Kept? ==> t.kept == s.kept && t.available == s.available)
  {
  }

  /** The kept calls rest only on prior ids or on earlier kept calls. */
  lemma {:induction false} RepairKeepsCausalCalls(budget: Budget, costs: Costs, available: set<string>,
                                                  discarded: set<string>, calls: seq<ToolCall>)
    ensures var end := RepairRun(budget, costs, RepairStart(available, discarded), calls);
      && CausallyClosed(available, discarded, end.kept)
      && end.available == EarlierIds(available, end.kept, |end.kept|)
      && discarded <= end.unavailable
    decreases |calls|
  {
    if calls != [] {
      var n := |calls| - 1;
      RepairKeepsCausalCalls(budget, costs, available, discarded, calls[..n]);
      var s := RepairRun(budget, costs, RepairStart(available, discarded), calls[..n]);
      RepairStepEffect(budget, costs, s, calls[n]);
      if Judge(budget, costs, s, calls[n]).Kept? {
        var call := Cleared(calls[n], s.available);
        assert !Mentions(call, discarded);
        assert AllIn(call.dependsOn, EarlierIds(available, s.kept, |s.kept|));
        CausallyClosedExtends(available, discarded, s.kept, call);
      }
    }
  }

  lemma RepairDropsPrefix(budget: Budget, costs: Costs, start: Repair, calls: seq<ToolCall>, n: nat)
    requires n <= |calls|
    ensures forall i :: 0 <= i < n ==> (i in KeptPositions(budget, costs, start, calls[..n]) <==>
                                        i in KeptPositions(budget, costs, start, calls))
  {
    forall i | 0 <= i < n
      ensures i in KeptPositions(budget, costs, start, calls[..n]) <==> i in KeptPositions(budget, costs, start, calls)
    {
      assert calls[..n][..i] == calls[..i];
    }
  }

  /** The kept calls are the proposed ones, in order, without the dropped. */
  lemma {:induction false} RepairKeepsTheOthers(budget: Budget, costs: Costs, start: Repair, calls: seq<ToolCall>)
    requires start.kept == []
    ensures KeptOf(calls, Everything(calls) - KeptPositions(budget, costs, start, calls),
                   RepairRun(budget, costs, start, calls).kept)
    decreases |calls|
  {
    if calls != [] {
      var n := |calls| - 1;
      var before, kept := KeptPositions(budget, costs, start, calls[..n]), KeptPositions(budget, costs, start, calls);
      var s, end := RepairRun(budget, costs, start, calls[..n]), RepairRun(budget, costs, start, calls);
      RepairKeepsTheOthers(budget, costs, start, calls[..n]);
      RepairDropsPrefix(budget, costs, start, calls, n);
      KeptOfIgnoresLater(calls[..n], Everything(calls[..n]) - before, Everything(calls) - kept, s.kept);
      RepairStepEffect(budget, costs, s, calls[n]);
      assert n in kept <==> Judge(budget, costs, s, calls[n]).Kept?;
      if n in kept {
        assert end.kept[..|end.kept| - 1] == s.kept;
      }
    }
  }

  /** The repair filter keeps a subsequence of the proposed calls that is causally closed. */
  lemma RepairKeepsCausalSubsequence(budget: Budget, costs: Costs, available: set<string>, discarded: set<string>,
                                     calls: seq<ToolCall>)
    ensures var start := RepairStart(available, discarded);
      var end := RepairRun(budget, costs, start, calls);
      && KeptOf(calls, Everything(calls) - KeptPositions(budget, costs, start, calls), end.kept)
      && CausallyClosed(available, discarded, end.kept)
      && end.available == EarlierIds(available, end.kept, |end.kept|)
  {
    RepairKeepsTheOthers(budget, costs, RepairStart(available, discarded), calls);
    RepairKeepsCausalCalls(budget, costs, available, discarded, calls);
  }

  /** Total declared cost of a list of calls. */
  function Spent(costs: Costs, calls: seq<ToolCall>): real {
    if calls == [] then 0.0
    else
      var last := calls[|calls| - 1];
      Spent(costs, calls[..|calls| - 1]) +
      (if last.name in costs then Units(costs[last.name]) else 0.0)
  }

  predicate AllFinite(costs: Costs, calls: seq<ToolCall>) {
    forall i :: 0 <= i < |calls| ==> calls[i].name in costs && costs[calls[i].name].Finite?
  }

  lemma {:induction false} RepairOnlyGrows(budget: Budget, costs: Costs, start: Repair, calls: seq<ToolCall>, i: nat)
    requires ValidCosts(costs) && i <= |calls|
    ensures var s, end := RepairRun(budget, costs, start, calls[..i]), RepairRun(budget, costs, start, calls);
      |s.kept| <= |end.kept| && s.spent <= end.spent && s.unavailable <= end.unavailable
    decreases |calls| - i
  {
    if i == |calls| {
      assert calls[..i] == calls;
    } else {
      RepairOnlyGrows(budget, costs, start, calls, i + 1);
      RepairPrefix(budget, costs, start, calls, i);
    }
  }

  /** Budget-maximal: a call dropped for budget does not fit beside the final selection either. */
  lemma BudgetDropsNeverFit(budget: Budget, costs: Costs, start: Repair, calls: seq<ToolCall>, i: nat)
    requires ValidCosts(costs) && i < |calls|
    requires VerdictAt(budget, costs, start, calls, i).OverBudget?
    ensures var end := RepairRun(budget, costs, start, calls);
      var cost := costs[calls[i].name];
      || |end.kept| >= budget.maxCalls
      || (budget.maxCost.Some? && (cost.Infinite? || end.spent + cost.units > budget.maxCost.value + 0.000000001))
  {
    RepairOnlyGrows(budget, costs, start, calls, i);
  }

  function WellFormed(costs: Costs, calls: seq<ToolCall>): set<nat> {
    set i | 0 <= i < |calls| && !calls[i].malformed && calls[i].name in costs
  }

  function RepairDropped(budget: Budget, costs: Costs, start: Repair, calls: seq<ToolCall>): set<nat> {
    set i | 0 <= i < |calls| && VerdictAt(budget, costs, start, calls, i).Discarded?
  }

  lemma {:induction false} RepairIds(budget: Budget, costs: Costs, start: Repair, calls: seq<ToolCall>, n: nat)
    requires n <= |calls|
    ensures forall d :: d in RepairRun(budget, costs, start, calls[..n]).unavailable <==>
      d in start.unavailable || IsDroppedId(calls, RepairDropped(budget, costs, start, calls), n, d)
  {
    if n == 0 {
      assert calls[..0] == [];
    } else {
      RepairIds(budget, costs, start, calls, n - 1);
      RepairIdsStep(budget, costs, start, calls, n - 1);
      IsDroppedIdStep(calls, RepairDropped(budget, costs, start, calls), n - 1);
    }
  }

  lemma {:induction false} RepairIdsStep(budget: Budget, costs: Costs, start: Repair, calls: seq<ToolCall>, n: nat)
    requires n < |calls|
    ensures RepairRun(budget, costs, start, calls[..n + 1]).unavailable ==
            RepairRun(budget, costs, start, calls[..n]).unavailable
            + if n in RepairDropped(budget, costs, start, calls) then Id(calls[n]) else {}
  {
    RepairPrefix(budget, costs, start, calls, n);
    assert n in RepairDropped(budget, costs, start, calls) <==> VerdictAt(budget, costs, start, calls, n).Discarded?;
  }

  /** Among well-formed calls of known tools, the dependency drops are again the least closed set.
      Calls lost to malformed arguments, an unknown tool or the budget do not propagate. */
  lemma RepairDropsLeastClosure(budget: Budget, costs: Costs, available: set<string>, discarded: set<string>,
                                calls: seq<ToolCall>)
    ensures IsLeastClosed(calls, discarded, WellFormed(costs, calls),
                          RepairDropped(budget, costs, RepairStart(available, discarded), calls))
  {
    var start := RepairStart(available, discarded);
    var dropped := RepairDropped(budget, costs, start, calls);
    forall i | 0 <= i < |calls|
      ensures i in dropped <==> i in WellFormed(costs, calls) && DependsOnDropped(calls, discarded, dropped, i)
    {
      RepairIds(budget, costs, start, calls, i);
    }
    ExactMembersAreLeast(calls, discarded, WellFormed(costs, calls), dropped);
  }

  // ---- The cap, in the costs the tools declare ----

  /** What the last spec of that name declares, 0 if there is none or it declares no cost. */
  function DeclaredCost(tools: seq<Tool>, name: string): real {
    if tools == [] then 0.0
    else
      var last := tools[|tools| - 1];
      if last.name != name then DeclaredCost(tools[..|tools| - 1], name)
      else if last.declared.Some? then last.declared.value else 0.0
  }

  function DeclaredTotal(tools: seq<Tool>, calls: seq<ToolCall>): real {
    if calls == [] then 0.0
    else DeclaredTotal(tools, calls[..|calls| - 1]) + DeclaredCost(tools, calls[|calls| - 1].name)
  }

  lemma {:induction false} LastSpecDeclares(tools: seq<Tool>, name: string) returns (k: nat)
    requires exists i :: 0 <= i < |tools| && tools[i].name == name
    ensures LastOfItsName(tools, k) && tools[k].name == name
    ensures DeclaredCost(tools, name) == if tools[k].declared.Some? then tools[k].declared.value else 0.0
    decreases |tools|
  {
    var n := |tools| - 1;
    if tools[n].name == name {
      k := n;
    } else {
      var i :| 0 <= i < |tools| && tools[i].name == name;
      assert tools[..n][i].name == name;
      k := LastSpecDeclares(tools[..n], name);
    }
  }

  lemma {:induction false} SpentIsDeclared(tools: seq<Tool>, calls: seq<ToolCall>)
    requires AllFinite(ToolCosts(tools), calls)
    ensures Spent(ToolCosts(tools), calls) == DeclaredTotal(tools, calls)
  {
    if calls != [] {
      var last := calls[|calls| - 1];
      SpentIsDeclared(tools, calls[..|calls| - 1]);
      var k := LastSpecDeclares(tools, last.name);
      CostsAreDeclared(tools, k);
      assert ToolCosts(tools)[last.name] == Finite(ToolCosts(tools)[last.name].units);
    }
  }

  /** Every call is of a tool whose last spec declares a usable cost. */
  ghost predicate AllPriced(tools: seq<Tool>, calls: seq<ToolCall>) {
    forall i :: 0 <= i < |calls| ==> HasPrice(tools, calls[i].name)
  }

  ghost predicate HasPrice(tools: seq<Tool>, name: string) {
    exists k: nat :: LastOfItsName(tools, k) && tools[k].name == name && Priced(tools[k])
  }

  lemma FiniteMeansPriced(tools: seq<Tool>, calls: seq<ToolCall>)
    requires AllFinite(ToolCosts(tools), calls)
    ensures AllPriced(tools, calls)
  {
    forall i | 0 <= i < |calls| ensures HasPrice(tools, calls[i].name) {
      var k := LastSpecDeclares(tools, calls[i].name);
      CostsAreDeclared(tools, k);
      assert ToolCosts(tools)[calls[i].name] == Finite(ToolCosts(tools)[calls[i].name].units);
    }
  }

  lemma BoundRepairCalls(action: Action, costs: Costs, budget: Budget, available: set<string>,
                         unavailable: set<string>)
    ensures BoundRepair(action, costs, budget, available, unavailable).0.toolCalls ==
            RepairRun(budget, costs, RepairStart(available, unavailable), action.toolCalls).kept
  {
  }

  /** Whatever the model proposes, the repaired action has no more calls than allowed; and under a cost cap each is of a
      tool that declares a usable cost, and their declared costs add up to at most the cap, but for the slack. */
  lemma {:induction false} DeclaredCostsRespectCap(action: Action, tools: seq<Tool>, budget: Budget,
                                                   available: set<string>, unavailable: set<string>)
    requires budget.maxCost.Some? ==> budget.maxCost.value >= 0.0
    ensures var kept := BoundRepair(action, ToolCosts(tools), budget, available, unavailable).0.toolCalls;
      && |kept| <= budget.maxCalls
      && (budget.maxCost.Some? ==>
           AllPriced(tools, kept) && DeclaredTotal(tools, kept) <= budget.maxCost.value + 0.000000001)
  {
    var costs := ToolCosts(tools);
    BoundRepairCalls(action, costs, budget, available, unavailable);
    RepairRespectsBudget(budget, costs, RepairStart(available, unavailable), action.toolCalls);
    if budget.maxCost.Some? {
      var kept := RepairRun(budget, costs, RepairStart(available, unavailable), action.toolCalls).kept;
      SpentIsDeclared(tools, kept);
      FiniteMeansPriced(tools, kept);
    }
  }

  predicate Priced(tool: Tool) {
    tool.declared.Some? && tool.declared.value >= 0.0
  }

  // ---- When a dropped call takes its dependants with it ----

  /** Positions chosen so far, how many they are, and what they cost. */
  datatype Load = Load(fits: set<nat>, count: nat, spent: real)

  /** First fit: of the eligible calls, in order, each one that still fits both caps. Dependencies play no part. */
  function FirstFit(budget: Budget, costs: Costs, calls: seq<ToolCall>, eligible: set<nat>): (l: Load)
    ensures forall i :: i in l.fits ==> i < |calls| && i in eligible && calls[i].name in costs
  {
    if calls == [] then Load({}, 0, 0.0)
    else
      var n := |calls| - 1;
      var before := FirstFit(budget, costs, calls[..n], eligible);
      if n in eligible && calls[n].name in costs && !Overruns(budget, before.count, before.spent, costs[calls[n].name])
      then Load(before.fits + {n}, before.count + 1, before.spent + Units(costs[calls[n].name]))
      else before
  }

  /** Whether call `i` fits beside what first fit takes before it. */
  predicate FitsAt(budget: Budget, costs: Costs, calls: seq<ToolCall>, eligible: set<nat>, i: nat)
    requires i < |calls|
  {
    var before := FirstFit(budget, costs, calls[..i], eligible);
    calls[i].name in costs && !Overruns(budget, before.count, before.spent, costs[calls[i].name])
  }

  function KeptPositions(budget: Budget, costs: Costs, start: Repair, calls: seq<ToolCall>): set<nat> {
    set i | 0 <= i < |calls| && VerdictAt(budget, costs, start, calls, i).Kept?
  }

  predicate Names(call: ToolCall, earlier: ToolCall) {
    earlier.callId != "" && earlier.callId in call.dependsOn
  }

  lemma LeastClosedIsUnique(calls: seq<ToolCall>, discarded: set<string>, eligible: set<nat>, a: set<nat>, b: set<nat>)
    requires IsLeastClosed(calls, discarded, eligible, a) && IsLeastClosed(calls, discarded, eligible, b)
    ensures a == b
  {
  }

  lemma FirstFitStep(budget: Budget, costs: Costs, calls: seq<ToolCall>, eligible: set<nat>, n: nat)
    requires n < |calls|
    ensures var before, after := FirstFit(budget, costs, calls[..n], eligible), FirstFit(budget, costs,
        calls[..n + 1], eligible);
      if n in eligible && FitsAt(budget, costs, calls, eligible, n)
      then after == Load(before.fits + {n}, before.count + 1, before.spent + Units(costs[calls[n].name]))
      else after == before
  {
    assert calls[..n + 1][..n] == calls[..n];
  }

  /** The load of a prefix is that of first fit. */
  lemma {:induction false} PrefixLoadIsFirstFit(budget: Budget, costs: Costs, start: Repair, calls: seq<ToolCall>,
                                                eligible: set<nat>, n: nat)
    requires n <= |calls| && start.kept == [] && start.spent == 0.0
    requires eligible == WellFormed(costs, calls) - RepairDropped(budget, costs, start, calls)
    ensures var s, l := RepairRun(budget, costs, start, calls[..n]), FirstFit(budget, costs, calls[..n], eligible);
      l.count == |s.kept| && l.spent == s.spent
  {
    if n == 0 {
      assert calls[..0] == [];
    } else {
      PrefixLoadIsFirstFit(budget, costs, start, calls, eligible, n - 1);
      FirstFitStep(budget, costs, calls, eligible, n - 1);
      RepairPrefix(budget, costs, start, calls, n - 1);
      EligibleMeansJudged(budget, costs, start, calls, n - 1);
      LoadStep(budget, costs, RepairRun(budget, costs, start, calls[..n - 1]), calls[n - 1]);
    }
  }

  lemma {:induction false} LaterFitsKeepEarlier(budget: Budget, costs: Costs, calls: seq<ToolCall>, eligible: set<nat>,
                                                i: nat, m: nat, n: nat)
    requires i < m <= n <= |calls|
    ensures i in FirstFit(budget, costs, calls[..m], eligible).fits <==>
            i in FirstFit(budget, costs, calls[..n], eligible).fits
    decreases n - m
  {
    if m < n {
      FitStays(budget, costs, calls, eligible, i, m);
      LaterFitsKeepEarlier(budget, costs, calls, eligible, i, m + 1, n);
    }
  }

  lemma {:induction false} FitStays(budget: Budget, costs: Costs, calls: seq<ToolCall>, eligible: set<nat>, i: nat,
                                    n: nat)
    requires i < n < |calls|
    ensures i in FirstFit(budget, costs, calls[..n], eligible).fits <==>
            i in FirstFit(budget, costs, calls[..n + 1], eligible).fits
  {
    FirstFitStep(budget, costs, calls, eligible, n);
  }

  lemma FitsExactly(budget: Budget, costs: Costs, calls: seq<ToolCall>, eligible: set<nat>, i: nat)
    requires i < |calls|
    ensures i in FirstFit(budget, costs, calls, eligible).fits <==>
            i in eligible && FitsAt(budget, costs, calls, eligible, i)
  {
    LaterFitsKeepEarlier(budget, costs, calls, eligible, i, i + 1, |calls|);
    FirstFitStep(budget, costs, calls, eligible, i);
    assert calls[..|calls|] == calls;
  }

  lemma KeptFitsFirst(budget: Budget, costs: Costs, start: Repair, calls: seq<ToolCall>, eligible: set<nat>, i: nat)
    requires i < |calls| && start.kept == [] && start.spent == 0.0
    requires eligible == WellFormed(costs, calls) - RepairDropped(budget, costs, start, calls)
    ensures VerdictAt(budget, costs, start, calls, i).Kept? <==> i in FirstFit(budget, costs, calls, eligible).fits
  {
    FitsExactly(budget, costs, calls, eligible, i);
    PrefixLoadIsFirstFit(budget, costs, start, calls, eligible, i);
    EligibleMeansJudged(budget, costs, start, calls, i);
    LoadStep(budget, costs, RepairRun(budget, costs, start, calls[..i]), calls[i]);
  }

  lemma LoadStep(budget: Budget, costs: Costs, s: Repair, call: ToolCall)
    ensures var v, t := Judge(budget, costs, s, call), RepairStep(budget, costs, s, call);
      && (v.Kept? <==> (v.Kept? || v.OverBudget?) && !Exceeds(budget, s.kept, s.spent, costs[call.name]))
      && (if v.Kept? then |t.kept| == |s.kept| + 1 && t.spent == s.spent + Units(costs[call.name])
          else t.kept == s.kept && t.spent == s.spent)
  {
  }

  lemma EligibleMeansJudged(budget: Budget, costs: Costs, start: Repair, calls: seq<ToolCall>, i: nat)
    requires i < |calls|
    ensures i in WellFormed(costs, calls) - RepairDropped(budget, costs, start, calls) <==>
            VerdictAt(budget, costs, start, calls, i).Kept? || VerdictAt(budget, costs, start, calls, i).OverBudget?
  {
  }

  /** The repair filter in two independent steps: take away the least closure of the discarded ids, then first fit. */
  lemma RepairIsClosureThenFirstFit(budget: Budget, costs: Costs, available: set<string>, discarded: set<string>,
                                    calls: seq<ToolCall>, closure: set<nat>)
    requires IsLeastClosed(calls, discarded, WellFormed(costs, calls), closure)
    ensures KeptPositions(budget, costs, RepairStart(available, discarded), calls) ==
            FirstFit(budget, costs, calls, WellFormed(costs, calls) - closure).fits
  {
    var start := RepairStart(available, discarded);
    RepairDropsLeastClosure(budget, costs, available, discarded, calls);
    LeastClosedIsUnique(calls, discarded, WellFormed(costs, calls), closure, RepairDropped(budget, costs, start,
        calls));
    forall i | 0 <= i < |calls|
      ensures VerdictAt(budget, costs, start, calls, i).Kept? <==>
              i in FirstFit(budget, costs, calls, WellFormed(costs, calls) - closure).fits
    {
      KeptFitsFirst(budget, costs, start, calls, WellFormed(costs, calls) - closure, i);
    }
  }

  /** Every earlier call of the batch that a first-fitting call names fits first too. */
  ghost predicate FitsTakeTheirNames(calls: seq<ToolCall>, fits: set<nat>) {
    forall i, j :: 0 <= j < i < |calls| && i in fits && Names(calls[i], calls[j]) ==> j in fits
  }

  /** The dropped calls -- for whatever reason -- are closed under dependency if and only if every call that survives
      the discarded closure and fits first names only earlier calls that fit first. */
  lemma DropsAreClosedExactly(budget: Budget, costs: Costs, available: set<string>, discarded: set<string>,
                              calls: seq<ToolCall>, closure: set<nat>)
    requires IsLeastClosed(calls, discarded, WellFormed(costs, calls), closure)
    ensures var kept := KeptPositions(budget, costs, RepairStart(available, discarded), calls);
      var fits := FirstFit(budget, costs, calls, WellFormed(costs, calls) - closure).fits;
      Closed(calls, discarded, Everything(calls), Everything(calls) - kept) <==> FitsTakeTheirNames(calls, fits)
  {
    var fits := FirstFit(budget, costs, calls, WellFormed(costs, calls) - closure).fits;
    var dropped := Everything(calls) - fits;
    RepairIsClosureThenFirstFit(budget, costs, available, discarded, calls, closure);
    forall i | 0 <= i < |calls| && i in fits
      ensures DependsOnDropped(calls, discarded, dropped, i) <==>
              exists j :: 0 <= j < i && Names(calls[i], calls[j]) && j !in fits
    {
      SurvivorsAvoidDiscarded(calls, discarded, WellFormed(costs, calls), closure, i);
      if DependsOnDropped(calls, discarded, dropped, i) {
        var d :| d in calls[i].dependsOn && (d in discarded || IsDroppedId(calls, dropped, i, d));
        var j :| j in dropped && j < i && d in Id(calls[j]);
        assert Names(calls[i], calls[j]);
      }
      if j :| 0 <= j < i && Names(calls[i], calls[j]) && j !in fits {
        assert IsDroppedId(calls, dropped, i, calls[j].callId);
      }
    }
  }

  lemma SurvivorsAvoidDiscarded(calls: seq<ToolCall>, discarded: set<string>, eligible: set<nat>,
      closure: set<nat>, i: nat)
    requires Closed(calls, discarded, eligible, closure) && i < |calls| && i in eligible
    ensures Mentions(calls[i], discarded) ==> i in closure
  {
    if Mentions(calls[i], discarded) {
      var d :| d in calls[i].dependsOn && d in discarded;
      assert DependsOnDropped(calls, discarded, closure, i);
    }
  }

  // ---- What that means for the kept calls ----

  /** Call ids of a batch are distinct, and none is known already. */
  predicate FreshIds(calls: seq<ToolCall>, available: set<string>) {
    && (forall i :: 0 <= i < |calls| ==> Id(calls[i]) !! available)
    && forall i, j :: 0 <= i < j < |calls| ==> Id(calls[i]) !! Id(calls[j])
  }

  lemma {:induction false} RepairAvailable(budget: Budget, costs: Costs, start: Repair, calls: seq<ToolCall>, n: nat)
    requires n <= |calls|
    ensures forall d :: d in RepairRun(budget, costs, start, calls[..n]).available <==>
      d in start.available || IsDroppedId(calls, KeptPositions(budget, costs, start, calls), n, d)
  {
    if n == 0 {
      assert calls[..0] == [];
    } else {
      RepairAvailable(budget, costs, start, calls, n - 1);
      AvailableStep(budget, costs, start, calls, n - 1);
      IsDroppedIdStep(calls, KeptPositions(budget, costs, start, calls), n - 1);
    }
  }

  lemma {:induction false} AvailableStep(budget: Budget, costs: Costs, start: Repair, calls: seq<ToolCall>, n: nat)
    requires n < |calls|
    ensures RepairRun(budget, costs, start, calls[..n + 1]).available ==
            RepairRun(budget, costs, start, calls[..n]).available
            + if n in KeptPositions(budget, costs, start, calls) then Id(calls[n]) else {}
  {
    var s := RepairRun(budget, costs, start, calls[..n]);
    RepairPrefix(budget, costs, start, calls, n);
    RepairStepEffect(budget, costs, s, calls[n]);
    assert n in KeptPositions(budget, costs, start, calls) <==> Judge(budget, costs, s, calls[n]).Kept?;
  }

  /** Ids a call at position `n` may rest on: those known before the batch and those of earlier calls of `keep`. */
  function KnownBefore(calls: seq<ToolCall>, keep: set<nat>, available: set<string>, n: nat): set<string>
    requires n <= |calls|
  {
    available + set j | j in keep && 0 <= j < n && calls[j].callId != "" :: calls[j].callId
  }

  /** The calls at the positions of `keep`, in order, each with the dependencies it may rest on. */
  function Selected(calls: seq<ToolCall>, keep: set<nat>, available: set<string>, n: nat): seq<ToolCall>
    requires n <= |calls|
  {
    if n == 0 then []
    else
      var before, last := Selected(calls, keep, available, n - 1), calls[n - 1];
      if n - 1 !in keep then before
      else before + [last.(dependsOn := Restrict(last.dependsOn, KnownBefore(calls, keep, available, n - 1)))]
  }

  /** Calls that name something they may not rest on. */
  function Unmet(calls: seq<ToolCall>, among: set<nat>, keep: set<nat>, available: set<string>): set<nat> {
    set i | i in among && 0 <= i < |calls| && !AllIn(calls[i].dependsOn, KnownBefore(calls, keep, available, i))
  }

  function MalformedCalls(calls: seq<ToolCall>): set<nat> {
    set i | 0 <= i < |calls| && calls[i].malformed
  }

  function UnofferedCalls(costs: Costs, calls: seq<ToolCall>): set<nat> {
    set i | 0 <= i < |calls| && !calls[i].malformed && calls[i].name !in costs
  }

  function Below(s: set<nat>, n: nat): set<nat> {
    set i | i in s && i < n
  }

  lemma CountBelow(s: set<nat>, n: nat)
    ensures |Below(s, n + 1)| == |Below(s, n)| + if n in s then 1 else 0
  {
    assert Below(s, n + 1) == if n in s then Below(s, n) + {n} else Below(s, n);
  }

  lemma AllBelow(s: set<nat>, n: nat)
    requires forall i :: i in s ==> i < n
    ensures Below(s, n) == s && Below(s, 0) == {}
  {
  }

  lemma AvailableIsKnown(budget: Budget, costs: Costs, start: Repair, calls: seq<ToolCall>, n: nat)
    requires n <= |calls|
    ensures RepairRun(budget, costs, start, calls[..n]).available ==
            KnownBefore(calls, KeptPositions(budget, costs, start, calls), start.available, n)
  {
    var kept := KeptPositions(budget, costs, start, calls);
    RepairAvailable(budget, costs, start, calls, n);
    forall d ensures d in RepairRun(budget, costs, start, calls[..n]).available <==>
                     d in KnownBefore(calls, kept, start.available, n)
    {
      if IsDroppedId(calls, kept, n, d) {
        var j :| j in kept && j < n && d in Id(calls[j]);
      }
    }
  }

  lemma {:induction false} RepairKeepsSelected(budget: Budget, costs: Costs, start: Repair, calls: seq<ToolCall>,
                                               n: nat)
    requires n <= |calls| && start.kept == []
    ensures RepairRun(budget, costs, start, calls[..n]).kept ==
            Selected(calls, KeptPositions(budget, costs, start, calls), start.available, n)
  {
    if n == 0 {
      assert calls[..0] == [];
    } else {
      var s := RepairRun(budget, costs, start, calls[..n - 1]);
      RepairKeepsSelected(budget, costs, start, calls, n - 1);
      RepairPrefix(budget, costs, start, calls, n - 1);
      AvailableIsKnown(budget, costs, start, calls, n - 1);
      RepairStepEffect(budget, costs, s, calls[n - 1]);
      assert n - 1 in KeptPositions(budget, costs, start, calls) <==> Judge(budget, costs, s, calls[n - 1]).Kept?;
    }
  }

  /** How many of the first `n` calls fall under each reason. */
  function Reasons(costs: Costs, calls: seq<ToolCall>, closure: set<nat>, fits: set<nat>, available: set<string>,
                   n: nat): Counters
  {
    var eligible := WellFormed(costs, calls) - closure;
    Counters(|Below(MalformedCalls(calls), n)|, |Below(UnofferedCalls(costs, calls), n)|, |Below(closure, n)|,
             |Below(Unmet(calls, eligible, fits, available), n)|, |Below(eligible - fits, n)|)
  }

  lemma ReasonsStep(costs: Costs, calls: seq<ToolCall>, closure: set<nat>, fits: set<nat>, available: set<string>,
                    n: nat)
    requires n < |calls| && closure !! fits && closure <= WellFormed(costs, calls)
    ensures CountedAt(costs, calls, closure, fits, available, n,
                      Reasons(costs, calls, closure, fits, available, n),
                      Reasons(costs, calls, closure, fits, available, n + 1))
  {
    var eligible := WellFormed(costs, calls) - closure;
    CountBelow(MalformedCalls(calls), n);
    CountBelow(UnofferedCalls(costs, calls), n);
    CountBelow(closure, n);
    CountBelow(Unmet(calls, eligible, fits, available), n);
    CountBelow(eligible - fits, n);
  }

  /** How one call moves the counters, told by the sets it belongs to. */
  ghost predicate CountedAt(costs: Costs, calls: seq<ToolCall>, closure: set<nat>, fits: set<nat>,
                            available: set<string>, n: nat, a: Counters, b: Counters)
    requires n < |calls|
  {
    if calls[n].malformed then b == a.(malformed := a.malformed + 1)
    else if calls[n].name !in costs then b == a.(unknownTool := a.unknownTool + 1)
    else if n in closure then b == a.(dependency := a.dependency + 1)
    else
      b == a.(cleared := a.cleared + if AllIn(calls[n].dependsOn, KnownBefore(calls, fits, available, n)) then 0 else 1,
              budget := a.budget + if n in fits then 0 else 1)
  }

  lemma {:induction false} CountsStep(budget: Budget, costs: Costs, start: Repair, calls: seq<ToolCall>, n: nat)
    requires n < |calls|
    ensures CountedAt(costs, calls, RepairDropped(budget, costs, start, calls),
                      KeptPositions(budget, costs, start, calls), start.available, n,
                      RepairRun(budget, costs, start, calls[..n]).counts,
                      RepairRun(budget, costs, start, calls[..n + 1]).counts)
  {
    var s, call := RepairRun(budget, costs, start, calls[..n]), calls[n];
    RepairPrefix(budget, costs, start, calls, n);
    AvailableIsKnown(budget, costs, start, calls, n);
    RepairStepCases(budget, costs, s, call);
    assert n in RepairDropped(budget, costs, start, calls) <==> Judge(budget, costs, s, call).Discarded?;
    assert n in KeptPositions(budget, costs, start, calls) <==> Judge(budget, costs, s, call).Kept?;
  }

  lemma {:induction false} RepairCountsReasons(budget: Budget, costs: Costs, start: Repair, calls: seq<ToolCall>,
                                               n: nat)
    requires n <= |calls| && start.counts == NO_COUNTS
    ensures RepairRun(budget, costs, start, calls[..n]).counts ==
            Reasons(costs, calls, RepairDropped(budget, costs, start, calls),
                    KeptPositions(budget, costs, start, calls), start.available, n)
  {
    var dropped, kept := RepairDropped(budget, costs, start, calls), KeptPositions(budget, costs, start, calls);
    if n == 0 {
      assert calls[..0] == [];
      NoReasons(costs, calls, dropped, kept, start.available);
    } else {
      RepairCountsReasons(budget, costs, start, calls, n - 1);
      CountsStep(budget, costs, start, calls, n - 1);
      ReasonsStep(costs, calls, dropped, kept, start.available, n - 1);
    }
  }

  lemma NoReasons(costs: Costs, calls: seq<ToolCall>, closure: set<nat>, fits: set<nat>, available: set<string>)
    ensures Reasons(costs, calls, closure, fits, available, 0) == NO_COUNTS
  {
    var none: set<nat> := {};
    assert forall s: set<nat> :: Below(s, 0) == none;
  }

  /** The whole repair filter from two independent steps. With `closure` the least set of offered, well-formed calls
      that depend on something discarded, and `fits` what fits first of the others: it keeps exactly the calls of
      `fits`, each with the dependencies it may still rest on, and each counter is the number of calls with that
      reason. */
  lemma {:induction false} RepairIsItsReasons(budget: Budget, costs: Costs, available: set<string>,
                                              discarded: set<string>, calls: seq<ToolCall>, closure: set<nat>)
    requires IsLeastClosed(calls, discarded, WellFormed(costs, calls), closure)
    ensures var end := RepairRun(budget, costs, RepairStart(available, discarded), calls);
      var eligible := WellFormed(costs, calls) - closure;
      var fits := FirstFit(budget, costs, calls, eligible).fits;
      && end.kept == Selected(calls, fits, available, |calls|)
      && end.counts == Counters(|MalformedCalls(calls)|, |UnofferedCalls(costs, calls)|, |closure|,
                                |Unmet(calls, eligible, fits, available)|, |eligible - fits|)
  {
    var start := RepairStart(available, discarded);
    var fits := FirstFit(budget, costs, calls, WellFormed(costs, calls) - closure).fits;
    RepairIsClosureThenFirstFit(budget, costs, available, discarded, calls, closure);
    RepairDropsLeastClosure(budget, costs, available, discarded, calls);
    LeastClosedIsUnique(calls, discarded, WellFormed(costs, calls), closure,
                        RepairDropped(budget, costs, start, calls));
    RepairKeepsSelected(budget, costs, start, calls, |calls|);
    RepairCountsReasons(budget, costs, start, calls, |calls|);
    assert calls[..|calls|] == calls;
    ReasonsOfAll(costs, calls, closure, fits, available);
  }

  lemma ReasonsOfAll(costs: Costs, calls: seq<ToolCall>, closure: set<nat>, fits: set<nat>, available: set<string>)
    requires forall i :: i in closure ==> i < |calls|
    ensures var eligible := WellFormed(costs, calls) - closure;
      Reasons(costs, calls, closure, fits, available, |calls|) ==
      Counters(|MalformedCalls(calls)|, |UnofferedCalls(costs, calls)|, |closure|,
               |Unmet(calls, eligible, fits, available)|, |eligible - fits|)
  {
    var n, eligible := |calls|, WellFormed(costs, calls) - closure;
    AllBelow(MalformedCalls(calls), n);
    AllBelow(UnofferedCalls(costs, calls), n);
    AllBelow(closure, n);
    AllBelow(Unmet(calls, eligible, fits, available), n);
    AllBelow(eligible - fits, n);
  }

  lemma {:induction false} NativeAvailable(start: Native, calls: seq<ToolCall>, n: nat)
    requires n <= |calls|
    ensures NativeRun(start, calls[..n]).available ==
            KnownBefore(calls, Everything(calls) - NativeDropped(start, calls), start.available, n)
  {
    var keep := Everything(calls) - NativeDropped(start, calls);
    if n == 0 {
      assert calls[..0] == [] && KnownBefore(calls, keep, start.available, 0) == start.available;
    } else {
      NativeAvailable(start, calls, n - 1);
      NativePrefix(start, calls, n - 1);
      KnownGrows(calls, keep, start.available, n - 1);
      assert n - 1 in keep <==> !Mentions(calls[n - 1], NativeRun(start, calls[..n - 1]).unavailable);
    }
  }

  lemma KnownGrows(calls: seq<ToolCall>, keep: set<nat>, available: set<string>, n: nat)
    requires n < |calls|
    ensures KnownBefore(calls, keep, available, n + 1) ==
            KnownBefore(calls, keep, available, n) + if n in keep then Id(calls[n]) else {}
  {
  }

  lemma {:induction false} NativeCounts(start: Native, calls: seq<ToolCall>, n: nat)
    requires n <= |calls| && start == NativeStart(start.available, start.unavailable)
    ensures var s, dropped := NativeRun(start, calls[..n]), NativeDropped(start, calls);
      var keep := Everything(calls) - dropped;
      && s.kept == Selected(calls, keep, start.available, n)
      && s.dropped == |Below(dropped, n)| && s.cleared == |Below(Unmet(calls, keep, keep, start.available), n)|
  {
    var dropped := NativeDropped(start, calls);
    var keep := Everything(calls) - dropped;
    var unmet := Unmet(calls, keep, keep, start.available);
    if n == 0 {
      assert calls[..0] == [];
      var none: set<nat> := {};
      assert Below(dropped, 0) == none && Below(unmet, 0) == none;
    } else {
      NativeCounts(start, calls, n - 1);
      NativePrefix(start, calls, n - 1);
      NativeAvailable(start, calls, n - 1);
      CountBelow(dropped, n - 1);
      CountBelow(unmet, n - 1);
      assert n - 1 in dropped <==> Mentions(calls[n - 1], NativeRun(start, calls[..n - 1]).unavailable);
    }
  }

  /** The whole native filter from the least closure of the discarded ids: it keeps exactly the other calls, each with
      the dependencies it may still rest on, and counts the dropped ones and those that lost a dependency. */
  lemma {:induction false} NativeIsItsReasons(available: set<string>, discarded: set<string>, calls: seq<ToolCall>,
                                              closure: set<nat>)
    requires IsLeastClosed(calls, discarded, Everything(calls), closure)
    ensures var end, keep := NativeRun(NativeStart(available, discarded), calls), Everything(calls) - closure;
      && end.kept == Selected(calls, keep, available, |calls|)
      && end.dropped == |closure| && end.cleared == |Unmet(calls, keep, keep, available)|
  {
    var start, keep := NativeStart(available, discarded), Everything(calls) - closure;
    NativeDropsLeastClosure(available, discarded, calls);
    LeastClosedIsUnique(calls, discarded, Everything(calls), closure, NativeDropped(start, calls));
    NativeCounts(start, calls, |calls|);
    assert calls[..|calls|] == calls;
    AllBelow(closure, |calls|);
    AllBelow(Unmet(calls, keep, keep, available), |calls|);
  }

  /** The native label stays unless a call was dropped; then it is the first kept call's name, if there is one. */
  lemma NativeLabelSaysWhy(action: Action, available: set<string>, discarded: set<string>, closure: set<nat>)
    requires IsLeastClosed(action.toolCalls, discarded, Everything(action.toolCalls), closure)
    ensures var kept := NativeRun(NativeStart(available, discarded), action.toolCalls).kept;
      NativeDominant(action, kept) ==
      if closure == {} then action.dominant else if kept == [] then "native_dependency_rejected" else kept[0].name
  {
    NativeIsItsReasons(available, discarded, action.toolCalls, closure);
    NativeKeepsCausalSubsequence(available, discarded, action.toolCalls);
  }

  /** When nothing is kept, the label says why: nothing was proposed, or a call was malformed, or one was dropped for a
      discarded dependency, now or in the pass that emptied the action, or else the budget. */
  lemma RejectionSaysWhy(action: Action, budget: Budget, costs: Costs, available: set<string>,
                         discarded: set<string>, closure: set<nat>)
    requires IsLeastClosed(action.toolCalls, discarded, WellFormed(costs, action.toolCalls), closure)
    ensures var bounded, empty := BoundRepair(action, costs, budget, available, discarded).0, action.toolCalls == [];
      bounded.dominant ==
      if bounded.toolCalls != [] then bounded.toolCalls[0].name
      else if empty && (action.dominant == "provider_no_tool_call" || action.dominant == "protocol_repair_no_tool_call")
      then "protocol_repair_no_tool_call"
      else if (exists call :: call in action.toolCalls && call.malformed)
              || (empty && action.dominant == "protocol_repair_malformed_rejected")
      then "protocol_repair_malformed_rejected"
      else if closure != {} || action.dominant == "protocol_repair_dependency_rejected"
      then "protocol_repair_dependency_rejected" else "protocol_repair_budget_rejected"
  {
    var calls := action.toolCalls;
    RepairIsItsReasons(budget, costs, available, discarded, calls, closure);
    if calls == [] {
      assert closure == {} by {
        assert Closed(calls, discarded, WellFormed(costs, calls), {});
      }
    }
    if call :| call in calls && call.malformed {
      var i :| 0 <= i < |calls| && calls[i] == call;
      assert i in MalformedCalls(calls);
    }
    if MalformedCalls(calls) != {} {
      var i :| i in MalformedCalls(calls);
      assert calls[i] in calls;
    }
  }

  /** The dependencies with which call `i` is kept. */
  function KeptDependencies(budget: Budget, costs: Costs, start: Repair, calls: seq<ToolCall>, i: nat): seq<string>
    requires i < |calls|
  {
    Cleared(calls[i], RepairRun(budget, costs, start, calls[..i]).available).dependsOn
  }

  /** No kept call loses its dependency on an earlier call of the batch. */
  ghost predicate NothingErased(budget: Budget, costs: Costs, start: Repair, calls: seq<ToolCall>) {
    var kept := KeptPositions(budget, costs, start, calls);
    forall i, j :: 0 <= j < i < |calls| && i in kept && Names(calls[i], calls[j]) ==>
      calls[j].callId in KeptDependencies(budget, costs, start, calls, i)
  }

  /** With distinct call ids, the same condition says exactly when no kept call has a dependency on the batch erased. */
  lemma NothingIsErasedExactly(budget: Budget, costs: Costs, available: set<string>, discarded: set<string>,
                               calls: seq<ToolCall>, closure: set<nat>)
    requires IsLeastClosed(calls, discarded, WellFormed(costs, calls), closure) && FreshIds(calls, available)
    ensures NothingErased(budget, costs, RepairStart(available, discarded), calls) <==>
            FitsTakeTheirNames(calls, FirstFit(budget, costs, calls, WellFormed(costs, calls) - closure).fits)
  {
    RepairIsClosureThenFirstFit(budget, costs, available, discarded, calls, closure);
    NothingErasedIffNamesKept(budget, costs, RepairStart(available, discarded), calls);
  }

  lemma NothingErasedIffNamesKept(budget: Budget, costs: Costs, start: Repair, calls: seq<ToolCall>)
    requires FreshIds(calls, start.available)
    ensures NothingErased(budget, costs, start, calls) <==>
            FitsTakeTheirNames(calls, KeptPositions(budget, costs, start, calls))
  {
    var kept := KeptPositions(budget, costs, start, calls);
    if NothingErased(budget, costs, start, calls) {
      forall i, j | 0 <= j < i < |calls| && i in kept && Names(calls[i], calls[j]) ensures j in kept {
        NamedIsKeptExactly(budget, costs, start, calls, i, j);
      }
    }
    if FitsTakeTheirNames(calls, kept) {
      forall i, j | 0 <= j < i < |calls| && i in kept && Names(calls[i], calls[j])
        ensures calls[j].callId in KeptDependencies(budget, costs, start, calls, i)
      {
        NamedIsKeptExactly(budget, costs, start, calls, i, j);
      }
    }
  }

  lemma NamedIsKeptExactly(budget: Budget, costs: Costs, start: Repair, calls: seq<ToolCall>, i: nat, j: nat)
    requires FreshIds(calls, start.available) && j < i < |calls| && Names(calls[i], calls[j])
    ensures calls[j].callId in KeptDependencies(budget, costs, start, calls, i) <==>
            j in KeptPositions(budget, costs, start, calls)
  {
    var kept, id := KeptPositions(budget, costs, start, calls), calls[j].callId;
    assert id in Id(calls[j]) && id !in start.available;
    RepairAvailable(budget, costs, start, calls, i);
    assert IsDroppedId(calls, kept, i, id) <==> j in kept by {
      if IsDroppedId(calls, kept, i, id) {
        var k :| k in kept && k < i && id in Id(calls[k]);
        assert k == j;
      }
    }
  }

  /** A well-formed call names only well-formed earlier calls that cost no more than it does. */
  predicate DependsDownhill(costs: Costs, calls: seq<ToolCall>) {
    forall i, j :: 0 <= j < i < |calls| && i in WellFormed(costs, calls) && Names(calls[i], calls[j]) ==>
      && j in WellFormed(costs, calls)
      && (costs[calls[i].name].Finite? ==>
          costs[calls[j].name].Finite? && costs[calls[j].name].units <= costs[calls[i].name].units)
  }

  lemma {:induction false} FirstFitOnlyGrows(budget: Budget, costs: Costs, calls: seq<ToolCall>, eligible: set<nat>,
                                             m: nat, n: nat)
    requires ValidCosts(costs) && m <= n <= |calls|
    ensures var a, b := FirstFit(budget, costs, calls[..m], eligible), FirstFit(budget, costs, calls[..n], eligible);
      a.count <= b.count && a.spent <= b.spent
    decreases n - m
  {
    if m < n {
      FirstFitOnlyGrows(budget, costs, calls, eligible, m, n - 1);
      FirstFitStep(budget, costs, calls, eligible, n - 1);
    }
  }

  /** Then nothing is ever erased, whatever the budget: a call that fits leaves room for what it names. */
  lemma DownhillDropsAreClosed(budget: Budget, costs: Costs, calls: seq<ToolCall>, discarded: set<string>,
      closure: set<nat>)
    requires ValidCosts(costs) && IsLeastClosed(calls, discarded, WellFormed(costs, calls), closure)
    requires DependsDownhill(costs, calls)
    ensures FitsTakeTheirNames(calls, FirstFit(budget, costs, calls, WellFormed(costs, calls) - closure).fits)
  {
    var eligible := WellFormed(costs, calls) - closure;
    var fits := FirstFit(budget, costs, calls, eligible).fits;
    forall i, j | 0 <= j < i < |calls| && i in fits && Names(calls[i], calls[j]) ensures j in fits {
      NamedSurvives(calls, discarded, WellFormed(costs, calls), closure, i, j);
      CheaperFitsBefore(budget, costs, calls, eligible, i, j);
    }
  }

  lemma CheaperFitsBefore(budget: Budget, costs: Costs, calls: seq<ToolCall>, eligible: set<nat>, i: nat, j: nat)
    requires ValidCosts(costs) && j < i < |calls| && i in FirstFit(budget, costs, calls, eligible).fits && j in eligible
    requires calls[j].name in costs && (costs[calls[i].name].Finite? ==>
      costs[calls[j].name].Finite? && costs[calls[j].name].units <= costs[calls[i].name].units)
    ensures j in FirstFit(budget, costs, calls, eligible).fits
  {
    FitsExactly(budget, costs, calls, eligible, i);
    FitsExactly(budget, costs, calls, eligible, j);
    FirstFitOnlyGrows(budget, costs, calls, eligible, j, i);
  }

  lemma NamedSurvives(calls: seq<ToolCall>, discarded: set<string>, eligible: set<nat>, closure: set<nat>, i: nat,
      j: nat)
    requires Closed(calls, discarded, eligible, closure) && j < i < |calls| && i in eligible
    requires Names(calls[i], calls[j])
    ensures j in closure ==> i in closure
  {
    if j in closure {
      assert IsDroppedId(calls, closure, i, calls[j].callId);
      assert DependsOnDropped(calls, discarded, closure, i);
    }
  }

  /** A dependant of a budget-dropped call survives with that dependency erased. */
  lemma BudgetDropDoesNotPropagate()
    ensures var costs := map["act" := Finite(1.0), "cheap" := Finite(0.0)];
      var calls := [ToolCall("act", false, "a", []), ToolCall("cheap", false, "b", ["a"])];
      var end := RepairRun(Budget(2, Some(0.5)), costs, RepairStart({}, {}), calls);
      end.kept == [ToolCall("cheap", false, "b", [])] && end.counts == Counters(0, 0, 0, 1, 1)
  {
    var costs, budget := map["act" := Finite(1.0), "cheap" := Finite(0.0)], Budget(2, Some(0.5));
    var a, b := ToolCall("act", false, "a", []), ToolCall("cheap", false, "b", ["a"]);
    var start := RepairStart({}, {});
    RepairPrefix(budget, costs, start, [a, b], 0);
    RepairPrefix(budget, costs, start, [a, b], 1);
    assert [a, b][..0] == [] && [a, b][..2] == [a, b];
    assert "a" in b.dependsOn && !AllIn(b.dependsOn, {});
    assert Restrict(["a"], {}) == [];
  }

  /** A second pass over what a first pass kept replays it without dropping, clearing or counting anything. */
  lemma {:induction false} SecondPassKeepsAll(budget: Budget, costs: Costs, available: set<string>,
                                              discarded: set<string>, calls: seq<ToolCall>)
    ensures var start := RepairStart(available, discarded);
      var end := RepairRun(budget, costs, start, calls);
      && RepairRun(budget, costs, start, end.kept) == end.(unavailable := discarded, counts := NO_COUNTS)
      && discarded <= end.unavailable
    decreases |calls|
  {
    var start := RepairStart(available, discarded);
    if calls != [] {
      var n := |calls| - 1;
      SecondPassKeepsAll(budget, costs, available, discarded, calls[..n]);
      var s, call := RepairRun(budget, costs, start, calls[..n]), calls[n];
      RepairStepEffect(budget, costs, s, call);
      if Judge(budget, costs, s, call).Kept? {
        var kept := s.kept + [Cleared(call, s.available)];
        assert kept[..|kept| - 1] == s.kept;
        ReplayStep(budget, costs, s, call, discarded);
      }
    }
  }

  /** A kept call, replayed with its remaining dependencies, is kept again and counted nowhere. */
  lemma ReplayStep(budget: Budget, costs: Costs, s: Repair, call: ToolCall, discarded: set<string>)
    requires discarded <= s.unavailable && Judge(budget, costs, s, call).Kept?
    ensures RepairStep(budget, costs, s.(unavailable := discarded, counts := NO_COUNTS), Cleared(call, s.available)) ==
            RepairStep(budget, costs, s, call).(unavailable := discarded, counts := NO_COUNTS)
  {
    var again := Cleared(call, s.available);
    assert !Mentions(again, discarded) && Restrict(again.dependsOn, s.available) == again.dependsOn;
  }

  /** Applying the repair filter twice, as some paths do, changes neither calls, label nor counters. */
  lemma RepairIsIdempotent(action: Action, costs: Costs, budget: Budget, available: set<string>,
                           unavailable: set<string>)
    ensures var once := BoundRepair(action, costs, budget, available, unavailable).0;
      BoundRepair(once, costs, budget, available, unavailable) == (once, NO_COUNTS)
  {
    SecondPassKeepsAll(budget, costs, available, unavailable, action.toolCalls);
  }

  // ---- The loops ----

  class ResponseFilter {
    var nativeDropped: nat
    var nativeCleared: nat
    var repair: Counters
    var maxTools: nat
    var maxCostUnits: Option<real>
    var budgetOverride: Option<Budget>

    constructor (maxTools: nat, maxCostUnits: Option<real>)
      ensures nativeDropped == 0 && nativeCleared == 0 && repair == NO_COUNTS
      ensures this.maxTools == maxTools && this.maxCostUnits == maxCostUnits && budgetOverride == None
    {
      nativeDropped, nativeCleared, repair := 0, 0, NO_COUNTS;
      this.maxTools, this.maxCostUnits, budgetOverride := maxTools, maxCostUnits, None;
    }

    method BoundNativeActionDependencies(action: Action, availableCallIds: set<string>,
                                         unavailableCallIds: set<string>)
      returns (bounded: Action)
      modifies this`nativeDropped, this`nativeCleared
      ensures var end := NativeRun(NativeStart(availableCallIds, unavailableCallIds), action.toolCalls);
        && bounded == Action(end.kept, NativeDominant(action, end.kept))
        && nativeDropped == old(nativeDropped) + end.dropped
        && nativeCleared == old(nativeCleared) + end.cleared
    {
      var calls := action.toolCalls;
      var available, unavailable := availableCallIds, unavailableCallIds;
      var kept: seq<ToolCall> := [];
      for i := 0 to |calls|
        invariant var s := NativeRun(NativeStart(availableCallIds, unavailableCallIds), calls[..i]);
          && kept == s.kept && available == s.available && unavailable == s.unavailable
          && nativeDropped == old(nativeDropped) + s.dropped
          && nativeCleared == old(nativeCleared) + s.cleared
      {
        var call := calls[i];
        NativePrefix(NativeStart(availableCallIds, unavailableCallIds), calls, i);
        if Mentions(call, unavailable) {
          nativeDropped := nativeDropped + 1;
          unavailable := unavailable + Id(call);
        } else {
          if !AllIn(call.dependsOn, available) {
            nativeCleared := nativeCleared + 1;
            call := Cleared(call, available);
          }
          kept := kept + [call];
          available := available + Id(call);
        }
      }
      assert calls[..|calls|] == calls;
      bounded := Action(kept, NativeDominant(action, kept));
    }

    function Allowance(): (b: Budget)
      reads this
      ensures budgetOverride.Some? ==> b == budgetOverride.value
      ensures budgetOverride.None? ==> b.maxCalls == maxTools && b.maxCost.Some? == maxCostUnits.Some?
      ensures budgetOverride.None? && maxCostUnits.Some? ==>
        b.maxCost.value == if maxCostUnits.value < 0.0 then 0.0 else maxCostUnits.value
    {
      if budgetOverride.Some? then budgetOverride.value
      else Budget(maxTools, if maxCostUnits.Some? then Some(MaxReal(0.0, maxCostUnits.value)) else None)
    }

    /** The loop of `_bound_protocol_repair_action`. */
    method SelectRepairCalls(calls: seq<ToolCall>, costs: Costs, budget: Budget, availableCallIds: set<string>,
                             unavailableCallIds: set<string>)
      returns (kept: seq<ToolCall>, malformedDropped: bool, dependencyDropped: bool)
      modifies this`repair
      ensures var end := RepairRun(budget, costs, RepairStart(availableCallIds, unavailableCallIds), calls);
        && kept == end.kept && repair == AddCounts(old(repair), end.counts)
        && malformedDropped == (end.counts.malformed > 0) && dependencyDropped == (end.counts.dependency > 0)
    {
      var spent := 0.0;
      kept, malformedDropped, dependencyDropped := [], false, false;
      var available, unavailable := availableCallIds, unavailableCallIds;
      ghost var s, initial := RepairStart(availableCallIds, unavailableCallIds), repair;
      for i := 0 to |calls|
        invariant s == RepairRun(budget, costs, RepairStart(availableCallIds, unavailableCallIds), calls[..i])
        invariant s == Repair(kept, spent, available, unavailable, s.counts)
        invariant malformedDropped == (s.counts.malformed > 0) && dependencyDropped == (s.counts.dependency > 0)
        invariant repair == AddCounts(initial, s.counts)
      {
        var call := calls[i];
        RepairPrefix(budget, costs, RepairStart(availableCallIds, unavailableCallIds), calls, i);
        RepairStepCases(budget, costs, s, call);
        s := RepairRun(budget, costs, RepairStart(availableCallIds, unavailableCallIds), calls[..i + 1]);
        if call.malformed {
          repair := repair.(malformed := repair.malformed + 1);
          malformedDropped := true;
        } else if call.name !in costs {
          repair := repair.(unknownTool := repair.unknownTool + 1);
        } else if Mentions(call, unavailable) {
          repair := repair.(dependency := repair.dependency + 1);
          dependencyDropped := true;
          unavailable := unavailable + Id(call);
        } else {
          if !AllIn(call.dependsOn, available) {
            repair := repair.(cleared := repair.cleared + 1);
            call := Cleared(call, available);
          }
          var cost := costs[call.name];
          if Exceeds(budget, kept, spent, cost) {
            repair := repair.(budget := repair.budget + 1);
          } else {
            kept := kept + [call];
            spent := spent + Units(cost);
            available := available + Id(call);
          }
        }
      }
      assert calls[..|calls|] == calls;
    }

    method BoundProtocolRepairAction(action: Action, tools: seq<Tool>, availableCallIds: set<string>,
                                     unavailableCallIds: set<string>)
      returns (bounded: Action)
      modifies this`repair
      ensures var (expected, counts) :=
          BoundRepair(action, ToolCosts(tools), Allowance(), availableCallIds, unavailableCallIds);
        bounded == expected && repair == AddCounts(old(repair), counts)
    {
      if action.toolCalls == [] && action.dominant == "provider_no_tool_call" {
        return action.(dominant := "protocol_repair_no_tool_call");
      }
      if action.toolCalls == [] && IsSettledRejection(action.dominant) {
        return action;
      }
      var kept, malformedDropped, dependencyDropped :=
        SelectRepairCalls(action.toolCalls, ToolCosts(tools), Allowance(), availableCallIds, unavailableCallIds);
      bounded := Action(kept,
        if kept != [] then kept[0].name
        else if malformedDropped then "protocol_repair_malformed_rejected"
        else if dependencyDropped || action.dominant == "protocol_repair_dependency_rejected"
        then "protocol_repair_dependency_rejected"
        else "protocol_repair_budget_rejected");
    }
  }

  /** Each branch of the loop, as one update of the filter's state. */
  lemma RepairStepCases(budget: Budget, costs: Costs, s: Repair, call: ToolCall)
    ensures var t, c := RepairStep(budget, costs, s, call), s.counts;
      if call.malformed then t == s.(counts := c.(malformed := c.malformed + 1))
      else if call.name !in costs then t == s.(counts := c.(unknownTool := c.unknownTool + 1))
      else if Mentions(call, s.unavailable) then
        t == s.(unavailable := s.unavailable + Id(call), counts := c.(dependency := c.dependency + 1))
      else
        var cleared := if AllIn(call.dependsOn, s.available) then c else c.(cleared := c.cleared + 1);
        if Exceeds(budget, s.kept, s.spent, costs[call.name]) then
          t == s.(counts := cleared.(budget := cleared.budget + 1))
        else
          t == Repair(s.kept + [Cleared(call, s.available)], s.spent + Units(costs[call.name]),
                      s.available + Id(call), s.unavailable, cleared)
  {
  }

  function AddCounts(a: Counters, b: Counters): Counters {
    Counters(a.malformed + b.malformed, a.unknownTool + b.unknownTool, a.dependency + b.dependency,
             a.cleared + b.cleared, a.budget + b.budget)
  }
}
