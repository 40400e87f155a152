/** Earliest-finish dispatch of a flexible job shop: `_flexible_job_shop_action` in
    baselines/greedy_heuristic.py. The agent repeatedly takes the least tuple
    (finish, job, operation index, machine, position) over all ready operations and
    all known candidate machines, at most fifty times. */
module JobShop {
  import opened Common

  const DISPATCH_CAP := 50
  const MIN_SPEED := 0.000000001

  datatype Operation = Operation(jobId: string, operationIndex: int, processingTime: real,
                                 candidateMachines: seq<string>)
  datatype Machine = Machine(availableFrom: real, blockedUntil: real, speed: real)

  /** One candidate: `op`, sitting at position `index` of the ready list, run on `machine`. */
  datatype Choice = Choice(end: real, op: Operation, machine: string, index: nat)

  type Machines = map<string, Machine>
  type Availability = map<string, real>

  function Duration(op: Operation, machine: Machine): real {
    op.processingTime / MaxReal(MIN_SPEED, machine.speed)
  }

  function InitialAvailability(machines: Machines, now: real): Availability {
    map mid | mid in machines :: MaxReal(now, MaxReal(machines[mid].availableFrom, machines[mid].blockedUntil))
  }

  /** The lexicographic order of the candidate tuples. */
  predicate ChoiceLe(a: Choice, b: Choice) {
    || a.end < b.end
    || (a.end == b.end &&
        (if a.op.jobId != b.op.jobId then StringLe(a.op.jobId, b.op.jobId)
         else if a.op.operationIndex != b.op.operationIndex then a.op.operationIndex < b.op.operationIndex
         else if a.machine != b.machine then StringLe(a.machine, b.machine)
         else a.index <= b.index))
  }

  lemma ChoiceLeTotal(a: Choice, b: Choice)
    ensures ChoiceLe(a, b) || ChoiceLe(b, a)
  {
    StringLeTotal(a.op.jobId, b.op.jobId);
    StringLeTotal(a.machine, b.machine);
  }

  lemma ChoiceLeTransitive(a: Choice, b: Choice, c: Choice)
    requires ChoiceLe(a, b) && ChoiceLe(b, c)
    ensures ChoiceLe(a, c)
  {
    if a.end == b.end == c.end {
      if StringLe(a.op.jobId, b.op.jobId) && StringLe(b.op.jobId, c.op.jobId) {
        StringLeTransitive(a.op.jobId, b.op.jobId, c.op.jobId);
        if a.op.jobId == c.op.jobId {
          StringLeAntisymmetric(a.op.jobId, b.op.jobId);
        }
      }
      if StringLe(a.machine, b.machine) && StringLe(b.machine, c.machine) {
        StringLeTransitive(a.machine, b.machine, c.machine);
        if a.machine == c.machine {
          StringLeAntisymmetric(a.machine, b.machine);
        }
      }
    }
  }

  ghost predicate IsChoice(machines: Machines, available: Availability, ready: seq<Operation>, c: Choice) {
    && c.index < |ready| && c.op == ready[c.index]
    && c.machine in c.op.candidateMachines && c.machine in machines && c.machine in available
    && c.end == available[c.machine] + Duration(c.op, machines[c.machine])
  }

  ghost predicate IsBest(machines: Machines, available: Availability, ready: seq<Operation>, c: Choice) {
    && IsChoice(machines, available, ready, c)
    && forall d :: IsChoice(machines, available, ready, d) ==> ChoiceLe(c, d)
  }

  function AvailableAfter(available: Availability, schedule: seq<Choice>): Availability {
    if schedule == [] then available
    else
      var last := schedule[|schedule| - 1];
      AvailableAfter(available, schedule[..|schedule| - 1])[last.machine := last.end]
  }

  function ReadyAfter(ready: seq<Operation>, schedule: seq<Choice>): seq<Operation> {
    if schedule == [] then ready
    else RemoveAt(ReadyAfter(ready, schedule[..|schedule| - 1]), schedule[|schedule| - 1].index)
  }

  /** `schedule` is a run of the dispatcher: every step takes the least remaining candidate. */
  ghost predicate GreedyRun(machines: Machines, available: Availability, ready: seq<Operation>,
                            schedule: seq<Choice>)
  {
    schedule != [] ==>
      var before := schedule[..|schedule| - 1];
      && GreedyRun(machines, available, ready, before)
      && IsBest(machines, AvailableAfter(available, before), ReadyAfter(ready, before), schedule[|schedule| - 1])
  }

  /** Starting instant of the step at position `k`: when its machine was last freed. */
  function Start(available: Availability, schedule: seq<Choice>, k: nat): real
    requires k < |schedule|
  {
    var before := AvailableAfter(available, schedule[..k]);
    if schedule[k].machine in before then before[schedule[k].machine] else 0.0
  }

  function Dispatched(schedule: seq<Choice>): seq<Operation> {
    seq(|schedule|, i requires 0 <= i < |schedule| => schedule[i].op)
  }

  datatype DispatchRow = DispatchRow(jobId: string, operationIndex: int, machineId: string)

  function Rows(schedule: seq<Choice>): seq<DispatchRow> {
    seq(|schedule|, i requires 0 <= i < |schedule| =>
      DispatchRow(schedule[i].op.jobId, schedule[i].op.operationIndex, schedule[i].machine))
  }

  /** `min(candidates)`: nothing exactly when there is no candidate. */
  method EarliestFinish(machines: Machines, available: Availability, ready: seq<Operation>)
    returns (best: Option<Choice>)
    requires available.Keys == machines.Keys
    ensures best.None? ==> forall d :: !IsChoice(machines, available, ready, d)
    ensures best.Some? ==> IsBest(machines, available, ready, best.value)
  {
    best := None;
    for i := 0 to |ready|
      invariant best.Some? ==> IsChoice(machines, available, ready, best.value)
      invariant forall d :: IsChoice(machines, available, ready, d) && d.index < i ==>
        best.Some? && ChoiceLe(best.value, d)
    {
      var mids := ready[i].candidateMachines;
      for j := 0 to |mids|
        invariant best.Some? ==> IsChoice(machines, available, ready, best.value)
        invariant forall d ::
          (IsChoice(machines, available, ready, d) && (d.index < i || (d.index == i && d.machine in mids[..j]))) ==>
            best.Some? && ChoiceLe(best.value, d)
      {
        var mid := mids[j];
        if mid in machines {
          var c := Choice(available[mid] + Duration(ready[i], machines[mid]), ready[i], mid, i);
          var previous := best;
          if best.None? || !ChoiceLe(best.value, c) {
            best := Some(c);
          }
          forall d | IsChoice(machines, available, ready, d) && previous.Some? && ChoiceLe(previous.value, d)
            ensures ChoiceLe(best.value, d)
          {
            ChoiceLeTotal(previous.value, c);
            if best != previous {
              ChoiceLeTransitive(c, previous.value, d);
            }
          }
          ChoiceLeTotal(c, c);
        }
      }
    }
  }

  lemma AvailableKeys(available: Availability, schedule: seq<Choice>, machines: Machines, ready: seq<Operation>)
    requires available.Keys == machines.Keys && GreedyRun(machines, available, ready, schedule)
    ensures AvailableAfter(available, schedule).Keys == machines.Keys
  {
  }

  /** The loop of `_flexible_job_shop_action`. */
  method FlexibleJobShopAction(machines: Machines, now: real, readyOperations: seq<Operation>)
    returns (operations: seq<DispatchRow>, ghost schedule: seq<Choice>)
    ensures GreedyRun(machines, InitialAvailability(machines, now), readyOperations, schedule)
    ensures operations == Rows(schedule) && |operations| <= 50
    ensures forall i :: 0 <= i < |schedule| ==>
      && operations[i].jobId == schedule[i].op.jobId && operations[i].operationIndex == schedule[i].op.operationIndex
      && operations[i].machineId == schedule[i].machine
    ensures |operations| < 50 ==>
      forall d :: !IsChoice(machines, AvailableAfter(InitialAvailability(machines, now), schedule),
                            ReadyAfter(readyOperations, schedule), d)
  {
    var available := InitialAvailability(machines, now);
    var remaining := readyOperations;
    operations, schedule := [], [];
    ghost var available0 := available;
    while remaining != [] && |operations| < DISPATCH_CAP
      invariant GreedyRun(machines, available0, readyOperations, schedule)
      invariant available == AvailableAfter(available0, schedule)
      invariant remaining == ReadyAfter(readyOperations, schedule)
      invariant operations == Rows(schedule) && |operations| <= DISPATCH_CAP
      decreases DISPATCH_CAP - |operations|
    {
      AvailableKeys(available0, schedule, machines, readyOperations);
      var best := EarliestFinish(machines, available, remaining);
      if best.None? {
        break;
      }
      var c := best.value;
      remaining := RemoveAt(remaining, c.index);
      operations := operations + [DispatchRow(c.op.jobId, c.op.operationIndex, c.machine)];
      available := available[c.machine := c.end];
      ghost var extended := schedule + [c];
      assert extended[..|extended| - 1] == schedule;
      schedule := extended;
    }
  }

  // ---- Order, exclusiveness and conservation of the dispatch ----

  ghost predicate NonNegative(ready: seq<Operation>) {
    forall op :: op in ready ==> op.processingTime >= 0.0
  }

  lemma DurationNonNegative(op: Operation, machine: Machine)
    requires op.processingTime >= 0.0
    ensures Duration(op, machine) >= 0.0
  {
    var speed := MaxReal(MIN_SPEED, machine.speed);
    assert speed > 0.0;
    if op.processingTime / speed < 0.0 {
      assert (op.processingTime / speed) * speed < 0.0;
    }
  }

  lemma RunPrefix(machines: Machines, available: Availability, ready: seq<Operation>, schedule: seq<Choice>, k: nat)
    requires GreedyRun(machines, available, ready, schedule) && k <= |schedule|
    ensures GreedyRun(machines, available, ready, schedule[..k])
    ensures k < |schedule| ==>
      IsBest(machines, AvailableAfter(available, schedule[..k]), ReadyAfter(ready, schedule[..k]), schedule[k])
    decreases |schedule|
  {
    if k == |schedule| {
      assert schedule[..k] == schedule;
    } else {
      var before := schedule[..|schedule| - 1];
      if k < |before| {
        RunPrefix(machines, available, ready, before, k);
        assert before[..k] == schedule[..k];
      }
    }
  }

  /** Moving one element from `left` to the end of `done` conserves both together. */
  lemma MoveConserves<T>(done: seq<T>, left: seq<T>, i: nat)
    requires i < |left|
    ensures multiset(done + [left[i]]) + multiset(RemoveAt(left, i)) == multiset(done) + multiset(left)
  {
    RemoveAtMultiset(left, i);
  }

  /** No operation is lost or dispatched twice: what was ready is what was dispatched plus what is left. */
  lemma {:induction false} DispatchConserves(machines: Machines, available: Availability, ready: seq<Operation>,
                                             schedule: seq<Choice>)
    requires GreedyRun(machines, available, ready, schedule)
    ensures multiset(Dispatched(schedule)) + multiset(ReadyAfter(ready, schedule)) == multiset(ready)
  {
    if schedule != [] {
      var before, last := schedule[..|schedule| - 1], schedule[|schedule| - 1];
      DispatchConserves(machines, available, ready, before);
      assert Dispatched(schedule) == Dispatched(before) + [last.op];
      MoveConserves(Dispatched(before), ReadyAfter(ready, before), last.index);
    }
  }

  lemma {:induction false} LeftShrinks(ready: seq<Operation>, schedule: seq<Choice>, k: nat)
    requires k <= |schedule|
    ensures forall op :: op in ReadyAfter(ready, schedule) ==> op in ReadyAfter(ready, schedule[..k])
    decreases |schedule|
  {
    if k == |schedule| {
      assert schedule[..k] == schedule;
    } else {
      var before, last := schedule[..|schedule| - 1], schedule[|schedule| - 1];
      LeftShrinks(ready, before, k);
      assert before[..k] == schedule[..k];
      RemoveAtShrinks(ReadyAfter(ready, before), last.index);
    }
  }

  lemma RemoveAtShrinks<T>(s: seq<T>, i: nat)
    ensures forall x :: x in RemoveAt(s, i) ==> x in s
  {
  }

  lemma DispatchedWasReady(machines: Machines, available: Availability, ready: seq<Operation>,
                           schedule: seq<Choice>, k: nat)
    requires GreedyRun(machines, available, ready, schedule) && k <= |schedule|
    ensures forall j :: k <= j < |schedule| ==> schedule[j].op in ReadyAfter(ready, schedule[..k])
    ensures forall op :: op in ReadyAfter(ready, schedule) ==> op in ReadyAfter(ready, schedule[..k])
  {
    forall j | k <= j < |schedule| ensures schedule[j].op in ReadyAfter(ready, schedule[..k]) {
      RunPrefix(machines, available, ready, schedule, j);
      LeftShrinks(ready, schedule[..j], k);
      assert schedule[..j][..k] == schedule[..k];
    }
    LeftShrinks(ready, schedule, k);
  }

  /** Below the cap, whatever is left names no known machine. */
  lemma LeftoverHasNoMachine(machines: Machines, available: Availability, ready: seq<Operation>, schedule: seq<Choice>,
                             op: Operation, mid: string)
    requires available.Keys == machines.Keys && GreedyRun(machines, available, ready, schedule)
    requires forall d :: !IsChoice(machines, AvailableAfter(available, schedule), ReadyAfter(ready, schedule), d)
    requires op in ReadyAfter(ready, schedule) && mid in op.candidateMachines
    ensures mid !in machines
  {
    AvailableKeys(available, schedule, machines, ready);
    if mid in machines {
      var left, free := ReadyAfter(ready, schedule), AvailableAfter(available, schedule);
      var index :| 0 <= index < |left| && left[index] == op;
      assert IsChoice(machines, free, left, Choice(free[mid] + Duration(op, machines[mid]), op, mid, index));
    }
  }

  /** Two consecutive steps finish in order: the later one was already a candidate, or runs after the earlier one. */
  lemma NextFinishesLater(machines: Machines, available: Availability, ready: seq<Operation>, c: Choice, d: Choice)
    requires NonNegative(ready) && IsBest(machines, available, ready, c)
    requires IsChoice(machines, available[c.machine := c.end], RemoveAt(ready, c.index), d)
    ensures c.end <= d.end
  {
    if d.machine == c.machine {
      DurationNonNegative(d.op, machines[d.machine]);
    } else {
      var position := if d.index < c.index then d.index else d.index + 1;
      assert IsChoice(machines, available, ready, d.(index := position));
    }
  }

  /** Finish times come out in nondecreasing order. */
  lemma {:induction false} FinishTimesNondecreasing(machines: Machines, available: Availability, ready: seq<Operation>,
                                                    schedule: seq<Choice>, i: nat, j: nat)
    requires NonNegative(ready) && GreedyRun(machines, available, ready, schedule) && i <= j < |schedule|
    ensures schedule[i].end <= schedule[j].end
    decreases j
  {
    if i < j {
      FinishTimesNondecreasing(machines, available, ready, schedule, i, j - 1);
      RunPrefix(machines, available, ready, schedule, j);
      RunPrefix(machines, available, ready, schedule, j - 1);
      assert schedule[..j][..j - 1] == schedule[..j - 1];
      DispatchedWasReady(machines, available, ready, schedule[..j - 1], 0);
      assert schedule[..j - 1][..0] == [];
      NextFinishesLater(machines, AvailableAfter(available, schedule[..j - 1]), ReadyAfter(ready, schedule[..j - 1]),
                        schedule[j - 1], schedule[j]);
    }
  }

  /** Machines only become free later, and a machine that ran step `i` is not free before `i` has finished. */
  lemma {:induction false} FreeAfterEarlierWork(machines: Machines, available: Availability, ready: seq<Operation>,
                                                schedule: seq<Choice>, mid: string)
    requires NonNegative(ready) && available.Keys == machines.Keys
    requires GreedyRun(machines, available, ready, schedule) && mid in machines
    ensures mid in AvailableAfter(available, schedule) && available[mid] <= AvailableAfter(available, schedule)[mid]
    ensures forall i :: 0 <= i < |schedule| && schedule[i].machine == mid ==>
      schedule[i].end <= AvailableAfter(available, schedule)[mid]
  {
    if schedule != [] {
      var before, last := schedule[..|schedule| - 1], schedule[|schedule| - 1];
      FreeAfterEarlierWork(machines, available, ready, before, mid);
      DispatchedWasReady(machines, available, ready, schedule, 0);
      assert schedule[..0] == [];
      DurationNonNegative(last.op, machines[last.machine]);
      assert forall i :: 0 <= i < |before| ==> before[i] == schedule[i];
    }
  }

  /** A step starts no earlier than its machine's initial availability and takes non-negative time. */
  lemma IntervalWellFormed(machines: Machines, available: Availability, ready: seq<Operation>,
                           schedule: seq<Choice>, k: nat)
    requires NonNegative(ready) && available.Keys == machines.Keys
    requires GreedyRun(machines, available, ready, schedule) && k < |schedule|
    ensures schedule[k].machine in machines
    ensures available[schedule[k].machine] <= Start(available, schedule, k) <= schedule[k].end
  {
    RunPrefix(machines, available, ready, schedule, k);
    FreeAfterEarlierWork(machines, available, ready, schedule[..k], schedule[k].machine);
    DispatchedWasReady(machines, available, ready, schedule, 0);
    assert schedule[..0] == [];
    DurationNonNegative(schedule[k].op, machines[schedule[k].machine]);
  }

  /** Intervals on one machine never overlap. */
  lemma IntervalsDisjoint(machines: Machines, available: Availability, ready: seq<Operation>,
                          schedule: seq<Choice>, i: nat, j: nat)
    requires NonNegative(ready) && available.Keys == machines.Keys
    requires GreedyRun(machines, available, ready, schedule)
    requires i < j < |schedule| && schedule[i].machine == schedule[j].machine
    ensures schedule[i].end <= Start(available, schedule, j) <= schedule[j].end
  {
    IntervalWellFormed(machines, available, ready, schedule, j);
    RunPrefix(machines, available, ready, schedule, j);
    FreeAfterEarlierWork(machines, available, ready, schedule[..j], schedule[j].machine);
    assert schedule[..j][i] == schedule[i];
  }

  /** Step `i` is the last one on its machine among the first `n`. */
  predicate LastOn(schedule: seq<Choice>, n: nat, mid: string, i: nat) {
    i < n <= |schedule| && schedule[i].machine == mid && forall j :: i < j < n ==> schedule[j].machine != mid
  }

  /** A machine is free when the last step on it ends, and before that from its initial availability. */
  lemma {:induction false} FreeAfterLast(available: Availability, schedule: seq<Choice>, mid: string)
    requires mid in available
    ensures mid in AvailableAfter(available, schedule)
    ensures forall i: nat :: LastOn(schedule, |schedule|, mid, i) ==>
      AvailableAfter(available, schedule)[mid] == schedule[i].end
    ensures (forall i :: 0 <= i < |schedule| ==> schedule[i].machine != mid) ==>
      AvailableAfter(available, schedule)[mid] == available[mid]
  {
    if schedule != [] {
      var n := |schedule| - 1;
      FreeAfterLast(available, schedule[..n], mid);
      forall i: nat | LastOn(schedule, |schedule|, mid, i) && i < n ensures LastOn(schedule[..n], n, mid, i) {
      }
    }
  }

  /** When every operation of a dispatch runs: from the end of the last earlier step on its machine, or else from the
      latest of now, the machine's availability and the end of its block; and for as long as its processing time takes
      at the machine's speed. */
  lemma {:induction false} StepRunsWhenItsMachineAllows(machines: Machines, now: real, ready: seq<Operation>,
                                                        schedule: seq<Choice>, k: nat)
    requires GreedyRun(machines, InitialAvailability(machines, now), ready, schedule) && k < |schedule|
    ensures var c, start := schedule[k], Start(InitialAvailability(machines, now), schedule, k);
      && c.machine in machines && c.machine in c.op.candidateMachines
      && var machine := machines[c.machine];
        && Takes(c.end - start, c.op, machine)
        && (forall i: nat :: LastOn(schedule, k, c.machine, i) ==> start == schedule[i].end)
        && ((forall i :: 0 <= i < k ==> schedule[i].machine != c.machine) ==>
             IsLatest(start, {now, machine.availableFrom, machine.blockedUntil}))
  {
    var available := InitialAvailability(machines, now);
    StepIsChoice(machines, available, ready, schedule, k);
    StartsWhenFree(available, schedule, k);
    var time := schedule[k].end - Start(available, schedule, k);
    DurationTakesTheWork(schedule[k].op, machines[schedule[k].machine], time);
  }

  lemma {:induction false} StepIsChoice(machines: Machines, available: Availability, ready: seq<Operation>,
                                        schedule: seq<Choice>, k: nat)
    requires GreedyRun(machines, available, ready, schedule) && k < |schedule| && available.Keys == machines.Keys
    ensures var c := schedule[k];
      && c.machine in machines && c.machine in c.op.candidateMachines
      && c.end - Start(available, schedule, k) == Duration(c.op, machines[c.machine])
  {
    RunPrefix(machines, available, ready, schedule, k);
  }

  /** No operation still ready, on any machine it may use, would have finished before the one dispatched. */
  lemma NothingFinishesEarlier(machines: Machines, available: Availability, ready: seq<Operation>,
                               schedule: seq<Choice>, k: nat, op: Operation, mid: string, time: real)
    requires GreedyRun(machines, available, ready, schedule) && k < |schedule| && available.Keys == machines.Keys
    requires op in ReadyAfter(ready, schedule[..k]) && mid in op.candidateMachines && mid in machines
    requires Takes(time, op, machines[mid])
    ensures var free := AvailableAfter(available, schedule[..k]);
      mid in free && schedule[k].end <= free[mid] + time
  {
    RunPrefix(machines, available, ready, schedule, k);
    AvailableKeys(available, schedule[..k], machines, ready);
    var left, free := ReadyAfter(ready, schedule[..k]), AvailableAfter(available, schedule[..k]);
    var index :| 0 <= index < |left| && left[index] == op;
    assert IsChoice(machines, free, left, Choice(free[mid] + Duration(op, machines[mid]), op, mid, index));
    TakesIsDuration(op, machines[mid], time);
  }

  lemma TakesIsDuration(op: Operation, machine: Machine, time: real)
    requires Takes(time, op, machine)
    ensures time == Duration(op, machine)
  {
    var speed := MaxReal(MIN_SPEED, machine.speed);
    assert op.processingTime == time * speed;
    assert time * speed / speed == time;
  }

  lemma {:induction false} StartsWhenFree(available: Availability, schedule: seq<Choice>, k: nat)
    requires k < |schedule| && schedule[k].machine in available
    ensures var start, mid := Start(available, schedule, k), schedule[k].machine;
      && (forall i: nat :: LastOn(schedule, k, mid, i) ==> start == schedule[i].end)
      && ((forall i :: 0 <= i < k ==> schedule[i].machine != mid) ==> start == available[mid])
  {
    var mid := schedule[k].machine;
    FreeAfterLast(available, schedule[..k], mid);
    forall i: nat | LastOn(schedule, k, mid, i) ensures LastOn(schedule[..k], k, mid, i) {
    }
  }

  predicate IsLatest(x: real, instants: set<real>) {
    x in instants && forall y :: y in instants ==> y <= x
  }

  /** The operation's processing time is what the machine does in `time` at its speed, or at 1e-9 if that is less. */
  predicate Takes(time: real, op: Operation, machine: Machine) {
    time * MaxReal(0.000000001, machine.speed) == op.processingTime
  }

  lemma DurationTakesTheWork(op: Operation, machine: Machine, time: real)
    requires time == Duration(op, machine)
    ensures Takes(time, op, machine)
  {
    var speed := MaxReal(MIN_SPEED, machine.speed);
    assert op.processingTime / speed * speed == op.processingTime;
  }

  /** Candidates compare by the first of finish, job, operation index, machine and position in which they differ. */
  lemma FirstDifferenceDecides(a: Choice, b: Choice)
    ensures a.end != b.end ==> (ChoiceLe(a, b) <==> a.end < b.end)
    ensures a.end == b.end && a.op.jobId != b.op.jobId ==> (ChoiceLe(a, b) <==> StringLe(a.op.jobId, b.op.jobId))
    ensures a.end == b.end && a.op.jobId == b.op.jobId && a.op.operationIndex != b.op.operationIndex ==>
      (ChoiceLe(a, b) <==> a.op.operationIndex < b.op.operationIndex)
    ensures a.end == b.end && a.op.jobId == b.op.jobId && a.op.operationIndex == b.op.operationIndex ==>
      if a.machine != b.machine then (ChoiceLe(a, b) <==> StringLe(a.machine, b.machine))
      else (ChoiceLe(a, b) <==> a.index <= b.index)
  {
  }

  // ---- One machine: the order minimises the total of the finish times ----

  /** Sum of the finish times when `durations` run back to back from `from`. */
  function TotalFinish(from: real, durations: seq<real>): real
    decreases |durations|
  {
    if durations == [] then 0.0
    else (from + durations[0]) + TotalFinish(from + durations[0], durations[1..])
  }

  lemma {:induction false} MoveShortestFirst(from: real, front: seq<real>, x: real, rest: seq<real>)
    requires forall y :: y in front ==> x <= y
    ensures TotalFinish(from, [x] + (front + rest)) <= TotalFinish(from, front + ([x] + rest))
    decreases |front|
  {
    if front == [] {
      assert front + rest == rest && front + ([x] + rest) == [x] + rest;
    } else {
      var y, tail := front[0], front[1..];
      assert y in front && forall z :: z in tail ==> z in front;
      MoveShortestFirst(from + y, tail, x, rest);
      assert (front + ([x] + rest))[1..] == tail + ([x] + rest);
      assert ([x] + (tail + rest))[1..] == tail + rest;
      assert ([x] + (front + rest))[1..] == front + rest;
      assert (front + rest)[1..] == tail + rest;
      assert from + x + y == from + y + x;
    }
  }

  lemma {:induction false} LaterStartIsNoBetter(early: real, late: real, durations: seq<real>)
    requires early <= late
    ensures TotalFinish(early, durations) <= TotalFinish(late, durations)
    decreases |durations|
  {
    if durations != [] {
      LaterStartIsNoBetter(early + durations[0], late + durations[0], durations[1..]);
    }
  }

  /** The shortest duration of the pool may go first, whether or not `other` uses it. */
  lemma PullShortest(from: real, x: real, pool: multiset<real>, other: seq<real>) returns (rest: seq<real>)
    requires other != [] && multiset(other) <= pool && x in pool && forall y :: y in pool ==> x <= y
    ensures |rest| == |other| - 1 && multiset(rest) <= pool - multiset{x}
    ensures TotalFinish(from, [x] + rest) <= TotalFinish(from, other)
  {
    if x in other {
      var k :| 0 <= k < |other| && other[k] == x;
      rest := RemoveAt(other, k);
      RestWithinPool(x, pool, other, k);
      assert other == other[..k] + ([x] + other[k + 1..]);
      forall y | y in other[..k] ensures x <= y {
        assert y in multiset(other);
      }
      MoveShortestFirst(from, other[..k], x, other[k + 1..]);
    } else {
      rest := other[1..];
      TailWithinPool(x, pool, other);
      assert ([x] + rest)[1..] == rest;
      LaterStartIsNoBetter(from + x, from + other[0], rest);
    }
  }

  lemma RestWithinPool(x: real, pool: multiset<real>, other: seq<real>, k: nat)
    requires k < |other| && other[k] == x && multiset(other) <= pool
    ensures multiset(RemoveAt(other, k)) <= pool - multiset{x}
  {
    RemoveAtMultiset(other, k);
    assert multiset(RemoveAt(other, k)) == multiset(other) - multiset{x};
  }

  lemma TailWithinPool(x: real, pool: multiset<real>, other: seq<real>)
    requires other != [] && x !in other && multiset(other) <= pool
    ensures other[0] in pool && multiset(other[1..]) <= pool - multiset{x}
  {
    assert other == [other[0]] + other[1..];
    assert other[0] in multiset(other) && x !in multiset(other);
    assert multiset(other[1..]) <= multiset(other);
  }

  /** Shortest first is optimal: a sorted list of the shortest durations of a pool has a total finish time no larger
      than any other choice of as many durations from the pool, in any order. */
  lemma {:induction false} SortedMinimisesTotalFinish(from: real, sorted: seq<real>, longer: multiset<real>,
      other: seq<real>)
    requires forall i, j :: 0 <= i < j < |sorted| ==> sorted[i] <= sorted[j]
    requires forall x, y :: x in sorted && y in longer ==> x <= y
    requires |other| == |sorted| && multiset(other) <= multiset(sorted) + longer
    ensures TotalFinish(from, sorted) <= TotalFinish(from, other)
    decreases |sorted|
  {
    if sorted != [] {
      FirstIsShortest(sorted, longer);
      var rest := PullShortest(from, sorted[0], multiset(sorted) + longer, other);
      PoolTail(sorted, longer);
      SortedMinimisesTotalFinish(from + sorted[0], sorted[1..], longer, rest);
      assert ([sorted[0]] + rest)[1..] == rest;
    }
  }

  lemma PoolTail(sorted: seq<real>, longer: multiset<real>)
    requires sorted != []
    ensures multiset(sorted) + longer - multiset{sorted[0]} == multiset(sorted[1..]) + longer
    ensures forall y :: y in sorted[1..] ==> y in sorted
  {
    assert sorted == [sorted[0]] + sorted[1..];
  }

  lemma FirstIsShortest(sorted: seq<real>, longer: multiset<real>)
    requires sorted != [] && forall i, j :: 0 <= i < j < |sorted| ==> sorted[i] <= sorted[j]
    requires forall x, y :: x in sorted && y in longer ==> x <= y
    ensures sorted[0] in multiset(sorted) + longer && forall y :: y in multiset(sorted) + longer ==> sorted[0] <= y
  {
    forall y | y in multiset(sorted) + longer ensures sorted[0] <= y {
      if y in multiset(sorted) {
        assert y in sorted;
      } else {
        assert sorted[0] in sorted && y in longer;
      }
    }
  }

  function DurationsOn(machine: Machine, operations: seq<Operation>): seq<real> {
    seq(|operations|, i requires 0 <= i < |operations| => Duration(operations[i], machine))
  }

  function TotalEnd(schedule: seq<Choice>): real {
    if schedule == [] then 0.0 else TotalEnd(schedule[..|schedule| - 1]) + schedule[|schedule| - 1].end
  }

  lemma {:induction false} TotalFinishAppend(from: real, durations: seq<real>, d: real)
    ensures TotalFinish(from, durations + [d]) == TotalFinish(from, durations) + from + SumReal(durations) + d
    decreases |durations|
  {
    if durations == [] {
      assert durations + [d] == [d];
    } else {
      assert (durations + [d])[1..] == durations[1..] + [d];
      TotalFinishAppend(from + durations[0], durations[1..], d);
    }
  }

  function SumReal(s: seq<real>): real {
    if s == [] then 0.0 else s[0] + SumReal(s[1..])
  }

  lemma {:induction false} SumRealAppend(s: seq<real>, x: real)
    ensures SumReal(s + [x]) == SumReal(s) + x
  {
    if s == [] {
      assert s + [x] == [x];
    } else {
      assert (s + [x])[1..] == s[1..] + [x];
      SumRealAppend(s[1..], x);
    }
  }

  /** On a single machine the schedule runs its operations back to back. */
  lemma {:induction false} SingleMachineBackToBack(machines: Machines, available: Availability, ready: seq<Operation>,
                                                   schedule: seq<Choice>, mid: string)
    requires machines.Keys == {mid} && available.Keys == machines.Keys
    requires GreedyRun(machines, available, ready, schedule)
    ensures TotalEnd(schedule) == TotalFinish(available[mid], DurationsOn(machines[mid], Dispatched(schedule)))
    ensures mid in AvailableAfter(available, schedule)
    ensures AvailableAfter(available, schedule)[mid] ==
            available[mid] + SumReal(DurationsOn(machines[mid], Dispatched(schedule)))
  {
    if schedule != [] {
      var before, last := schedule[..|schedule| - 1], schedule[|schedule| - 1];
      SingleMachineBackToBack(machines, available, ready, before, mid);
      var done := DurationsOn(machines[mid], Dispatched(before));
      assert last.machine == mid;
      assert DurationsOn(machines[mid], Dispatched(schedule)) == done + [Duration(last.op, machines[mid])];
      TotalFinishAppend(available[mid], done, Duration(last.op, machines[mid]));
      SumRealAppend(done, Duration(last.op, machines[mid]));
    }
  }

  lemma SingleMachineShortestFirst(machines: Machines, available: Availability, ready: seq<Operation>,
                                   schedule: seq<Choice>, mid: string, i: nat, j: nat)
    requires machines.Keys == {mid} && available.Keys == machines.Keys
    requires forall op :: op in ready ==> mid in op.candidateMachines
    requires GreedyRun(machines, available, ready, schedule) && i < j < |schedule|
    ensures Duration(schedule[i].op, machines[mid]) <= Duration(schedule[j].op, machines[mid])
  {
    RunPrefix(machines, available, ready, schedule, i);
    DispatchedWasReady(machines, available, ready, schedule, i);
    AvailableKeys(available, schedule[..i], machines, ready);
    DispatchedWasReady(machines, available, ready, schedule[..i], 0);
    assert schedule[..i][..0] == [];
    var left, free := ReadyAfter(ready, schedule[..i]), AvailableAfter(available, schedule[..i]);
    var op := schedule[j].op;
    var index :| 0 <= index < |left| && left[index] == op;
    assert IsChoice(machines, free, left, Choice(free[mid] + Duration(op, machines[mid]), op, mid, index));
  }

  /** An operation still left takes no less time than any dispatched one. */
  lemma LeftoverIsLonger(machines: Machines, available: Availability, ready: seq<Operation>, schedule: seq<Choice>,
                         mid: string, i: nat, op: Operation)
    requires machines.Keys == {mid} && available.Keys == machines.Keys
    requires forall op :: op in ready ==> mid in op.candidateMachines
    requires GreedyRun(machines, available, ready, schedule) && i < |schedule| && op in ReadyAfter(ready, schedule)
    ensures Duration(schedule[i].op, machines[mid]) <= Duration(op, machines[mid])
  {
    RunPrefix(machines, available, ready, schedule, i);
    DispatchedWasReady(machines, available, ready, schedule, i);
    AvailableKeys(available, schedule[..i], machines, ready);
    DispatchedWasReady(machines, available, ready, schedule[..i], 0);
    assert schedule[..i][..0] == [];
    var left, free := ReadyAfter(ready, schedule[..i]), AvailableAfter(available, schedule[..i]);
    var index :| 0 <= index < |left| && left[index] == op;
    assert IsChoice(machines, free, left, Choice(free[mid] + Duration(op, machines[mid]), op, mid, index));
  }

  /** The ready durations are those dispatched and those left. */
  lemma {:induction false} DurationsSplit(machines: Machines, available: Availability, ready: seq<Operation>,
                                          schedule: seq<Choice>, machine: Machine)
    requires GreedyRun(machines, available, ready, schedule)
    ensures var left := ReadyAfter(ready, schedule);
      multiset(DurationsOn(machine, ready)) ==
      multiset(DurationsOn(machine, Dispatched(schedule))) + multiset(DurationsOn(machine, left))
  {
    var done, left := Dispatched(schedule), ReadyAfter(ready, schedule);
    DispatchConserves(machines, available, ready, schedule);
    assert multiset(done + left) == multiset(ready);
    DurationsOfSelection(machine, done + left, ready);
    DurationsOfSelection(machine, ready, done + left);
    DurationsOfBoth(machine, done, left);
  }

  lemma DurationsOfBoth(machine: Machine, a: seq<Operation>, b: seq<Operation>)
    ensures DurationsOn(machine, a + b) == DurationsOn(machine, a) + DurationsOn(machine, b)
  {
  }

  /** With one machine that every operation may use, no choice of as many ready operations, in any order, has a smaller
      total (hence mean) finish time: below the cap that is every reordering, and at the cap every other selection. */
  lemma SingleMachineOrderIsOptimal(machines: Machines, available: Availability, ready: seq<Operation>,
                                    schedule: seq<Choice>, mid: string, other: seq<Operation>)
    requires machines.Keys == {mid} && available.Keys == machines.Keys
    requires forall op :: op in ready ==> mid in op.candidateMachines
    requires GreedyRun(machines, available, ready, schedule)
    requires |other| == |schedule| && multiset(other) <= multiset(ready)
    ensures TotalEnd(schedule) <= TotalFinish(available[mid], DurationsOn(machines[mid], other))
  {
    var machine, left := machines[mid], ReadyAfter(ready, schedule);
    var sorted, longer := DurationsOn(machine, Dispatched(schedule)), DurationsOn(machine, left);
    forall i, j | 0 <= i < j < |sorted| ensures sorted[i] <= sorted[j] {
      SingleMachineShortestFirst(machines, available, ready, schedule, mid, i, j);
    }
    forall x, y | x in sorted && y in multiset(longer) ensures x <= y {
      var i :| 0 <= i < |sorted| && sorted[i] == x;
      assert y in longer;
      var k :| 0 <= k < |longer| && longer[k] == y;
      LeftoverIsLonger(machines, available, ready, schedule, mid, i, left[k]);
    }
    SingleMachineBackToBack(machines, available, ready, schedule, mid);
    DurationsSplit(machines, available, ready, schedule, machine);
    DurationsOfSelection(machine, other, ready);
    SortedMinimisesTotalFinish(available[mid], sorted, multiset(longer), DurationsOn(machine, other));
  }

  lemma {:induction false} DurationsOfSelection(machine: Machine, a: seq<Operation>, b: seq<Operation>)
    requires multiset(a) <= multiset(b)
    ensures multiset(DurationsOn(machine, a)) <= multiset(DurationsOn(machine, b))
    decreases |a|
  {
    if a != [] {
      var x := a[0];
      assert x in multiset(a) && x in multiset(b);
      var k :| 0 <= k < |b| && b[k] == x;
      var da, db := DurationsOn(machine, a), DurationsOn(machine, b);
      TailWithin(a, b, k);
      DurationsOfSelection(machine, a[1..], RemoveAt(b, k));
      assert da == [Duration(x, machine)] + DurationsOn(machine, a[1..]);
      assert DurationsOn(machine, RemoveAt(b, k)) == RemoveAt(db, k) && db[k] == Duration(x, machine);
      RemoveAtMultiset(db, k);
    }
  }

  lemma TailWithin<T>(a: seq<T>, b: seq<T>, k: nat)
    requires a != [] && k < |b| && b[k] == a[0] && multiset(a) <= multiset(b)
    ensures multiset(a[1..]) <= multiset(RemoveAt(b, k))
  {
    assert a == [a[0]] + a[1..];
    RemoveAtMultiset(b, k);
    assert multiset(a[1..]) == multiset(a) - multiset{a[0]};
    assert multiset(RemoveAt(b, k)) == multiset(b) - multiset{a[0]};
  }

  // ---- Identical machines: the list-scheduling bound ----

  lemma SumOverUpdate(keys: set<string>, f: Availability, k: string, v: real)
    requires keys <= f.Keys && k in keys
    ensures SumOver(keys, f[k := v]) == SumOver(keys, f) - f[k] + v
  {
    SumOverSplit(keys, f, k);
    SumOverSplit(keys, f[k := v], k);
    SumOverAgree(keys - {k}, f, f[k := v]);
  }

  lemma {:induction false} SumOverAtLeast(keys: set<string>, f: Availability, low: real)
    requires keys <= f.Keys && forall k :: k in keys ==> low <= f[k]
    ensures Times(|keys|, low) <= SumOver(keys, f)
  {
    if keys != {} {
      var k :| k in keys;
      SumOverSplit(keys, f, k);
      SumOverAtLeast(keys - {k}, f, low);
      assert |keys| == |keys - {k}| + 1;
    }
  }

  lemma {:induction false} SumOverAtMost(keys: set<string>, f: Availability, high: real)
    requires keys <= f.Keys && forall k :: k in keys ==> f[k] <= high
    ensures SumOver(keys, f) <= Times(|keys|, high)
  {
    if keys != {} {
      var k :| k in keys;
      SumOverSplit(keys, f, k);
      SumOverAtMost(keys - {k}, f, high);
      assert |keys| == |keys - {k}| + 1;
    }
  }

  /** Machines of one speed, all free at `from`, each able to run every ready operation. */
  ghost predicate Identical(machines: Machines, available: Availability, ready: seq<Operation>, speed: real,
      from: real) {
    && |machines.Keys| > 0 && available.Keys == machines.Keys
    && (forall m :: m in machines ==> machines[m].speed == speed && available[m] == from)
    && forall op, m :: op in ready && m in machines ==> m in op.candidateMachines
  }

  /** `n` times `x`, as repeated addition. */
  function Times(n: nat, x: real): real {
    if n == 0 then 0.0 else x + Times(n - 1, x)
  }

  lemma {:induction false} TimesIsProduct(n: nat, x: real)
    ensures Times(n, x) == n as real * x
  {
    if n > 0 {
      TimesIsProduct(n - 1, x);
      assert n as real * x == (n - 1) as real * x + x;
    }
  }

  lemma {:induction false} TimesAddReal(n: nat, x: real, y: real)
    ensures Times(n, x + y) == Times(n, x) + Times(n, y)
  {
    if n > 0 {
      TimesAddReal(n - 1, x, y);
    }
  }

  lemma {:induction false} TimesAddCount(a: nat, b: nat, x: real)
    ensures Times(a + b, x) == Times(a, x) + Times(b, x)
  {
    if a > 0 {
      TimesAddCount(a - 1, b, x);
    }
  }

  lemma {:induction false} TimesMonotone(n: nat, x: real, y: real)
    requires x <= y
    ensures Times(n, x) <= Times(n, y)
  {
    if n > 0 {
      TimesMonotone(n - 1, x, y);
    }
  }

  function Count(machines: Machines): nat {
    |machines.Keys|
  }

  function Lengths(schedule: seq<Choice>, speed: real): seq<real> {
    DurationsOn(Machine(0.0, 0.0, speed), Dispatched(schedule))
  }

  lemma {:induction false} WorkIsConserved(machines: Machines, available: Availability, ready: seq<Operation>,
                                           schedule: seq<Choice>, speed: real, from: real)
    requires Identical(machines, available, ready, speed, from) && GreedyRun(machines, available, ready, schedule)
    ensures AvailableAfter(available, schedule).Keys == machines.Keys
    ensures SumOver(machines.Keys, AvailableAfter(available, schedule)) ==
            Times(Count(machines), from) + SumReal(Lengths(schedule, speed))
  {
    if schedule == [] {
      SumOverAtLeast(machines.Keys, available, from);
      SumOverAtMost(machines.Keys, available, from);
    } else {
      var before, last := schedule[..|schedule| - 1], schedule[|schedule| - 1];
      WorkIsConserved(machines, available, ready, before, speed, from);
      SumOverUpdate(machines.Keys, AvailableAfter(available, before), last.machine, last.end);
      assert Lengths(schedule, speed) == Lengths(before, speed) + [Duration(last.op, machines[last.machine])];
      SumRealAppend(Lengths(before, speed), Duration(last.op, machines[last.machine]));
    }
  }

  lemma SumRealPrefix(s: seq<real>, k: nat)
    requires k < |s| && forall i :: 0 <= i < |s| ==> s[i] >= 0.0
    ensures SumReal(s[..k]) + s[k] <= SumReal(s)
  {
    if k == 0 {
      SumRealNonNegative(s[1..]);
    } else {
      SumRealPrefix(s[1..], k - 1);
      assert s[..k][1..] == s[1..][..k - 1];
    }
  }

  lemma SumRealNonNegative(s: seq<real>)
    requires forall i :: 0 <= i < |s| ==> s[i] >= 0.0
    ensures SumReal(s) >= 0.0
  {
  }

  /** Step `k` runs for its own length from its starting instant. */
  lemma EndIsStartPlusLength(machines: Machines, available: Availability, ready: seq<Operation>,
                             schedule: seq<Choice>, speed: real, from: real, k: nat)
    requires Identical(machines, available, ready, speed, from) && GreedyRun(machines, available, ready, schedule)
    requires k < |schedule|
    ensures schedule[k].end == Start(available, schedule, k) + Lengths(schedule, speed)[k]
  {
    RunPrefix(machines, available, ready, schedule, k);
  }

  /** The chosen machine is the first one free, so it is no busier than the average. */
  lemma StartsNoLaterThanAverage(machines: Machines, available: Availability, ready: seq<Operation>,
                                 schedule: seq<Choice>, speed: real, from: real, k: nat)
    requires Identical(machines, available, ready, speed, from) && GreedyRun(machines, available, ready, schedule)
    requires k < |schedule|
    ensures Times(Count(machines), Start(available, schedule, k)) <=
            Times(Count(machines), from) + SumReal(Lengths(schedule[..k], speed))
  {
    RunPrefix(machines, available, ready, schedule, k);
    WorkIsConserved(machines, available, ready, schedule[..k], speed, from);
    var free, c := AvailableAfter(available, schedule[..k]), schedule[k];
    assert forall m :: m in machines.Keys ==> free[c.machine] <= free[m] by {
      DispatchedWasReady(machines, available, ready, schedule, 0);
      assert schedule[..0] == [];
      FirstFreeIsChosen(machines, free, ReadyAfter(ready, schedule[..k]), c, speed);
    }
    SumOverAtLeast(machines.Keys, free, free[c.machine]);
  }

  lemma FirstFreeIsChosen(machines: Machines, free: Availability, left: seq<Operation>, c: Choice, speed: real)
    requires IsBest(machines, free, left, c) && free.Keys == machines.Keys
    requires forall m :: m in machines ==> machines[m].speed == speed && m in c.op.candidateMachines
    ensures forall m :: m in machines.Keys ==> free[c.machine] <= free[m]
  {
    forall m | m in machines.Keys ensures free[c.machine] <= free[m] {
      assert IsChoice(machines, free, left, Choice(free[m] + Duration(c.op, machines[m]), c.op, m, c.index));
    }
  }

  /** Every dispatched operation of length `p` finishes at `C` with m*(C - a) <= S + (m - 1)*p. */
  lemma FinishBound(machines: Machines, available: Availability, ready: seq<Operation>,
                    schedule: seq<Choice>, speed: real, from: real, k: nat)
    requires Identical(machines, available, ready, speed, from) && GreedyRun(machines, available, ready, schedule)
    requires NonNegative(ready) && k < |schedule|
    ensures ListSchedulingBound(Count(machines), schedule[k].end - from, SumReal(Lengths(schedule, speed)),
                                Lengths(schedule, speed)[k])
  {
    var lengths, start := Lengths(schedule, speed), Start(available, schedule, k);
    var before := SumReal(Lengths(schedule[..k], speed));
    assert before + lengths[k] <= SumReal(lengths) by {
      LengthsNonNegative(machines, available, ready, schedule, speed);
      assert Lengths(schedule[..k], speed) == lengths[..k];
      SumRealPrefix(lengths, k);
    }
    assert Times(Count(machines), start) <= Times(Count(machines), from) + before by {
      StartsNoLaterThanAverage(machines, available, ready, schedule, speed, from, k);
    }
    assert schedule[k].end == start + lengths[k] by {
      EndIsStartPlusLength(machines, available, ready, schedule, speed, from, k);
    }
    FinishArithmetic(Count(machines), start, from, lengths[k], schedule[k].end - from, before, SumReal(lengths));
  }

  predicate ListSchedulingBound(m: nat, elapsed: real, total: real, p: real)
    requires m > 0
  {
    Times(m, elapsed) <= total + Times(m - 1, p)
  }

  lemma FinishArithmetic(m: nat, start: real, from: real, p: real, elapsed: real, before: real, total: real)
    requires m > 0 && Times(m, start) <= Times(m, from) + before && before + p <= total
    requires elapsed + from == start + p
    ensures ListSchedulingBound(m, elapsed, total, p)
  {
    TimesAddReal(m, elapsed, from);
    TimesAddReal(m, start, p);
    var e, f, s, q := Times(m, elapsed), Times(m, from), Times(m, start), Times(m - 1, p);
    assert e + f == s + (p + q);
    assert e <= total + q;
  }

  lemma LengthsNonNegative(machines: Machines, available: Availability, ready: seq<Operation>,
                           schedule: seq<Choice>, speed: real)
    requires NonNegative(ready) && GreedyRun(machines, available, ready, schedule)
    ensures forall i :: 0 <= i < |schedule| ==> Lengths(schedule, speed)[i] >= 0.0
  {
    DispatchedWasReady(machines, available, ready, schedule, 0);
    assert schedule[..0] == [];
    forall i | 0 <= i < |schedule| ensures Lengths(schedule, speed)[i] >= 0.0 {
      DurationNonNegative(schedule[i].op, Machine(0.0, 0.0, speed));
    }
  }

  /** Load of every machine when operation `i` of the batch goes to `assignment[i]`. */
  function Loads(machines: set<string>, lengths: seq<real>, assignment: seq<string>): Availability
    requires |lengths| == |assignment| && forall i :: 0 <= i < |assignment| ==> assignment[i] in machines
    ensures Loads(machines, lengths, assignment).Keys == machines
  {
    if lengths == [] then map m | m in machines :: 0.0
    else
      var n := |lengths| - 1;
      var before := Loads(machines, lengths[..n], assignment[..n]);
      before[assignment[n] := before[assignment[n]] + lengths[n]]
  }

  lemma {:induction false} LoadsCarryTheWork(machines: set<string>, lengths: seq<real>, assignment: seq<string>)
    requires |lengths| == |assignment| && forall i :: 0 <= i < |assignment| ==> assignment[i] in machines
    requires forall i :: 0 <= i < |lengths| ==> lengths[i] >= 0.0
    ensures SumOver(machines, Loads(machines, lengths, assignment)) == SumReal(lengths)
    ensures forall m :: m in machines ==> Loads(machines, lengths, assignment)[m] >= 0.0
    ensures forall i :: 0 <= i < |lengths| ==> lengths[i] <= Loads(machines, lengths, assignment)[assignment[i]]
  {
    if lengths == [] {
      SumOverAtLeast(machines, Loads(machines, lengths, assignment), 0.0);
      SumOverAtMost(machines, Loads(machines, lengths, assignment), 0.0);
      TimesIsProduct(|machines|, 0.0);
    } else {
      var n := |lengths| - 1;
      LoadsCarryTheWork(machines, lengths[..n], assignment[..n]);
      var before := Loads(machines, lengths[..n], assignment[..n]);
      SumOverUpdate(machines, before, assignment[n], before[assignment[n]] + lengths[n]);
      assert lengths == lengths[..n] + [lengths[n]];
      SumRealAppend(lengths[..n], lengths[n]);
      OneMoreLoad(machines, lengths, assignment);
    }
  }

  lemma {:induction false} OneMoreLoad(machines: set<string>, lengths: seq<real>, assignment: seq<string>)
    requires |lengths| == |assignment| > 0 && forall i :: 0 <= i < |assignment| ==> assignment[i] in machines
    requires forall i :: 0 <= i < |lengths| ==> lengths[i] >= 0.0
    requires var n := |lengths| - 1;
      var before := Loads(machines, lengths[..n], assignment[..n]);
      (forall m :: m in machines ==> before[m] >= 0.0) &&
      forall i :: 0 <= i < n ==> lengths[..n][i] <= before[assignment[..n][i]]
    ensures forall m :: m in machines ==> Loads(machines, lengths, assignment)[m] >= 0.0
    ensures forall i :: 0 <= i < |lengths| ==> lengths[i] <= Loads(machines, lengths, assignment)[assignment[i]]
  {
    var n := |lengths| - 1;
    var before, after := Loads(machines, lengths[..n], assignment[..n]), Loads(machines, lengths, assignment);
    LoadAdded(machines, before, assignment[n], lengths[n], after);
    forall i | 0 <= i < |lengths| ensures lengths[i] <= after[assignment[i]] {
      if i < n {
        assert lengths[..n][i] == lengths[i] && assignment[..n][i] == assignment[i];
      }
    }
  }

  lemma LoadAdded(machines: set<string>, before: Availability, machine: string, length: real, after: Availability)
    requires before.Keys == machines && machine in machines && length >= 0.0
    requires after == before[machine := before[machine] + length]
    ensures forall m :: m in machines ==> before[m] <= after[m]
    ensures before[machine] >= 0.0 ==> length <= after[machine]
  {
  }

  /** List-scheduling guarantee: whatever assignment of the same batch is compared with, if its
      busiest machine carries at most `makespan`, every dispatched operation ends within (2 - 1/m) times that,
      stated without the division: m * elapsed <= (2m - 1) * makespan. */
  lemma WithinTwiceOptimal(machines: Machines, available: Availability, ready: seq<Operation>, schedule: seq<Choice>,
                           speed: real, from: real, assignment: seq<string>, makespan: real, k: nat)
    requires Identical(machines, available, ready, speed, from) && GreedyRun(machines, available, ready, schedule)
    requires NonNegative(ready) && k < |schedule|
    requires |assignment| == |schedule| && forall i :: 0 <= i < |assignment| ==> assignment[i] in machines
    requires forall m :: m in machines ==>
      Loads(machines.Keys, Lengths(schedule, speed), assignment)[m] <= makespan
    ensures Times(Count(machines), schedule[k].end - from) <= Times(2 * Count(machines) - 1, makespan)
  {
    var lengths, m := Lengths(schedule, speed), Count(machines);
    assert SumReal(lengths) <= Times(m, makespan) && lengths[k] <= makespan by {
      LengthsNonNegative(machines, available, ready, schedule, speed);
      LoadsCarryTheWork(machines.Keys, lengths, assignment);
      SumOverAtMost(machines.Keys, Loads(machines.Keys, lengths, assignment), makespan);
    }
    FinishBound(machines, available, ready, schedule, speed, from, k);
    TimesMonotone(m - 1, lengths[k], makespan);
    TimesAddCount(m, m - 1, makespan);
  }
}
