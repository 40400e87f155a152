/** Earliest-finish dispatch on identical machines: no assignment and order of as many ready operations has a smaller
    sum of finish times. */
module FlowTime {
  import opened Common
  import opened JobShop

  // ---- The schedule runs on the machine freed longest ago ----

  /** The values of `f` on `keys`, with repetitions. */
  ghost function Values(keys: set<string>, f: map<string, real>): multiset<real>
    requires keys <= f.Keys
  {
    if keys == {} then multiset{} else
      var k :| k in keys;
      multiset{f[k]} + Values(keys - {k}, f)
  }

  lemma {:induction false} ValuesSplit(keys: set<string>, f: map<string, real>, k: string)
    requires keys <= f.Keys && k in keys
    ensures Values(keys, f) == multiset{f[k]} + Values(keys - {k}, f)
  {
    var j :| j in keys && Values(keys, f) == multiset{f[j]} + Values(keys - {j}, f);
    if j != k {
      ValuesSplit(keys - {j}, f, k);
      ValuesSplit(keys - {k}, f, j);
      assert keys - {j} - {k} == keys - {k} - {j};
    }
  }

  lemma {:induction false} ValuesAgree(keys: set<string>, f: map<string, real>, g: map<string, real>)
    requires keys <= f.Keys && keys <= g.Keys && forall k :: k in keys ==> f[k] == g[k]
    ensures Values(keys, f) == Values(keys, g)
  {
    if keys != {} {
      var k :| k in keys;
      ValuesSplit(keys, f, k);
      ValuesSplit(keys, g, k);
      ValuesAgree(keys - {k}, f, g);
    }
  }

  lemma ValuesUpdate(keys: set<string>, f: map<string, real>, k: string, v: real)
    requires keys <= f.Keys && k in keys
    ensures Values(keys, f[k := v]) + multiset{f[k]} == Values(keys, f) + multiset{v}
  {
    ValuesSplit(keys, f, k);
    ValuesSplit(keys, f[k := v], k);
    ValuesAgree(keys - {k}, f, f[k := v]);
  }

  lemma {:induction false} ValuesAre(keys: set<string>, f: map<string, real>, low: real)
    requires keys <= f.Keys && forall k :: k in keys ==> low <= f[k]
    ensures forall v :: v in Values(keys, f) ==> low <= v
    ensures forall k :: k in keys ==> f[k] in Values(keys, f)
  {
    forall k | k in keys ensures f[k] in Values(keys, f) {
      ValuesSplit(keys, f, k);
    }
    if keys != {} {
      var k :| k in keys;
      ValuesSplit(keys, f, k);
      ValuesAre(keys - {k}, f, low);
    }
  }

  function Copies(n: nat, x: real): seq<real> {
    seq(n, _ => x)
  }

  lemma {:induction false} EqualValues(keys: set<string>, f: map<string, real>, x: real)
    requires keys <= f.Keys && forall k :: k in keys ==> f[k] == x
    ensures Values(keys, f) == multiset(Copies(|keys|, x))
  {
    if keys != {} {
      var k :| k in keys;
      ValuesSplit(keys, f, k);
      EqualValues(keys - {k}, f, x);
      assert Copies(|keys|, x) == Copies(|keys - {k}|, x) + [x];
    }
  }

  function Ends(schedule: seq<Choice>): seq<real> {
    seq(|schedule|, i requires 0 <= i < |schedule| => schedule[i].end)
  }

  /** The instants at which some machine is freed: all of them at the release, then one per step. */
  function Freed(m: nat, from: real, schedule: seq<Choice>): (f: seq<real>)
    ensures |f| == m + |schedule|
  {
    Copies(m, from) + Ends(schedule)
  }

  lemma FreedNondecreasing(machines: Machines, available: Availability, ready: seq<Operation>, schedule: seq<Choice>,
                           speed: real, from: real)
    requires Identical(machines, available, ready, speed, from) && GreedyRun(machines, available, ready, schedule)
    requires NonNegative(ready)
    ensures var f := Freed(Count(machines), from, schedule); forall i, j :: 0 <= i <= j < |f| ==> f[i] <= f[j]
  {
    var m, f := Count(machines), Freed(Count(machines), from, schedule);
    forall i, j | 0 <= i <= j < |f| ensures f[i] <= f[j] {
      if m <= i {
        FinishTimesNondecreasing(machines, available, ready, schedule, i - m, j - m);
      } else if m <= j {
        IntervalWellFormed(machines, available, ready, schedule, j - m);
        RunPrefix(machines, available, ready, schedule, j - m);
      }
    }
  }

  lemma ExchangeHead(window: seq<real>, values: multiset<real>, x: real, v: real)
    requires window != [] && multiset(window) == values && window[0] == x
    ensures multiset(window[1..] + [v]) + multiset{x} == values + multiset{v}
  {
    assert window == [x] + window[1..];
  }

  lemma SameAfterExchange(a: multiset<real>, b: multiset<real>, x: real)
    requires a + multiset{x} == b + multiset{x}
    ensures a == b
  {
    assert a == (a + multiset{x}) - multiset{x} && b == (b + multiset{x}) - multiset{x};
  }

  /** The machines are free from the last `m` instants of `Freed`, and the next step starts at the first of them. */
  lemma {:induction false} MachinesFreeFrom(machines: Machines, available: Availability, ready: seq<Operation>,
                                            schedule: seq<Choice>, speed: real, from: real)
    requires Identical(machines, available, ready, speed, from) && GreedyRun(machines, available, ready, schedule)
    requires NonNegative(ready)
    ensures AvailableAfter(available, schedule).Keys == machines.Keys
    ensures Values(machines.Keys, AvailableAfter(available, schedule)) ==
            multiset(Freed(Count(machines), from, schedule)[|schedule|..])
    decreases |schedule|
  {
    var m := Count(machines);
    AvailableKeys(available, schedule, machines, ready);
    if schedule == [] {
      EqualValues(machines.Keys, available, from);
      assert Freed(m, from, schedule)[0..] == Copies(m, from);
    } else {
      var n := |schedule| - 1;
      var before, last := schedule[..n], schedule[n];
      MachinesFreeFrom(machines, available, ready, before, speed, from);
      StartsAtWindow(machines, available, ready, schedule, speed, from, n);
      var free, window := AvailableAfter(available, before), Freed(m, from, before)[n..];
      FreedGrows(m, from, schedule);
      WindowMoves(machines.Keys, free, last.machine, last.end, window);
    }
  }

  lemma {:induction false} FreedGrows(m: nat, from: real, schedule: seq<Choice>)
    requires m > 0 && schedule != []
    ensures var n, before := |schedule| - 1, Freed(m, from, schedule[..|schedule| - 1]);
      |before| == n + m && before[n] == Freed(m, from, schedule)[n] &&
      Freed(m, from, schedule)[n + 1..] == before[n..][1..] + [schedule[n].end]
  {
    var n := |schedule| - 1;
    var before, after := Freed(m, from, schedule[..n]), Freed(m, from, schedule);
    assert Ends(schedule) == Ends(schedule[..n]) + [schedule[n].end];
    assert after == before + [schedule[n].end];
    assert after[n + 1..] == before[n + 1..] + [schedule[n].end];
  }

  lemma WindowMoves(keys: set<string>, free: map<string, real>, k: string, end: real, window: seq<real>)
    requires keys <= free.Keys && k in keys && window != [] && window[0] == free[k]
    requires Values(keys, free) == multiset(window)
    ensures Values(keys, free[k := end]) == multiset(window[1..] + [end])
  {
    ValuesUpdate(keys, free, k, end);
    ExchangeHead(window, Values(keys, free), free[k], end);
    SameAfterExchange(Values(keys, free[k := end]), multiset(window[1..] + [end]), free[k]);
  }

  lemma StartsAtWindow(machines: Machines, available: Availability, ready: seq<Operation>, schedule: seq<Choice>,
                       speed: real, from: real, n: nat)
    requires Identical(machines, available, ready, speed, from) && GreedyRun(machines, available, ready, schedule)
    requires NonNegative(ready) && n < |schedule|
    requires var free := AvailableAfter(available, schedule[..n]);
      free.Keys == machines.Keys &&
      Values(machines.Keys, free) == multiset(Freed(Count(machines), from, schedule[..n])[n..])
    ensures schedule[n].machine in machines
    ensures AvailableAfter(available, schedule[..n])[schedule[n].machine] == Freed(Count(machines), from, schedule)[n]
  {
    var free, freed := AvailableAfter(available, schedule[..n]), Freed(Count(machines), from, schedule[..n]);
    StartsOnFirstFree(machines, available, ready, schedule, speed, from, n);
    RunPrefix(machines, available, ready, schedule, n);
    FreedNondecreasing(machines, available, ready, schedule[..n], speed, from);
    assert schedule[..n + 1][..n] == schedule[..n];
    FreedGrows(Count(machines), from, schedule[..n + 1]);
    FreedPrefix(Count(machines), from, schedule, n);
    LeastValueIsHead(machines.Keys, free, schedule[n].machine, freed[n..]);
  }

  lemma FreedPrefix(m: nat, from: real, schedule: seq<Choice>, n: nat)
    requires m > 0 && n < |schedule|
    ensures Freed(m, from, schedule[..n + 1])[n] == Freed(m, from, schedule)[n]
  {
  }

  lemma LeastValueIsHead(keys: set<string>, free: map<string, real>, k: string, window: seq<real>)
    requires keys <= free.Keys && k in keys && forall m :: m in keys ==> free[k] <= free[m]
    requires window != [] && Values(keys, free) == multiset(window)
    requires forall i, j :: 0 <= i <= j < |window| ==> window[i] <= window[j]
    ensures window[0] == free[k]
  {
    ValuesAre(keys, free, free[k]);
    HeadIsLeast(window, free[k]);
  }

  lemma StartsOnFirstFree(machines: Machines, available: Availability, ready: seq<Operation>, schedule: seq<Choice>,
                          speed: real, from: real, n: nat)
    requires Identical(machines, available, ready, speed, from) && GreedyRun(machines, available, ready, schedule)
    requires n < |schedule| && AvailableAfter(available, schedule[..n]).Keys == machines.Keys
    ensures var c, free := schedule[n], AvailableAfter(available, schedule[..n]);
      c.machine in machines && forall m :: m in machines.Keys ==> free[c.machine] <= free[m]
  {
    RunPrefix(machines, available, ready, schedule, n);
    DispatchedWasReady(machines, available, ready, schedule, 0);
    assert schedule[..0] == [];
    FirstFreeIsChosen(machines, AvailableAfter(available, schedule[..n]), ReadyAfter(ready, schedule[..n]), schedule[n],
                      speed);
  }

  lemma HeadIsLeast(window: seq<real>, x: real)
    requires window != [] && forall i, j :: 0 <= i <= j < |window| ==> window[i] <= window[j]
    requires x in multiset(window) && forall v :: v in multiset(window) ==> x <= v
    ensures window[0] == x
  {
    assert window[0] in multiset(window);
    assert x in window;
  }

  /** Step `k` starts when the machine freed `m` steps earlier is free, or at the release. */
  lemma StepFollowsStep(machines: Machines, available: Availability, ready: seq<Operation>, schedule: seq<Choice>,
                        speed: real, from: real, k: nat)
    requires Identical(machines, available, ready, speed, from) && GreedyRun(machines, available, ready, schedule)
    requires NonNegative(ready) && k < |schedule|
    ensures var m := Count(machines);
      schedule[k].end == (if k < m then from else schedule[k - m].end) + Lengths(schedule, speed)[k]
  {
    RunPrefix(machines, available, ready, schedule, k);
    MachinesFreeFrom(machines, available, ready, schedule[..k], speed, from);
    StartsAtWindow(machines, available, ready, schedule, speed, from, k);
    EndIsStartPlusLength(machines, available, ready, schedule, speed, from, k);
  }

  // ---- The total of the schedule ----

  /** Finish times beyond the release, layer by layer: every length counts once for each `m` operations from the end. */
  function Layers(sorted: seq<real>, m: nat, t: nat): real
    requires t <= |sorted| && m > 0
    decreases t
  {
    if t == 0 then 0.0 else SumReal(sorted[..t]) + Layers(sorted, m, if t < m then 0 else t - m)
  }

  lemma {:induction false} TotalByLayer(machines: Machines, available: Availability, ready: seq<Operation>,
                                        schedule: seq<Choice>, speed: real, from: real, t: nat)
    requires Identical(machines, available, ready, speed, from) && GreedyRun(machines, available, ready, schedule)
    requires NonNegative(ready) && t <= |schedule|
    ensures var m := Count(machines);
      TotalEnd(schedule[..t]) ==
      Times(Min(t, m), from) + TotalEnd(schedule[..if t < m then 0 else t - m]) + SumReal(Lengths(schedule, speed)[..t])
  {
    var m, lengths := Count(machines), Lengths(schedule, speed);
    if t == 0 {
      assert schedule[..0] == [] && lengths[..0] == [];
    } else {
      TotalByLayer(machines, available, ready, schedule, speed, from, t - 1);
      StepFollowsStep(machines, available, ready, schedule, speed, from, t - 1);
      TotalEndStep(schedule, t - 1);
      assert lengths[..t] == lengths[..t - 1] + [lengths[t - 1]];
      SumRealAppend(lengths[..t - 1], lengths[t - 1]);
      if t <= m {
        TimesAddCount(1, t - 1, from);
      } else {
        TotalEndStep(schedule, t - 1 - m);
      }
    }
  }

  lemma TotalEndStep(schedule: seq<Choice>, t: nat)
    requires t < |schedule|
    ensures TotalEnd(schedule[..t + 1]) == TotalEnd(schedule[..t]) + schedule[t].end
  {
    assert schedule[..t + 1][..t] == schedule[..t];
  }

  lemma {:induction false} TotalIsLayers(machines: Machines, available: Availability, ready: seq<Operation>,
                                         schedule: seq<Choice>, speed: real, from: real, t: nat)
    requires Identical(machines, available, ready, speed, from) && GreedyRun(machines, available, ready, schedule)
    requires NonNegative(ready) && t <= |schedule|
    ensures TotalEnd(schedule[..t]) == Times(t, from) + Layers(Lengths(schedule, speed), Count(machines), t)
    decreases t
  {
    var m := Count(machines);
    if t == 0 {
      assert schedule[..0] == [];
    } else {
      TotalByLayer(machines, available, ready, schedule, speed, from, t);
      if t < m {
        assert schedule[..0] == [];
      } else {
        TotalIsLayers(machines, available, ready, schedule, speed, from, t - m);
        TimesAddCount(m, t - m, from);
      }
    }
  }

  // ---- Any other assignment and order ----

  function Flatten<T>(lists: seq<seq<T>>): seq<T> {
    if lists == [] then [] else lists[0] + Flatten(lists[1..])
  }

  /** One list of lengths per machine, each run in order and back to back from the release. */
  function TotalOver(from: real, lists: seq<seq<real>>): real {
    if lists == [] then 0.0 else TotalFinish(from, lists[0]) + TotalOver(from, lists[1..])
  }

  function Init<T>(list: seq<T>): seq<T> {
    if list == [] then [] else list[..|list| - 1]
  }

  /** Every machine without its last operation. */
  function Peel<T>(lists: seq<seq<T>>): (p: seq<seq<T>>)
    ensures |p| == |lists|
  {
    seq(|lists|, i requires 0 <= i < |lists| => Init(lists[i]))
  }

  lemma {:induction false} SumRealConcat(a: seq<real>, b: seq<real>)
    ensures SumReal(a + b) == SumReal(a) + SumReal(b)
  {
    if a == [] {
      assert a + b == b;
    } else {
      assert (a + b)[1..] == a[1..] + b;
      SumRealConcat(a[1..], b);
    }
  }

  lemma LastOnce(list: seq<real>)
    ensures TotalFinish(0.0, list) == SumReal(list) + TotalFinish(0.0, Init(list))
  {
    if list != [] {
      var n := |list| - 1;
      assert list == list[..n] + [list[n]];
      TotalFinishAppend(0.0, list[..n], list[n]);
      SumRealAppend(list[..n], list[n]);
    }
  }

  lemma {:induction false} PeelOnce(lists: seq<seq<real>>)
    ensures TotalOver(0.0, lists) == SumReal(Flatten(lists)) + TotalOver(0.0, Peel(lists))
  {
    if lists != [] {
      PeelOnce(lists[1..]);
      assert Peel(lists)[1..] == Peel(lists[1..]) && Peel(lists)[0] == Init(lists[0]);
      LastOnce(lists[0]);
      SumRealConcat(lists[0], Flatten(lists[1..]));
    }
  }

  lemma {:induction false} PeelTakesSome(lists: seq<seq<real>>)
    ensures |Flatten(lists)| - |lists| <= |Flatten(Peel(lists))| <= |Flatten(lists)|
    ensures Flatten(lists) != [] ==> |Flatten(Peel(lists))| < |Flatten(lists)|
  {
    if lists != [] {
      PeelTakesSome(lists[1..]);
      assert Peel(lists)[1..] == Peel(lists[1..]) && Peel(lists)[0] == Init(lists[0]);
    }
  }

  lemma {:induction false} PeelWithin(lists: seq<seq<real>>)
    ensures multiset(Flatten(Peel(lists))) <= multiset(Flatten(lists))
  {
    if lists != [] {
      PeelWithin(lists[1..]);
      assert Peel(lists)[1..] == Peel(lists[1..]) && Peel(lists)[0] == Init(lists[0]);
      InitWithin(lists[0]);
    }
  }

  lemma InitWithin(list: seq<real>)
    ensures multiset(Init(list)) <= multiset(list)
  {
    if list != [] {
      assert list == Init(list) + [list[|list| - 1]];
    }
  }

  /** The sum of any choice from the pool is at least that of as many of the shortest. */
  lemma {:induction false} ShortestSumLeast(sorted: seq<real>, longer: multiset<real>, other: seq<real>)
    requires forall i, j :: 0 <= i < j < |sorted| ==> sorted[i] <= sorted[j]
    requires forall x, y :: x in sorted && y in longer ==> x <= y
    requires |other| <= |sorted| && multiset(other) <= multiset(sorted) + longer
    ensures SumReal(sorted[..|other|]) <= SumReal(other)
    decreases |other|
  {
    if other != [] {
      var x := sorted[0];
      FirstIsShortest(sorted, longer);
      var rest := DropShortest(x, multiset(sorted) + longer, other);
      PoolTail(sorted, longer);
      ShortestSumLeast(sorted[1..], longer, rest);
      assert sorted[..|other|][1..] == sorted[1..][..|rest|];
    }
  }

  lemma DropShortest(x: real, pool: multiset<real>, other: seq<real>) returns (rest: seq<real>)
    requires other != [] && multiset(other) <= pool && forall y :: y in pool ==> x <= y
    ensures |rest| == |other| - 1 && multiset(rest) <= pool - multiset{x} && x + SumReal(rest) <= SumReal(other)
  {
    if x in other {
      var k :| 0 <= k < |other| && other[k] == x;
      rest := RemoveAt(other, k);
      RestWithinPool(x, pool, other, k);
      assert other == other[..k] + ([x] + other[k + 1..]);
      SumRealConcat(other[..k], [x] + other[k + 1..]);
      SumRealConcat(other[..k], other[k + 1..]);
    } else {
      rest := other[1..];
      TailWithinPool(x, pool, other);
    }
  }

  lemma {:induction false} LayersMonotone(sorted: seq<real>, m: nat, s: nat, t: nat)
    requires s <= t <= |sorted| && m > 0 && forall x :: x in sorted ==> x >= 0.0
    ensures Layers(sorted, m, s) <= Layers(sorted, m, t)
    decreases t
  {
    if s == 0 {
      LayersNonNegative(sorted, m, t);
    } else {
      PrefixSumsGrow(sorted, s, t);
      LayersMonotone(sorted, m, if s < m then 0 else s - m, if t < m then 0 else t - m);
    }
  }

  lemma {:induction false} LayersNonNegative(sorted: seq<real>, m: nat, t: nat)
    requires t <= |sorted| && m > 0 && forall x :: x in sorted ==> x >= 0.0
    ensures Layers(sorted, m, t) >= 0.0
    decreases t
  {
    if t > 0 {
      PrefixSumsGrow(sorted, 0, t);
      assert sorted[..0] == [];
      LayersNonNegative(sorted, m, if t < m then 0 else t - m);
    }
  }

  lemma {:induction false} PrefixSumsGrow(sorted: seq<real>, s: nat, t: nat)
    requires s <= t <= |sorted| && forall x :: x in sorted ==> x >= 0.0
    ensures SumReal(sorted[..s]) <= SumReal(sorted[..t])
    decreases t - s
  {
    if s < t {
      PrefixSumsGrow(sorted, s, t - 1);
      assert sorted[..t] == sorted[..t - 1] + [sorted[t - 1]] && sorted[t - 1] in sorted;
      SumRealAppend(sorted[..t - 1], sorted[t - 1]);
    }
  }

  lemma {:induction false} NothingTakesNoTime(lists: seq<seq<real>>)
    requires Flatten(lists) == []
    ensures TotalOver(0.0, lists) == 0.0
  {
    if lists != [] {
      assert lists[0] == [] && Flatten(lists[1..]) == [];
      NothingTakesNoTime(lists[1..]);
    }
  }

  /** No way to spread as many lengths of the pool over at most `m` machines beats the layers of the shortest. */
  lemma {:induction false} LayersAreLeast(sorted: seq<real>, longer: multiset<real>, m: nat, lists: seq<seq<real>>)
    requires forall i, j :: 0 <= i < j < |sorted| ==> sorted[i] <= sorted[j]
    requires forall x :: x in sorted ==> x >= 0.0
    requires forall x, y :: x in sorted && y in longer ==> x <= y
    requires m > 0 && |lists| <= m
    requires |Flatten(lists)| <= |sorted| && multiset(Flatten(lists)) <= multiset(sorted) + longer
    ensures Layers(sorted, m, |Flatten(lists)|) <= TotalOver(0.0, lists)
    decreases |Flatten(lists)|
  {
    var t := |Flatten(lists)|;
    if t == 0 {
      NothingTakesNoTime(lists);
    } else {
      var peeled := Peel(lists);
      PeelOnce(lists);
      PeelTakesSome(lists);
      PeelWithin(lists);
      ShortestSumLeast(sorted, longer, Flatten(lists));
      LayersAreLeast(sorted, longer, m, peeled);
      LayersMonotone(sorted, m, if t < m then 0 else t - m, |Flatten(peeled)|);
    }
  }

  lemma {:induction false} ReleaseCountsOnce(from: real, list: seq<real>)
    ensures TotalFinish(from, list) == Times(|list|, from) + TotalFinish(0.0, list)
    decreases |list|
  {
    if list != [] {
      var n := |list| - 1;
      assert list == list[..n] + [list[n]];
      TotalFinishAppend(from, list[..n], list[n]);
      TotalFinishAppend(0.0, list[..n], list[n]);
      ReleaseCountsOnce(from, list[..n]);
    }
  }

  lemma {:induction false} ReleasesCountOnce(from: real, lists: seq<seq<real>>)
    ensures TotalOver(from, lists) == Times(|Flatten(lists)|, from) + TotalOver(0.0, lists)
  {
    if lists != [] {
      ReleaseCountsOnce(from, lists[0]);
      ReleasesCountOnce(from, lists[1..]);
      TimesAddCount(|lists[0]|, |Flatten(lists[1..])|, from);
    }
  }

  // ---- The optimum ----

  /** On identical machines a dispatched operation takes no longer than one dispatched later or left. */
  lemma ShortestFirst(machines: Machines, available: Availability, ready: seq<Operation>, schedule: seq<Choice>,
                      speed: real, from: real, i: nat, op: Operation)
    requires Identical(machines, available, ready, speed, from) && GreedyRun(machines, available, ready, schedule)
    requires i < |schedule| && op in ReadyAfter(ready, schedule[..i])
    ensures Duration(schedule[i].op, Machine(0.0, 0.0, speed)) <= Duration(op, Machine(0.0, 0.0, speed))
  {
    RunPrefix(machines, available, ready, schedule, i);
    DispatchedWasReady(machines, available, ready, schedule[..i], 0);
    assert schedule[..i][..0] == [];
    var left, free := ReadyAfter(ready, schedule[..i]), AvailableAfter(available, schedule[..i]);
    var mid := schedule[i].machine;
    var index :| 0 <= index < |left| && left[index] == op;
    assert IsChoice(machines, free, left, Choice(free[mid] + Duration(op, machines[mid]), op, mid, index));
  }

  lemma LengthsSorted(machines: Machines, available: Availability, ready: seq<Operation>, schedule: seq<Choice>,
                      speed: real, from: real)
    requires Identical(machines, available, ready, speed, from) && GreedyRun(machines, available, ready, schedule)
    ensures var lengths := Lengths(schedule, speed); forall i, j :: 0 <= i < j < |lengths| ==> lengths[i] <= lengths[j]
    ensures var longer := DurationsOn(Machine(0.0, 0.0, speed), ReadyAfter(ready, schedule));
      forall x, y :: x in Lengths(schedule, speed) && y in multiset(longer) ==> x <= y
  {
    var lengths, left := Lengths(schedule, speed), ReadyAfter(ready, schedule);
    var longer := DurationsOn(Machine(0.0, 0.0, speed), left);
    forall i, j | 0 <= i < j < |lengths| ensures lengths[i] <= lengths[j] {
      DispatchedWasReady(machines, available, ready, schedule, i);
      ShortestFirst(machines, available, ready, schedule, speed, from, i, schedule[j].op);
    }
    forall x, y | x in lengths && y in multiset(longer) ensures x <= y {
      var i :| 0 <= i < |lengths| && lengths[i] == x;
      assert y in longer;
      var k :| 0 <= k < |longer| && longer[k] == y;
      DispatchedWasReady(machines, available, ready, schedule, i);
      ShortestFirst(machines, available, ready, schedule, speed, from, i, left[k]);
    }
  }

  /** Lengths of the operations each machine runs. */
  function LengthLists(speed: real, lists: seq<seq<Operation>>): (l: seq<seq<real>>)
    ensures |l| == |lists|
  {
    seq(|lists|, i requires 0 <= i < |lists| => DurationsOn(Machine(0.0, 0.0, speed), lists[i]))
  }

  lemma {:induction false} FlattenLengths(speed: real, lists: seq<seq<Operation>>)
    ensures Flatten(LengthLists(speed, lists)) == DurationsOn(Machine(0.0, 0.0, speed), Flatten(lists))
  {
    if lists != [] {
      FlattenLengths(speed, lists[1..]);
      assert LengthLists(speed, lists)[1..] == LengthLists(speed, lists[1..]);
    }
  }

  lemma AllLengthsNonNegative(machines: Machines, available: Availability, ready: seq<Operation>, schedule: seq<Choice>,
                              speed: real)
    requires GreedyRun(machines, available, ready, schedule) && NonNegative(ready)
    ensures forall x :: x in Lengths(schedule, speed) ==> x >= 0.0
  {
    LengthsNonNegative(machines, available, ready, schedule, speed);
  }

  /** On identical machines, all free from the same instant and open to every operation, no choice of as many ready
      operations, spread over the machines and ordered on each in any way, has a smaller sum of finish times. */
  lemma ParallelOrderIsOptimal(machines: Machines, available: Availability, ready: seq<Operation>,
                               schedule: seq<Choice>, speed: real, from: real, lists: seq<seq<Operation>>)
    requires Identical(machines, available, ready, speed, from) && GreedyRun(machines, available, ready, schedule)
    requires NonNegative(ready)
    requires |lists| <= Count(machines) && |Flatten(lists)| == |schedule| && multiset(Flatten(lists)) <= multiset(ready)
    ensures TotalEnd(schedule) <= TotalOver(from, LengthLists(speed, lists))
  {
    var n := |schedule|;
    assert TotalEnd(schedule) == Times(n, from) + Layers(Lengths(schedule, speed), Count(machines), n) by {
      assert schedule[..n] == schedule;
      TotalIsLayers(machines, available, ready, schedule, speed, from, n);
    }
    assert TotalOver(from, LengthLists(speed, lists)) == Times(n, from) + TotalOver(0.0, LengthLists(speed, lists)) by {
      FlattenLengths(speed, lists);
      ReleasesCountOnce(from, LengthLists(speed, lists));
    }
    LayersOfSchedule(machines, available, ready, schedule, speed, from, lists);
  }

  lemma LayersOfSchedule(machines: Machines, available: Availability, ready: seq<Operation>, schedule: seq<Choice>,
                         speed: real, from: real, lists: seq<seq<Operation>>)
    requires Identical(machines, available, ready, speed, from) && GreedyRun(machines, available, ready, schedule)
    requires NonNegative(ready)
    requires |lists| <= Count(machines) && |Flatten(lists)| == |schedule| && multiset(Flatten(lists)) <= multiset(ready)
    ensures Layers(Lengths(schedule, speed), Count(machines), |schedule|) <= TotalOver(0.0, LengthLists(speed, lists))
  {
    var lengths, other := Lengths(schedule, speed), LengthLists(speed, lists);
    var longer := multiset(DurationsOn(Machine(0.0, 0.0, speed), ReadyAfter(ready, schedule)));
    LengthsSorted(machines, available, ready, schedule, speed, from);
    AllLengthsNonNegative(machines, available, ready, schedule, speed);
    WithinPool(machines, available, ready, schedule, speed, lists);
    LayersAreLeast(lengths, longer, Count(machines), other);
  }

  lemma WithinPool(machines: Machines, available: Availability, ready: seq<Operation>, schedule: seq<Choice>,
                   speed: real, lists: seq<seq<Operation>>)
    requires GreedyRun(machines, available, ready, schedule) && multiset(Flatten(lists)) <= multiset(ready)
    ensures var left := DurationsOn(Machine(0.0, 0.0, speed), ReadyAfter(ready, schedule));
      && multiset(Flatten(LengthLists(speed, lists))) <= multiset(Lengths(schedule, speed)) + multiset(left)
      && |Flatten(LengthLists(speed, lists))| == |Flatten(lists)|
  {
    FlattenLengths(speed, lists);
    DurationsSplit(machines, available, ready, schedule, Machine(0.0, 0.0, speed));
    DurationsOfSelection(Machine(0.0, 0.0, speed), Flatten(lists), ready);
  }
}
