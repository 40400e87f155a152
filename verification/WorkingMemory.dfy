/** The persistent working memory of baselines/llm_agent.py: `_trim_persistent_memory`,
    `_upsert_persistent_memory`, and the bucket writes of `_update_persistent_memory`. */
module WorkingMemory {
  import opened Common

  const BUCKET_FLOOR := 4

  // Buckets in priority order.
  const ALARMS := 0
  const OBLIGATIONS := 1
  const FACTS := 2
  const COMMITMENTS := 3
  const FORECASTS := 4
  const TRENDS := 5
  const BUCKET_COUNT := 6

  /** A stored row: its `id` field (as `str(row.get("id"))`), its kind, and the rest. */
  datatype Record = Record(id: string, kind: string, body: string)

  type Buckets = s: seq<seq<Record>> | |s| == BUCKET_COUNT witness [[], [], [], [], [], []]

  function Lengths<T>(buckets: seq<seq<T>>): seq<nat> {
    seq(|buckets|, i requires 0 <= i < |buckets| => |buckets[i]|)
  }

  function Total<T>(buckets: seq<seq<T>>): nat {
    Sum(Lengths(buckets))
  }

  // ---- The two-pass budget, on bucket sizes ----

  /** Pass one: up to four records per bucket in priority order until the budget is spent. */
  function Floors(sizes: seq<nat>, budget: nat): (f: seq<nat>)
    ensures |f| == |sizes|
    ensures forall i :: 0 <= i < |sizes| ==> f[i] <= sizes[i] && f[i] <= BUCKET_FLOOR
    ensures Sum(f) <= budget
  {
    if sizes == [] then []
    else
      var take := Min(Min(BUCKET_FLOOR, sizes[0]), budget);
      [take] + Floors(sizes[1..], budget - take)
  }

  /** What bucket `i` holds once every bucket has had `rounds` turns of pass two and the first `cut`
      buckets one more. */
  function Level(sizes: seq<nat>, floors: seq<nat>, rounds: nat, cut: nat, i: nat): nat
    requires i < |sizes| == |floors| && floors[i] <= sizes[i]
  {
    floors[i] + Min(sizes[i] - floors[i], rounds + if i < cut then 1 else 0)
  }

  ghost predicate AtLevel(sizes: seq<nat>, budget: nat, kept: seq<nat>, rounds: nat, cut: nat) {
    && |kept| == |sizes| && cut <= |sizes|
    && forall i :: 0 <= i < |sizes| ==> kept[i] == Level(sizes, Floors(sizes, budget), rounds, cut, i)
  }

  /** The outcome of a trim: some level of pass two that spends exactly min(budget, total). */
  ghost predicate Trimmed(sizes: seq<nat>, budget: nat, kept: seq<nat>) {
    && |kept| == |sizes|
    && Sum(kept) == Min(budget, Sum(sizes))
    && exists rounds: nat, cut: nat :: AtLevel(sizes, budget, kept, rounds, cut)
  }

  lemma {:induction false} SumMonotone(a: seq<nat>, b: seq<nat>)
    requires |a| == |b| && forall i :: 0 <= i < |a| ==> a[i] <= b[i]
    ensures Sum(a) <= Sum(b)
    ensures Sum(a) == Sum(b) ==> a == b
  {
    if a != [] {
      SumMonotone(a[1..], b[1..]);
      assert a == [a[0]] + a[1..] && b == [b[0]] + b[1..];
    }
  }

  lemma {:induction false} SumUpdate(a: seq<nat>, i: nat, v: nat)
    requires i < |a|
    ensures Sum(a[i := v]) == Sum(a) - a[i] + v
  {
    if i == 0 {
      assert a[0 := v][1..] == a[1..];
    } else {
      SumUpdate(a[1..], i - 1, v);
      assert a[i := v][1..] == a[1..][i - 1 := v];
    }
  }

  lemma {:induction false} SumSplit(a: seq<nat>, b: seq<nat>)
    ensures Sum(a + b) == Sum(a) + Sum(b)
  {
    if a == [] {
      assert a + b == b;
    } else {
      assert (a + b)[1..] == a[1..] + b;
      SumSplit(a[1..], b);
    }
  }

  /** A trim result is determined by the sizes and the budget alone. */
  lemma TrimIsUnique(sizes: seq<nat>, budget: nat, a: seq<nat>, b: seq<nat>)
    requires Trimmed(sizes, budget, a) && Trimmed(sizes, budget, b)
    ensures a == b
  {
    var r: nat, c: nat :| AtLevel(sizes, budget, a, r, c);
    var s: nat, d: nat :| AtLevel(sizes, budget, b, s, d);
    if r < s || (r == s && c <= d) {
      assert forall i :: 0 <= i < |a| ==> a[i] <= b[i];
      SumMonotone(a, b);
    } else {
      assert forall i :: 0 <= i < |a| ==> b[i] <= a[i];
      SumMonotone(b, a);
    }
  }

  /** Fairness beyond the floors: a bucket that still lost records has had at most one turn fewer than
      any other bucket, and no fewer than a bucket of lower priority. */
  lemma TrimIsFair(sizes: seq<nat>, budget: nat, kept: seq<nat>, i: nat, j: nat)
    requires Trimmed(sizes, budget, kept) && i < |sizes| && j < |sizes| && kept[i] < sizes[i]
    ensures var floors := Floors(sizes, budget);
      && kept[j] - floors[j] <= kept[i] - floors[i] + 1
      && (i < j ==> kept[j] - floors[j] <= kept[i] - floors[i])
  {
    var r: nat, c: nat :| AtLevel(sizes, budget, kept, r, c);
    assert kept[i] == Level(sizes, Floors(sizes, budget), r, c, i);
    assert kept[j] == Level(sizes, Floors(sizes, budget), r, c, j);
  }

  /** The first `n` entries, added up from the front. */
  function Prefix(s: seq<nat>, n: nat): nat
    requires n <= |s|
  {
    if n == 0 then 0 else s[0] + Prefix(s[1..], n - 1)
  }

  lemma {:induction false} PrefixIsSum(s: seq<nat>, n: nat)
    requires n <= |s|
    ensures Prefix(s, n) == Sum(s[..n])
  {
    if n > 0 {
      PrefixIsSum(s[1..], n - 1);
      assert s[..n][1..] == s[1..][..n - 1];
    }
  }

  lemma {:induction false} FloorFromPrefix(sizes: seq<nat>, budget: nat, b: nat)
    requires b < |sizes|
    ensures var floors := Floors(sizes, budget);
      && Prefix(floors, b) <= budget
      && floors[b] == Min(Min(BUCKET_FLOOR, sizes[b]), budget - Prefix(floors, b))
  {
    if b > 0 {
      var first := Min(Min(BUCKET_FLOOR, sizes[0]), budget);
      FloorFromPrefix(sizes[1..], budget - first, b - 1);
      assert Floors(sizes, budget)[1..] == Floors(sizes[1..], budget - first);
    }
  }

  /** Floors are granted in priority order: each bucket takes up to four from what the earlier ones left. */
  lemma FloorsInPriorityOrder(sizes: seq<nat>, budget: nat, b: nat)
    requires b < |sizes|
    ensures var floors := Floors(sizes, budget);
      && Sum(floors[..b]) <= budget
      && floors[b] == Min(Min(4, sizes[b]), budget - Sum(floors[..b]))
  {
    FloorFromPrefix(sizes, budget, b);
    PrefixIsSum(Floors(sizes, budget), b);
  }

  /** Within the budget nothing is dropped. */
  lemma TrimWithinBudgetKeepsAll(sizes: seq<nat>, budget: nat, kept: seq<nat>)
    requires Trimmed(sizes, budget, kept) && Sum(sizes) <= budget
    ensures kept == sizes
  {
    SumMonotone(kept, sizes);
  }

  /** Trimming a trimmed memory changes nothing. */
  lemma TrimIsIdempotent(sizes: seq<nat>, budget: nat, once: seq<nat>, twice: seq<nat>)
    requires Trimmed(sizes, budget, once) && Trimmed(once, budget, twice)
    ensures twice == once
  {
    TrimWithinBudgetKeepsAll(once, budget, twice);
  }

  /** With a budget of at least four, the four newest records of the first bucket survive any trim. */
  lemma TrimProtectsFirstBucket(sizes: seq<nat>, budget: nat, kept: seq<nat>)
    requires Trimmed(sizes, budget, kept) && sizes != [] && budget >= BUCKET_FLOOR
    ensures kept[0] >= Min(BUCKET_FLOOR, sizes[0])
  {
    var r: nat, c: nat :| AtLevel(sizes, budget, kept, r, c);
    assert kept[0] == Level(sizes, Floors(sizes, budget), r, c, 0);
  }

  // ---- The memory object ----

  ghost predicate IsTrimOf(before: Buckets, budget: nat, after: Buckets) {
    && Trimmed(Lengths(before), budget, Lengths(after))
    && forall i :: 0 <= i < BUCKET_COUNT ==> after[i] == LastN(before[i], |after[i]|)
  }

  class StructuredMemory {
    var buckets: Buckets
    const budget: nat

    ghost predicate Valid()
      reads this
    {
      budget >= BUCKET_FLOOR
    }

    constructor (maxItems: int)
      ensures Valid() && budget == Max(BUCKET_FLOOR, maxItems)
      ensures buckets == [[], [], [], [], [], []]
    {
      budget := Max(BUCKET_FLOOR, maxItems);
      buckets := [[], [], [], [], [], []];
    }

    /** Pass one of `_trim_persistent_memory`. */
    static method GrantFloors(sizes: seq<nat>, budget: nat) returns (taken: seq<nat>, remaining: nat)
      ensures taken == Floors(sizes, budget) && remaining == budget - Sum(taken)
    {
      taken, remaining := [], budget;
      ghost var floors := Floors(sizes, budget);
      for b := 0 to |sizes|
        invariant taken == floors[..b] && remaining == budget - Sum(floors[..b])
      {
        FloorsInPriorityOrder(sizes, budget, b);
        assert floors[..b + 1] == floors[..b] + [floors[b]];
        SumSplit(floors[..b], [floors[b]]);
        var take := Min(Min(BUCKET_FLOOR, sizes[b]), remaining);
        taken := taken + [take];
        remaining := remaining - take;
      }
      assert floors[..|sizes|] == floors;
    }

    /** One turn of pass two over all buckets; empty ones fail the exhaustion test just as exhausted ones do. */
    static method CycleOnce(sizes: seq<nat>, budget: nat, before: seq<nat>, left: nat, ghost rounds: nat)
      returns (taken: seq<nat>, remaining: nat, progressed: bool, ghost cut: nat)
      requires AtLevel(sizes, budget, before, rounds, 0) && left + Sum(before) == budget && left > 0
      ensures AtLevel(sizes, budget, taken, rounds, cut) && remaining + Sum(taken) == budget
      ensures remaining > 0 ==> cut == |sizes|
      ensures progressed ==> remaining < left
      ensures !progressed ==> taken == before == sizes
    {
      taken, remaining, progressed, cut := before, left, false, 0;
      for b := 0 to |sizes|
        invariant AtLevel(sizes, budget, taken, rounds, cut) && remaining + Sum(taken) == budget
        invariant remaining > 0 ==> cut == b
        invariant remaining <= left && (progressed <==> remaining < left)
        invariant !progressed ==> taken == before && forall i :: 0 <= i < b ==> before[i] == sizes[i]
      {
        if remaining <= 0 {
          break;
        }
        LevelStep(sizes, budget, taken, rounds, b);
        if taken[b] < sizes[b] {
          SumUpdate(taken, b, taken[b] + 1);
          taken := taken[b := taken[b] + 1];
          remaining := remaining - 1;
          progressed := true;
        }
        cut := b + 1;
      }
    }

    /** Both passes: how many records each bucket retains. */
    static method Allocate(sizes: seq<nat>, budget: nat) returns (taken: seq<nat>)
      ensures Trimmed(sizes, budget, taken)
      ensures forall i :: 0 <= i < |sizes| ==> taken[i] <= sizes[i]
    {
      var remaining: nat;
      taken, remaining := GrantFloors(sizes, budget);
      ghost var rounds: nat, cut: nat := 0, 0;
      var progressed := true;
      while remaining > 0 && progressed
        invariant AtLevel(sizes, budget, taken, rounds, cut) && remaining + Sum(taken) == budget
        invariant remaining > 0 && progressed ==> cut == 0
        invariant !progressed ==> taken == sizes
        decreases remaining, progressed
      {
        taken, remaining, progressed, cut := CycleOnce(sizes, budget, taken, remaining, rounds);
        if remaining > 0 {
          NextRound(sizes, budget, taken, rounds);
          rounds, cut := rounds + 1, 0;
        }
      }
      TakenWithin(sizes, budget, taken, rounds, cut);
      SumMonotone(taken, sizes);
    }

    /** `_trim_persistent_memory`: every bucket keeps its newest records, in order. */
    method Trim()
      requires Valid()
      modifies this`buckets
      ensures IsTrimOf(old(buckets), budget, buckets)
    {
      var taken := Allocate(Lengths(buckets), budget);
      var kept: seq<seq<Record>> := [];
      for b := 0 to BUCKET_COUNT
        invariant |kept| == b
        invariant forall i :: 0 <= i < b ==> kept[i] == LastN(buckets[i], taken[i])
      {
        kept := kept + [LastN(buckets[b], taken[b])];
      }
      assert Lengths(kept) == taken;
      buckets := kept;
    }

    /** Replace the row of this id and append the new one, then trim. */
    method Upsert(bucket: nat, item: Item)
      requires Valid() && bucket in UPSERT_BUCKETS
      modifies this`buckets
      ensures Step(budget, old(buckets), WriteItem(bucket, item), buckets)
      ensures exists full: Buckets :: IsUpsertOf(old(buckets), bucket, item, full) && IsTrimOf(full, budget, buckets)
      ensures buckets[bucket] != [] ==> IsRowOf(item, buckets[bucket][|buckets[bucket]| - 1])
    {
      UpsertedIsUpsert(buckets, bucket, item);
      buckets := Upserted(buckets, bucket, item);
      Trim();
    }

    /** `confirmed_facts` is overwritten without a trim. */
    method SetFacts(fact: Record)
      modifies this`buckets
      ensures Step(budget, old(buckets), WriteFacts(fact), buckets)
      ensures buckets[FACTS] == [fact] && forall b :: 0 <= b < 6 && b != FACTS ==> buckets[b] == old(buckets)[b]
    {
      buckets := buckets[FACTS := [fact]];
    }

    /** `active_commitments` is overwritten without a trim. */
    method SetCommitments(commitment: Option<Record>)
      modifies this`buckets
      ensures Step(budget, old(buckets), WriteCommitments(commitment), buckets)
      ensures match commitment case Some(c) => buckets[COMMITMENTS] == [c] case None => buckets[COMMITMENTS] == []
      ensures forall b :: 0 <= b < 6 && b != COMMITMENTS ==> buckets[b] == old(buckets)[b]
    {
      buckets := buckets[COMMITMENTS := if commitment.Some? then [commitment.value] else []];
    }

    method ResolveAlarm(id: string)
      modifies this`buckets
      ensures KeepsOrder(old(buckets)[ALARMS], buckets[ALARMS], HasId(id))
      ensures Step(budget, old(buckets), ClearAlarm(id), buckets)
    {
      KeepKeepsOrder(buckets[ALARMS], HasId(id));
      buckets := buckets[ALARMS := Without(buckets[ALARMS], id)];
    }

    method ResolveObligation(id: string)
      modifies this`buckets
      ensures KeepsOrder(old(buckets)[OBLIGATIONS], buckets[OBLIGATIONS], HasId(id))
      ensures Step(budget, old(buckets), ClearObligation(id), buckets)
    {
      KeepKeepsOrder(buckets[OBLIGATIONS], HasId(id));
      buckets := buckets[OBLIGATIONS := Without(buckets[OBLIGATIONS], id)];
    }

    method DropObligationsOfKind(kind: string)
      modifies this`buckets
      ensures KeepsOrder(old(buckets)[OBLIGATIONS], buckets[OBLIGATIONS], IsOfKind(kind))
      ensures Step(budget, old(buckets), ClearKind(kind), buckets)
    {
      KeepKeepsOrder(buckets[OBLIGATIONS], IsOfKind(kind));
      buckets := buckets[OBLIGATIONS := WithoutKind(buckets[OBLIGATIONS], kind)];
    }
  }

  lemma LevelStep(sizes: seq<nat>, budget: nat, taken: seq<nat>, rounds: nat, b: nat)
    requires AtLevel(sizes, budget, taken, rounds, b) && b < |sizes|
    ensures taken[b] < sizes[b] ==> AtLevel(sizes, budget, taken[b := taken[b] + 1], rounds, b + 1)
    ensures taken[b] >= sizes[b] ==> taken[b] == sizes[b] && AtLevel(sizes, budget, taken, rounds, b + 1)
  {
    assert taken[b] == Level(sizes, Floors(sizes, budget), rounds, b, b);
  }

  lemma NextRound(sizes: seq<nat>, budget: nat, taken: seq<nat>, rounds: nat)
    requires AtLevel(sizes, budget, taken, rounds, |sizes|)
    ensures AtLevel(sizes, budget, taken, rounds + 1, 0)
  {
  }

  lemma TakenWithin(sizes: seq<nat>, budget: nat, taken: seq<nat>, rounds: nat, cut: nat)
    requires AtLevel(sizes, budget, taken, rounds, cut)
    ensures forall i :: 0 <= i < |sizes| ==> taken[i] <= sizes[i]
  {
  }

  // ---- Item identity ----

  /** An incoming item: the first of its event, task, dilemma, call or evidence ids that is set; its own `id`
      field if it has one; and the id derived from its digest. */
  datatype Item = Item(sourceId: Option<string>, ownId: Option<string>, digestId: string, kind: string, body: string)

  const UPSERT_BUCKETS: set<nat> := {ALARMS, OBLIGATIONS, FORECASTS, TRENDS}

  /** `_persistent_memory_item_id`. */
  function ItemId(item: Item): string {
    if item.sourceId.Some? && item.sourceId.value != "" then item.sourceId.value
    else if item.ownId.Some? && item.ownId.value != "" then item.ownId.value
    else item.digestId
  }

  /** The row stored: the item's own `id` field, when present, overrides the resolved id. */
  function Stored(item: Item): Record {
    Record(if item.ownId.Some? then item.ownId.value else ItemId(item), item.kind, item.body)
  }

  /** `[row for row in rows if not drop(row)]`. */
  function Keep(rows: seq<Record>, drop: Record -> bool): (r: seq<Record>)
    ensures forall x :: x in r <==> x in rows && !drop(x)
    ensures |r| <= |rows|
    ensures (forall x :: x in rows ==> !drop(x)) ==> r == rows
  {
    if rows == [] then []
    else
      var n := |rows| - 1;
      var before := Keep(rows[..n], drop);
      assert rows == rows[..n] + [rows[n]];
      if drop(rows[n]) then before else before + [rows[n]]
  }

  lemma {:induction false} KeepKeepsIdsUnique(rows: seq<Record>, drop: Record -> bool)
    requires UniqueIds(rows)
    ensures UniqueIds(Keep(rows, drop))
    decreases |rows|
  {
    if rows != [] {
      var n := |rows| - 1;
      KeepKeepsIdsUnique(rows[..n], drop);
      var before := Keep(rows[..n], drop);
      forall i | 0 <= i < |before| ensures before[i].id != rows[n].id {
        assert before[i] in rows[..n];
      }
    }
  }

  function HasId(id: string): Record -> bool {
    (x: Record) => x.id == id
  }

  function IsOfKind(kind: string): Record -> bool {
    (x: Record) => x.kind == kind
  }

  function Without(rows: seq<Record>, id: string): (r: seq<Record>)
    ensures forall x :: x in r <==> x in rows && x.id != id
    ensures |r| <= |rows|
    ensures UniqueIds(rows) ==> UniqueIds(r)
    ensures (forall x :: x in rows ==> x.id != id) ==> r == rows
  {
    assert UniqueIds(rows) ==> UniqueIds(Keep(rows, HasId(id))) by {
      if UniqueIds(rows) {
        KeepKeepsIdsUnique(rows, HasId(id));
      }
    }
    Keep(rows, HasId(id))
  }

  function WithoutKind(rows: seq<Record>, kind: string): (r: seq<Record>)
    ensures forall x :: x in r <==> x in rows && x.kind != kind
    ensures |r| <= |rows|
    ensures UniqueIds(rows) ==> UniqueIds(r)
  {
    assert UniqueIds(rows) ==> UniqueIds(Keep(rows, IsOfKind(kind))) by {
      if UniqueIds(rows) {
        KeepKeepsIdsUnique(rows, IsOfKind(kind));
      }
    }
    Keep(rows, IsOfKind(kind))
  }

  /** `kept` are the rows at `positions`, which are all the positions of rows not dropped, in increasing order. */
  ghost predicate KeptAt(rows: seq<Record>, kept: seq<Record>, drop: Record -> bool, positions: seq<nat>) {
    && |positions| == |kept|
    && (forall i, j :: 0 <= i < j < |positions| ==> positions[i] < positions[j])
    && (forall p: nat :: p in positions <==> p < |rows| && !drop(rows[p]))
    && forall i :: 0 <= i < |kept| ==> positions[i] < |rows| && kept[i] == rows[positions[i]]
  }

  ghost predicate KeepsOrder(rows: seq<Record>, kept: seq<Record>, drop: Record -> bool) {
    exists positions: seq<nat> :: KeptAt(rows, kept, drop, positions)
  }

  lemma OneMoreRow(rows: seq<Record>, kept: seq<Record>, drop: Record -> bool, positions: seq<nat>)
    requires rows != []
    requires KeptAt(rows[..|rows| - 1], kept, drop, positions)
    ensures var n := |rows| - 1;
      if drop(rows[n]) then KeptAt(rows, kept, drop, positions)
      else KeptAt(rows, kept + [rows[n]], drop, positions + [n])
  {
    var n := |rows| - 1;
    assert forall i :: 0 <= i < |positions| ==> positions[i] in positions;
    assert forall p: nat :: p in positions + [n] <==> p in positions || p == n;
  }

  lemma {:induction false} KeepKeepsOrder(rows: seq<Record>, drop: Record -> bool)
    ensures KeepsOrder(rows, Keep(rows, drop), drop)
    decreases |rows|
  {
    if rows == [] {
      assert KeptAt(rows, [], drop, []);
    } else {
      var n := |rows| - 1;
      KeepKeepsOrder(rows[..n], drop);
      var before := Keep(rows[..n], drop);
      var positions: seq<nat> :| KeptAt(rows[..n], before, drop, positions);
      OneMoreRow(rows, before, drop, positions);
    }
  }

  function Upserted(buckets: Buckets, bucket: nat, item: Item): Buckets
    requires bucket < BUCKET_COUNT
  {
    buckets[bucket := Without(buckets[bucket], ItemId(item)) + [Stored(item)]]
  }

  /** The id an item goes by: its source id if set, else its own, else the one derived from its digest. */
  predicate GoesBy(item: Item, id: string) {
    var sourced, owned := item.sourceId.Some? && item.sourceId.value != "", item.ownId.Some? && item.ownId.value != "";
    && (sourced ==> id == item.sourceId.value)
    && (!sourced && owned ==> id == item.ownId.value)
    && (!sourced && !owned ==> id == item.digestId)
  }

  /** `row` is what is stored of an item: its kind and body under its own `id` field, else under the id it goes by. */
  predicate IsRowOf(item: Item, row: Record) {
    && row.kind == item.kind && row.body == item.body
    && if item.ownId.Some? then row.id == item.ownId.value else GoesBy(item, row.id)
  }

  /** `full` is `before` with the rows of the item's id taken out of the bucket and one row of the item put last. */
  ghost predicate IsUpsertOf(before: Buckets, bucket: nat, item: Item, full: Buckets)
    requires bucket < BUCKET_COUNT
  {
    && (forall b :: 0 <= b < BUCKET_COUNT && b != bucket ==> full[b] == before[b])
    && full[bucket] != []
    && var n := |full[bucket]| - 1;
      IsRowOf(item, full[bucket][n])
      && exists id :: GoesBy(item, id) && KeepsOrder(before[bucket], full[bucket][..n], HasId(id))
  }

  /** An upsert stores the item last in its bucket, in the place of the rows of its id, and touches nothing else. */
  lemma UpsertedIsUpsert(before: Buckets, bucket: nat, item: Item)
    requires bucket < BUCKET_COUNT
    ensures IsUpsertOf(before, bucket, item, Upserted(before, bucket, item))
  {
    var full, id := Upserted(before, bucket, item), ItemId(item);
    KeepKeepsOrder(before[bucket], HasId(id));
    assert full[bucket][..|full[bucket]| - 1] == Without(before[bucket], id);
    assert GoesBy(item, id);
  }

  /** Whatever a trim keeps of the bucket just written ends with the new row, and what it keeps of any bucket are the
      newest rows of what was there. */
  lemma NewRowIsLast(budget: nat, before: Buckets, bucket: nat, item: Item, after: Buckets)
    requires bucket < BUCKET_COUNT
    ensures Step(budget, before, WriteItem(bucket, item), after) ==>
      && (after[bucket] != [] ==> IsRowOf(item, after[bucket][|after[bucket]| - 1]))
      && exists full: Buckets :: IsUpsertOf(before, bucket, item, full) && IsTrimOf(full, budget, after)
  {
    if Step(budget, before, WriteItem(bucket, item), after) {
      UpsertedIsUpsert(before, bucket, item);
      assert after[bucket] == LastN(Upserted(before, bucket, item)[bucket], |after[bucket]|);
    }
  }

  ghost predicate UniqueIds(rows: seq<Record>) {
    forall i, j :: 0 <= i < j < |rows| ==> rows[i].id != rows[j].id
  }

  /** Ids stay unique through an upsert exactly when the stored id is the resolved one or is still unused. */
  lemma UpsertKeepsIdsUnique(rows: seq<Record>, item: Item)
    requires UniqueIds(rows)
    ensures UniqueIds(Without(rows, ItemId(item)) + [Stored(item)]) <==>
      (Stored(item).id == ItemId(item) || forall x :: x in rows ==> x.id != Stored(item).id)
  {
    var kept, row := Without(rows, ItemId(item)), Stored(item);
    var after := kept + [row];
    if row.id != ItemId(item) && exists x :: x in rows && x.id == row.id {
      var x :| x in rows && x.id == row.id;
      assert x in kept;
      var i :| 0 <= i < |kept| && kept[i] == x;
      assert after[i].id == after[|kept|].id;
    } else {
      forall i, j | 0 <= i < j < |after| ensures after[i].id != after[j].id {
        if j == |kept| {
          assert after[i] in kept;
        }
      }
    }
  }

  /** The same alarm written twice: its own id hides the event id, so the second write does not replace the first. */
  lemma OwnIdCausesDuplicates(body: string)
    ensures var item := Item(Some("event-7"), Some("alarm"), "alarm-digest", "alarm", body);
      var once := Without([], ItemId(item)) + [Stored(item)];
      !UniqueIds(Without(once, ItemId(item)) + [Stored(item)])
  {
    var item := Item(Some("event-7"), Some("alarm"), "alarm-digest", "alarm", body);
    var once := Without([], ItemId(item)) + [Stored(item)];
    assert once == [Stored(item)];
    assert Stored(item) in once && Stored(item).id == "alarm" != ItemId(item);
    UpsertKeepsIdsUnique(once, item);
  }

  // ---- Whole runs ----

  datatype Write =
    | WriteItem(bucket: nat, item: Item)
    | WriteFacts(fact: Record)
    | WriteCommitments(commitment: Option<Record>)
    | ClearAlarm(alarmId: string)
    | ClearObligation(obligationId: string)
    | ClearKind(kind: string)

  /** One write, as the methods above perform it. */
  ghost predicate Step(budget: nat, before: Buckets, write: Write, after: Buckets) {
    match write
    case WriteItem(bucket, item) =>
      bucket in UPSERT_BUCKETS && IsTrimOf(Upserted(before, bucket, item), budget, after)
    case WriteFacts(fact) => after == before[FACTS := [fact]]
    case WriteCommitments(c) => after == before[COMMITMENTS := if c.Some? then [c.value] else []]
    case ClearAlarm(id) => after == before[ALARMS := Without(before[ALARMS], id)]
    case ClearObligation(id) => after == before[OBLIGATIONS := Without(before[OBLIGATIONS], id)]
    case ClearKind(kind) => after == before[OBLIGATIONS := WithoutKind(before[OBLIGATIONS], kind)]
  }

  ghost predicate Run(budget: nat, states: seq<Buckets>, writes: seq<Write>) {
    && |states| == |writes| + 1
    && states[0] == [[], [], [], [], [], []]
    && forall k :: 0 <= k < |writes| ==> Step(budget, states[k], writes[k], states[k + 1])
  }

  function Outside(buckets: Buckets): nat {
    |buckets[ALARMS]| + |buckets[OBLIGATIONS]| + |buckets[FORECASTS]| + |buckets[TRENDS]|
  }

  ghost predicate WithinSlack(budget: nat, b: Buckets) {
    Outside(b) <= budget && |b[FACTS]| <= 1 && |b[COMMITMENTS]| <= 1
  }

  lemma TotalOfBuckets(b: Buckets)
    ensures Total(b) == Outside(b) + |b[FACTS]| + |b[COMMITMENTS]|
  {
    var s := Lengths(b);
    assert s == [s[0], s[1], s[2], s[3], s[4], s[5]];
    SumSix(s[0], s[1], s[2], s[3], s[4], s[5]);
  }

  lemma SumSix(a: nat, b: nat, c: nat, d: nat, e: nat, f: nat)
    ensures Sum([a, b, c, d, e, f]) == a + b + c + d + e + f
  {
    assert [a, b, c, d, e, f] == [a, b, c] + [d, e, f];
    SumSplit([a, b, c], [d, e, f]);
    assert [a, b, c] == [a] + ([b] + [c]);
    assert [d, e, f] == [d] + ([e] + [f]);
    SumSplit([a], [b, c]);
    SumSplit([b], [c]);
    SumSplit([d], [e, f]);
    SumSplit([e], [f]);
  }

  lemma StepKeepsSlack(budget: nat, before: Buckets, write: Write, after: Buckets)
    requires WithinSlack(budget, before) && Step(budget, before, write, after)
    ensures WithinSlack(budget, after)
  {
    if write.WriteItem? {
      var upserted := Upserted(before, write.bucket, write.item);
      TotalOfBuckets(after);
      assert Sum(Lengths(after)) <= budget;
      assert |after[FACTS]| <= |upserted[FACTS]| && |after[COMMITMENTS]| <= |upserted[COMMITMENTS]| by {
        assert after[FACTS] == LastN(upserted[FACTS], |after[FACTS]|);
        assert after[COMMITMENTS] == LastN(upserted[COMMITMENTS], |after[COMMITMENTS]|);
      }
    }
  }

  /** In every reachable state the four trimmed buckets stay within the budget and the whole memory within
      budget + 2: the two untrimmed writes each add at most one record. */
  lemma {:induction false} ReachableWithinBudgetPlusTwo(budget: nat, states: seq<Buckets>, writes: seq<Write>, k: nat)
    requires Run(budget, states, writes) && k <= |writes|
    ensures Outside(states[k]) <= budget && Total(states[k]) <= budget + 2
    ensures WithinSlack(budget, states[k])
  {
    if k > 0 {
      ReachableWithinBudgetPlusTwo(budget, states, writes, k - 1);
      StepKeepsSlack(budget, states[k - 1], writes[k - 1], states[k]);
    }
    TotalOfBuckets(states[k]);
  }

  /** The documented hard cap after one write: any trimmed or removing write keeps it, and an untrimmed write
      keeps it exactly when the other five buckets leave room. */
  lemma CapAfterWrite(budget: nat, before: Buckets, write: Write, after: Buckets)
    requires Step(budget, before, write, after) && Total(before) <= budget
    ensures Total(after) <= budget <==>
      match write
      case WriteFacts(_) => Total(before) - |before[FACTS]| + 1 <= budget
      case WriteCommitments(c) => c.Some? ==> Total(before) - |before[COMMITMENTS]| + 1 <= budget
      case _ => true
  {
    TotalOfBuckets(before);
    TotalOfBuckets(after);
  }

  lemma {:induction false} EachWithinSum(sizes: seq<nat>, i: nat)
    requires i < |sizes|
    ensures sizes[i] <= Sum(sizes)
  {
    if i > 0 {
      EachWithinSum(sizes[1..], i - 1);
    }
  }

  /** A memory within the budget is its own trim. */
  lemma FittingMemoryIsItsTrim(buckets: Buckets, budget: nat)
    requires Total(buckets) <= budget
    ensures IsTrimOf(buckets, budget, buckets)
  {
    var sizes := Lengths(buckets);
    forall i | 0 <= i < |sizes| ensures sizes[i] == Level(sizes, Floors(sizes, budget), Sum(sizes), 0, i) {
      EachWithinSum(sizes, i);
    }
    assert AtLevel(sizes, budget, sizes, Sum(sizes), 0);
  }

  /** The n-th alarm of an episode, under an event id of its own. */
  function Alarm(n: nat): Item {
    Item(Some(seq(n + 1, _ => 'e')), None, "", "alarm", "")
  }

  function Alarms(n: nat): (rows: seq<Record>)
    ensures |rows| == n
    ensures forall x :: x in rows ==> |x.id| <= n
  {
    if n == 0 then [] else Alarms(n - 1) + [Stored(Alarm(n - 1))]
  }

  function OnlyAlarms(rows: seq<Record>): Buckets {
    [rows, [], [], [], [], []]
  }

  function AlarmsOnly(n: nat): Buckets {
    OnlyAlarms(Alarms(n))
  }

  lemma ReplaceAlarms(rows: seq<Record>, others: seq<Record>)
    ensures OnlyAlarms(rows)[ALARMS := others] == OnlyAlarms(others)
  {
  }

  lemma AlarmStep(budget: nat, n: nat)
    requires n < budget
    ensures Step(budget, AlarmsOnly(n), WriteItem(ALARMS, Alarm(n)), AlarmsOnly(n + 1))
  {
    AlarmUpserted(n);
    TotalOfAlarms(n + 1);
    FittingMemoryIsItsTrim(AlarmsOnly(n + 1), budget);
  }

  lemma AlarmUpserted(n: nat)
    ensures Upserted(AlarmsOnly(n), ALARMS, Alarm(n)) == AlarmsOnly(n + 1)
  {
    NewAlarmIsAppended(n);
    ReplaceAlarms(Alarms(n), Without(Alarms(n), ItemId(Alarm(n))) + [Stored(Alarm(n))]);
  }

  lemma TotalWithFactAndCommitment(rows: seq<Record>, fact: Record, commitment: Record)
    ensures Total(OnlyAlarms(rows)[FACTS := [fact]][COMMITMENTS := [commitment]]) == |rows| + 2
  {
    TotalOfBuckets(OnlyAlarms(rows)[FACTS := [fact]][COMMITMENTS := [commitment]]);
  }

  lemma TotalOfAlarms(n: nat)
    ensures Total(AlarmsOnly(n)) == n
  {
    TotalOfBuckets(AlarmsOnly(n));
  }

  lemma NewAlarmIsAppended(n: nat)
    ensures Without(Alarms(n), ItemId(Alarm(n))) + [Stored(Alarm(n))] == Alarms(n + 1)
  {
    assert |ItemId(Alarm(n))| == n + 1;
    assert forall x :: x in Alarms(n) ==> x.id != ItemId(Alarm(n));
  }

  /** A run that fills the budget with distinct alarms, then learns a fact and takes a commitment. */
  lemma FillingRun(budget: nat, fact: Record, commitment: Record) returns (states: seq<Buckets>, writes: seq<Write>)
    ensures Run(budget, states, writes) && |writes| == budget + 2
    ensures states[budget + 2] == AlarmsOnly(budget)[FACTS := [fact]][COMMITMENTS := [commitment]]
  {
    var full := AlarmsOnly(budget);
    var known: Buckets := full[FACTS := [fact]];
    var end: Buckets := known[COMMITMENTS := [commitment]];
    states := seq(budget + 1, n requires n >= 0 => AlarmsOnly(n)) + [known, end];
    writes := seq(budget, n requires n >= 0 => WriteItem(ALARMS, Alarm(n))) + [WriteFacts(fact),
        WriteCommitments(Some(commitment))];
    forall k | 0 <= k < |writes| ensures Step(budget, states[k], writes[k], states[k + 1]) {
      if k < budget {
        AlarmStep(budget, k);
      }
    }
  }

  /** The bound budget + 2 is attained by a reachable memory, for every budget. */
  lemma BudgetPlusTwoIsAttained(budget: nat, fact: Record, commitment: Record)
    ensures exists states: seq<Buckets>, writes: seq<Write>, k: nat ::
      Run(budget, states, writes) && k <= |writes| && Total(states[k]) == budget + 2
  {
    var states, writes := FillingRun(budget, fact, commitment);
    TotalWithFactAndCommitment(Alarms(budget), fact, commitment);
    assert Total(states[budget + 2]) == budget + 2;
  }

  /** The four newest unresolved alarms are never evicted: a write to any bucket but the alarms leaves them in
      place, a new alarm joins them, and only a resolution removes one. */
  lemma NewestAlarmsSurvive(budget: nat, before: Buckets, write: Write, after: Buckets)
    requires budget >= 4 && Step(budget, before, write, after)
    ensures LastN(after[ALARMS], 4) == LastN(
      match write
      case WriteItem(bucket, item) =>
        if bucket == ALARMS then Without(before[ALARMS], ItemId(item)) + [Stored(item)] else before[ALARMS]
      case ClearAlarm(id) => Without(before[ALARMS], id)
      case _ => before[ALARMS], 4)
  {
    if write.WriteItem? {
      var upserted := Upserted(before, write.bucket, write.item);
      TrimProtectsFirstBucket(Lengths(upserted), budget, Lengths(after));
      LastNOfLastN(upserted[ALARMS], |after[ALARMS]|, BUCKET_FLOOR);
    }
  }

  lemma LastNOfLastN<T>(s: seq<T>, n: nat, m: nat)
    requires n >= m || n >= |s|
    ensures LastN(LastN(s, n), m) == LastN(s, m)
  {
  }

  /** Over a whole run, ids stay unique in every bucket as long as no item carries an `id` that differs from its
      resolved one. */
  lemma {:induction false} ReachableIdsUnique(budget: nat, states: seq<Buckets>, writes: seq<Write>, k: nat)
    requires Run(budget, states, writes) && k <= |writes|
    requires forall n :: 0 <= n < |writes| && writes[n].WriteItem? ==>
      Stored(writes[n].item).id == ItemId(writes[n].item)
    ensures forall b :: 0 <= b < BUCKET_COUNT ==> UniqueIds(states[k][b])
  {
    if k > 0 {
      ReachableIdsUnique(budget, states, writes, k - 1);
      var before, write, after := states[k - 1], writes[k - 1], states[k];
      assert Step(budget, before, write, after);
      forall b | 0 <= b < BUCKET_COUNT ensures UniqueIds(after[b]) {
        StepKeepsIdsUnique(budget, before, write, after, b);
      }
    }
  }

  lemma StepKeepsIdsUnique(budget: nat, before: Buckets, write: Write, after: Buckets, b: nat)
    requires Step(budget, before, write, after) && b < BUCKET_COUNT && UniqueIds(before[b])
    requires write.WriteItem? ==> Stored(write.item).id == ItemId(write.item)
    ensures UniqueIds(after[b])
  {
    if write.WriteItem? {
      var upserted := Upserted(before, write.bucket, write.item);
      if b == write.bucket {
        UpsertKeepsIdsUnique(before[b], write.item);
      }
      assert UniqueIds(upserted[b]);
      assert after[b] == LastN(upserted[b], |after[b]|);
    }
  }
}
