/** The carried conversation of baselines/llm_agent.py: `_append_persistent_message` and
    `_compact_persistent_context`, which keep the mission and the latest event inside a message and a
    character budget while the ledger only grows. */
module ContextCompaction {
  import opened Common

  datatype Message = Message(role: string, content: string)

  /** A ledger row; `marker` is the compaction hash carried by mirrored surrogates only. */
  datatype LedgerRow = LedgerRow(message: Message, marker: Option<string>)

  datatype Config = Config(maxMessages: int, maxChars: int)

  /** Digest and JSON text, about which nothing is assumed: `full` and `minimal` encode a compaction record from
      its count, hash (and memory ids), `bare` the record that names its kind only. */
  datatype Encoding = Encoding(
    digest: string -> string,
    full: (nat, string) -> string,
    minimal: (nat, string, seq<string>) -> string,
    bare: string)

  function Chars(messages: seq<Message>): nat {
    if messages == [] then 0 else |messages[0].content| + Chars(messages[1..])
  }

  lemma {:induction false} CharsAppend(a: seq<Message>, b: seq<Message>)
    ensures Chars(a + b) == Chars(a) + Chars(b)
  {
    if a == [] {
      assert a + b == b;
    } else {
      assert (a + b)[1..] == a[1..] + b;
      CharsAppend(a[1..], b);
    }
  }

  /** `"\0".join` of the content digests. */
  function JoinDigests(enc: Encoding, messages: seq<Message>): string {
    if messages == [] then ""
    else if |messages| == 1 then enc.digest(messages[0].content)
    else enc.digest(messages[0].content) + [0 as char] + JoinDigests(enc, messages[1..])
  }

  function CompactedHash(enc: Encoding, messages: seq<Message>): string {
    enc.digest(JoinDigests(enc, messages))
  }

  function MessageCap(config: Config): int {
    Max(4, config.maxMessages)
  }

  function CharCap(config: Config): int {
    Max(500, config.maxChars)
  }

  /** `while memory_ids and len(minimal) > room: memory_ids.pop()`. */
  function FittingIds(enc: Encoding, n: nat, sha: string, ids: seq<string>, room: int): (r: seq<string>)
    ensures r == [] || |enc.minimal(n, sha, r)| <= room
    ensures r <= ids
  {
    if ids != [] && |enc.minimal(n, sha, ids)| > room then FittingIds(enc, n, sha, ids[..|ids| - 1], room) else ids
  }

  /** The smallest surrogates, tried in turn: ids trimmed, hash truncated, kind only. */
  function MinimalSummary(enc: Encoding, n: nat, sha: string, ids: seq<string>, room: int): (r: Option<string>)
    ensures r.Some? ==> |r.value| <= room
    ensures r.None? ==> |enc.bare| > room
  {
    var fitted := FittingIds(enc, n, sha, ids, room);
    var whole := enc.minimal(n, sha, fitted);
    var truncated := enc.minimal(n, if |sha| <= 16 then sha else sha[..16], fitted);
    if |whole| <= room then Some(whole)
    else if |truncated| <= room then Some(truncated)
    else if |enc.bare| <= room then Some(enc.bare)
    else None
  }

  datatype Outcome =
    | Unchanged
    | Raised
    | Compacted(messages: seq<Message>, compacted: seq<Message>, tail: seq<Message>, surrogate: Option<Message>,
                count: nat, sha: string, mirrored: Message)

  function TailCount(cap: int, over: bool, length: nat): int {
    var wanted := if over then Min(cap - 2, 2) else cap - 2;
    if length > 2 then Min(wanted, length - 2) else 1
  }

  function Compact(enc: Encoding, cap: int, maxChars: int, ids: seq<string>, messages: seq<Message>): Outcome
    requires cap >= 4 && messages != []
  {
    var n, chars := |messages|, Chars(messages);
    if n <= cap && chars <= maxChars then Unchanged
    else
      var tailCount := TailCount(cap, chars > maxChars, n);
      if n - tailCount <= 1 then
        if chars > maxChars then Raised else Unchanged
      else Squeezed(enc, maxChars, ids, messages, Widest(enc, maxChars, messages, n - tailCount))
  }

  /** The full record with the wanted tail, or with the latest message alone when that is too long. */
  function Widest(enc: Encoding, maxChars: int, messages: seq<Message>, cut: nat): (o: Outcome)
    requires 1 < cut < |messages|
    ensures o.Compacted?
  {
    var first := Candidate(enc, messages, cut);
    if Chars(first.messages) > maxChars && cut < |messages| - 1 then Candidate(enc, messages, |messages| - 1) else first
  }

  /** The last two fallbacks: a minimal surrogate, or none at all. */
  function Squeezed(enc: Encoding, maxChars: int, ids: seq<string>, messages: seq<Message>, candidate: Outcome): Outcome
    requires messages != [] && candidate.Compacted?
  {
    if Chars(candidate.messages) <= maxChars then candidate
    else
      var ends := [messages[0], messages[|messages| - 1]];
      var minimal := MinimalSummary(enc, candidate.count, candidate.sha, ids, maxChars - Chars(ends));
      if minimal.Some? then
        var summary := Message("user", minimal.value);
        candidate.(messages := [messages[0], summary, messages[|messages| - 1]], surrogate := Some(summary),
                   mirrored := summary)
      else if Chars(ends) > maxChars then Raised
      else candidate.(messages := ends, surrogate := None)
  }

  /** `[system, summary, *tail]` when everything between the system message and position `cut` is summarised. */
  function Candidate(enc: Encoding, messages: seq<Message>, cut: nat): (o: Outcome)
    requires 1 < cut < |messages|
    ensures o.Compacted?
  {
    var compacted := messages[1..cut];
    var sha := CompactedHash(enc, compacted);
    var summary := Message("user", enc.full(|compacted|, sha));
    Compacted([messages[0], summary] + messages[cut..], compacted, messages[cut..], Some(summary),
              |compacted|, sha, summary)
  }

  // ---- What a compaction preserves ----

  ghost predicate SplitsAs(before: seq<Message>, o: Outcome)
    requires before != [] && o.Compacted?
  {
    && before == [before[0]] + o.compacted + o.tail
    && o.compacted != [] && o.tail != []
    && o.messages == [before[0]] + (if o.surrogate.Some? then [o.surrogate.value] else []) + o.tail
  }

  ghost predicate Describes(enc: Encoding, before: seq<Message>, o: Outcome)
    requires before != [] && o.Compacted?
  {
    && SplitsAs(before, o)
    && o.count == |o.compacted| && o.sha == CompactedHash(enc, o.compacted)
    && o.tail[|o.tail| - 1] == before[|before| - 1]
    && (o.surrogate.Some? ==> o.mirrored == o.surrogate.value)
  }

  lemma {:induction false} CandidateDescribes(enc: Encoding, messages: seq<Message>, cut: nat)
    requires 1 < cut < |messages|
    ensures var o := Candidate(enc, messages, cut);
      && Describes(enc, messages, o) && |o.tail| == |messages| - cut
      && Chars(o.messages) >= |messages[0].content| + |messages[|messages| - 1].content|
  {
    var o := Candidate(enc, messages, cut);
    EndsAreCounted([messages[0], o.surrogate.value], messages[cut..]);
  }

  lemma EndsAreCounted(front: seq<Message>, tail: seq<Message>)
    requires front != [] && tail != []
    ensures Chars(front + tail) >= |front[0].content| + |tail[|tail| - 1].content|
  {
    CharsAppend(front, tail);
    CharsAppend(tail[..|tail| - 1], [tail[|tail| - 1]]);
    assert tail == tail[..|tail| - 1] + [tail[|tail| - 1]];
  }

  lemma WidestDescribes(enc: Encoding, maxChars: int, messages: seq<Message>, cut: nat)
    requires 1 < cut < |messages|
    ensures var o := Widest(enc, maxChars, messages, cut);
      && Describes(enc, messages, o) && 1 <= |o.tail| <= |messages| - cut
      && (Chars(o.messages) > maxChars ==> |o.tail| == 1)
      && Chars(o.messages) >= |messages[0].content| + |messages[|messages| - 1].content|
  {
    CandidateDescribes(enc, messages, cut);
    CandidateDescribes(enc, messages, |messages| - 1);
  }

  lemma CharsOfThree(a: Message, b: Message, c: Message)
    ensures Chars([a, b, c]) == |a.content| + |b.content| + |c.content|
    ensures Chars([a, c]) == |a.content| + |c.content|
  {
    assert [a, b, c] == [a] + ([b] + [c]) && [a, c] == [a] + [c];
    CharsAppend([a], [b] + [c]);
    CharsAppend([b], [c]);
    CharsAppend([a], [c]);
  }

  lemma CharsOfEnds(messages: seq<Message>)
    requires |messages| >= 2
    ensures |messages[0].content| + |messages[|messages| - 1].content| <= Chars(messages)
  {
    var n := |messages|;
    assert messages == [messages[0]] + messages[1..n - 1] + [messages[n - 1]];
    CharsAppend([messages[0]] + messages[1..n - 1], [messages[n - 1]]);
    CharsAppend([messages[0]], messages[1..n - 1]);
  }

  lemma SqueezedDescribes(enc: Encoding, maxChars: int, ids: seq<string>, messages: seq<Message>, candidate: Outcome)
    requires |messages| >= 2 && candidate.Compacted? && Describes(enc, messages, candidate)
    requires Chars(candidate.messages) > maxChars ==> |candidate.tail| == 1
    requires Chars(candidate.messages) >= |messages[0].content| + |messages[|messages| - 1].content|
    ensures var o := Squeezed(enc, maxChars, ids, messages, candidate);
      && (o.Raised? <==> |messages[0].content| + |messages[|messages| - 1].content| > maxChars)
      && !o.Unchanged?
      && (o.Compacted? ==>
          Describes(enc, messages, o) && Chars(o.messages) <= maxChars && |o.messages| <= 2 + |candidate.tail|)
  {
    var head, latest := messages[0], messages[|messages| - 1];
    var o := Squeezed(enc, maxChars, ids, messages, candidate);
    CharsOfThree(head, if o.Compacted? && o.surrogate.Some? then o.surrogate.value else head, latest);
    if Chars(candidate.messages) > maxChars && o.Compacted? {
      assert o.tail == [latest];
      assert o.messages == [head] + (if o.surrogate.Some? then [o.surrogate.value] else []) + o.tail;
    }
  }

  /** A compaction that happens squeezes the widest candidate. */
  lemma {:induction false} CompactedMeansSqueezed(enc: Encoding, cap: int, maxChars: int, ids: seq<string>,
                                                  messages: seq<Message>)
    requires cap >= 4 && |messages| >= 2 && Compact(enc, cap, maxChars, ids, messages).Compacted?
    ensures var cut := |messages| - TailCount(cap, Chars(messages) > maxChars, |messages|);
      && 1 < cut < |messages| && |messages| - cut <= cap - 2
      && Compact(enc, cap, maxChars, ids, messages) ==
         Squeezed(enc, maxChars, ids, messages, Widest(enc, maxChars, messages, cut))
  {
    var tail := TailCount(cap, Chars(messages) > maxChars, |messages|);
    TailFits(cap, Chars(messages) > maxChars, |messages|);
    CompactedMeansOver(enc, cap, maxChars, ids, messages);
    OverIsSqueezed(enc, cap, maxChars, ids, messages, tail);
  }

  lemma {:induction false} CompactedMeansOver(enc: Encoding, cap: int, maxChars: int, ids: seq<string>,
                                              messages: seq<Message>)
    requires cap >= 4 && |messages| >= 2 && Compact(enc, cap, maxChars, ids, messages).Compacted?
    ensures |messages| > cap || Chars(messages) > maxChars
    ensures |messages| - TailCount(cap, Chars(messages) > maxChars, |messages|) > 1
  {
  }

  lemma {:induction false} OverIsSqueezed(enc: Encoding, cap: int, maxChars: int, ids: seq<string>,
                                          messages: seq<Message>, tail: int)
    requires cap >= 4 && messages != [] && (|messages| > cap || Chars(messages) > maxChars)
    requires tail == TailCount(cap, Chars(messages) > maxChars, |messages|) && 1 <= tail < |messages| - 1
    ensures Compact(enc, cap, maxChars, ids, messages) ==
            Squeezed(enc, maxChars, ids, messages, Widest(enc, maxChars, messages, |messages| - tail))
  {
  }

  lemma TailFits(cap: int, over: bool, length: nat)
    requires cap >= 4 && length >= 2
    ensures var tail := TailCount(cap, over, length);
      1 <= tail < length && tail <= cap - 2 && (length > 2 ==> tail <= length - 2)
  {
  }

  /** In every fallback branch the old session is system, compacted, tail; the new one is system, at most one
      surrogate, tail; the count and hash describe exactly the compacted part; both budgets hold. */
  lemma CompactionIsFaithful(enc: Encoding, cap: int, maxChars: int, ids: seq<string>, messages: seq<Message>)
    requires cap >= 4 && |messages| >= 2 && Compact(enc, cap, maxChars, ids, messages).Compacted?
    ensures var o := Compact(enc, cap, maxChars, ids, messages);
      Describes(enc, messages, o) && |o.messages| <= cap && Chars(o.messages) <= maxChars
  {
    var cut := |messages| - TailCount(cap, Chars(messages) > maxChars, |messages|);
    CompactedMeansSqueezed(enc, cap, maxChars, ids, messages);
    var widest := Widest(enc, maxChars, messages, cut);
    WidestDescribes(enc, maxChars, messages, cut);
    SqueezedDescribes(enc, maxChars, ids, messages, widest);
    assert |Squeezed(enc, maxChars, ids, messages, widest).messages| <= 2 + |widest.tail| <= cap;
  }

  lemma LongSessionsAreSqueezed(enc: Encoding, cap: int, maxChars: int, ids: seq<string>, messages: seq<Message>)
    requires cap >= 4 && |messages| >= 3
    ensures var o := Compact(enc, cap, maxChars, ids, messages);
      if |messages| <= cap && Chars(messages) <= maxChars then o.Unchanged?
      else !o.Unchanged? && (o.Raised? <==> |messages[0].content| + |messages[|messages| - 1].content| > maxChars)
  {
    if |messages| > cap || Chars(messages) > maxChars {
      var cut := |messages| - TailCount(cap, Chars(messages) > maxChars, |messages|);
      var widest := Widest(enc, maxChars, messages, cut);
      WidestDescribes(enc, maxChars, messages, cut);
      SqueezedDescribes(enc, maxChars, ids, messages, widest);
      assert Compact(enc, cap, maxChars, ids, messages) == Squeezed(enc, maxChars, ids, messages, widest);
    }
  }

  /** Compaction fails exactly when the system message and the latest message do not fit together, and does
      nothing exactly when both budgets already hold. */
  lemma CompactionFailsExactlyWhenEndsDoNotFit(enc: Encoding, cap: int, maxChars: int, ids: seq<string>,
                                               messages: seq<Message>)
    requires cap >= 4 && |messages| >= 2
    ensures var o := Compact(enc, cap, maxChars, ids, messages);
      && (o.Raised? <==> |messages[0].content| + |messages[|messages| - 1].content| > maxChars)
      && (o.Unchanged? <==> |messages| <= cap && Chars(messages) <= maxChars)
  {
    CharsOfEnds(messages);
    if |messages| == 2 {
      assert messages == [messages[0], messages[1]];
      CharsOfThree(messages[0], messages[0], messages[1]);
    } else {
      LongSessionsAreSqueezed(enc, cap, maxChars, ids, messages);
    }
  }

  // ---- What a compaction keeps, as the first of a list of forms that fits ----

  /** How much a form keeps: the number of newest messages, and the text that stands for the ones between the mission
      and them, if any does. */
  datatype Form = Form(tail: nat, summary: Option<string>)

  function Carries(messages: seq<Message>, f: Form): seq<Message>
    requires 1 <= f.tail < |messages|
  {
    [messages[0]] + (if f.summary.Some? then [Message("user", f.summary.value)] else [])
    + messages[|messages| - f.tail..]
  }

  /** The full record of everything but the mission and the newest messages. */
  function FullForm(enc: Encoding, messages: seq<Message>, tail: nat): Form
    requires 1 <= tail <= |messages| - 2
  {
    var gone := messages[1..|messages| - tail];
    Form(tail, Some(enc.full(|gone|, CompactedHash(enc, gone))))
  }

  /** Minimal records with ever fewer memory ids. */
  function IdTexts(enc: Encoding, n: nat, sha: string, ids: seq<string>): seq<string> {
    [enc.minimal(n, sha, ids)] + if ids == [] then [] else IdTexts(enc, n, sha, ids[..|ids| - 1])
  }

  /** The minimal records in the order in which they are tried: all ids, then fewer; no id and a short hash; the bare
      kind. */
  function SmallTexts(enc: Encoding, n: nat, sha: string, ids: seq<string>): seq<string> {
    IdTexts(enc, n, sha, ids) + [enc.minimal(n, Upto(sha, 16), []), enc.bare]
  }

  function OfTexts(texts: seq<string>): seq<Form> {
    seq(|texts|, i requires 0 <= i < |texts| => Form(1, Some(texts[i])))
  }

  /** How many newest messages are wanted: two if the text is too long, else as many as the cap leaves beside mission
      and record; but one message is always taken away. */
  function WantedTail(cap: int, maxChars: int, messages: seq<Message>): nat
    requires cap >= 4 && |messages| >= 3
  {
    Min(if Chars(messages) > maxChars then 2 else cap - 2, |messages| - 2)
  }

  function Forms(enc: Encoding, cap: int, maxChars: int, ids: seq<string>, messages: seq<Message>): seq<Form>
    requires cap >= 4 && |messages| >= 3
  {
    var wanted, gone := WantedTail(cap, maxChars, messages), messages[1..|messages| - 1];
    [FullForm(enc, messages, wanted)] + (if wanted > 1 then [FullForm(enc, messages, 1)] else [])
    + OfTexts(SmallTexts(enc, |gone|, CompactedHash(enc, gone), ids)) + [Form(1, None)]
  }

  /** The outcome has this form; what the ledger mirrors is the record carried, or the full one if none is. */
  predicate Keeps(enc: Encoding, messages: seq<Message>, f: Form, o: Outcome)
    requires 1 <= f.tail < |messages| && |messages| >= 3 && o.Compacted?
  {
    && o.messages == Carries(messages, f) && |o.tail| == f.tail && o.surrogate.Some? == f.summary.Some?
    && var text := if f.summary.Some? then f.summary.value else FullForm(enc, messages, 1).summary.value;
      o.mirrored == Message("user", text)
  }

  function FirstThatFits(messages: seq<Message>, maxChars: int, forms: seq<Form>): (r: Option<Form>)
    requires forall f :: f in forms ==> 1 <= f.tail < |messages|
    ensures r.Some? ==> r.value in forms && Chars(Carries(messages, r.value)) <= maxChars
  {
    if forms == [] then None
    else if Chars(Carries(messages, forms[0])) <= maxChars then Some(forms[0])
    else FirstThatFits(messages, maxChars, forms[1..])
  }

  lemma {:induction false} FirstOfBoth(messages: seq<Message>, maxChars: int, a: seq<Form>, b: seq<Form>)
    requires forall f :: f in a + b ==> 1 <= f.tail < |messages|
    ensures (forall f :: f in a ==> f in a + b) && forall f :: f in b ==> f in a + b
    ensures FirstThatFits(messages, maxChars, a + b) ==
      if FirstThatFits(messages, maxChars, a).Some? then FirstThatFits(messages, maxChars, a)
      else FirstThatFits(messages, maxChars, b)
  {
    if a == [] {
      assert a + b == b;
    } else {
      assert (a + b)[1..] == a[1..] + b;
      FirstOfBoth(messages, maxChars, a[1..], b);
    }
  }

  function FirstWithin(texts: seq<string>, room: int): Option<string> {
    if texts == [] then None else if |texts[0]| <= room then Some(texts[0]) else FirstWithin(texts[1..], room)
  }

  lemma {:induction false} FirstWithinBoth(a: seq<string>, b: seq<string>, room: int)
    ensures FirstWithin(a + b, room) ==
      if FirstWithin(a, room).Some? then FirstWithin(a, room) else FirstWithin(b, room)
  {
    if a == [] {
      assert a + b == b;
    } else {
      assert (a + b)[1..] == a[1..] + b;
      FirstWithinBoth(a[1..], b, room);
    }
  }

  lemma {:induction false} FittingIsFirst(enc: Encoding, n: nat, sha: string, ids: seq<string>, room: int)
    ensures var fitted := FittingIds(enc, n, sha, ids, room);
      FirstWithin(IdTexts(enc, n, sha, ids), room) ==
      if |enc.minimal(n, sha, fitted)| <= room then Some(enc.minimal(n, sha, fitted)) else None
    ensures var fitted := FittingIds(enc, n, sha, ids, room);
      |enc.minimal(n, sha, fitted)| > room ==> fitted == []
  {
    var texts := IdTexts(enc, n, sha, ids);
    if ids != [] {
      FittingIsFirst(enc, n, sha, ids[..|ids| - 1], room);
      assert texts[1..] == IdTexts(enc, n, sha, ids[..|ids| - 1]);
    } else {
      assert texts[1..] == [];
    }
  }

  lemma MinimalIsFirst(enc: Encoding, n: nat, sha: string, ids: seq<string>, room: int)
    ensures MinimalSummary(enc, n, sha, ids, room) == FirstWithin(SmallTexts(enc, n, sha, ids), room)
  {
    var last := [enc.minimal(n, Upto(sha, 16), []), enc.bare];
    FittingIsFirst(enc, n, sha, ids, room);
    assert Upto(sha, 16) == if |sha| <= 16 then sha else sha[..16];
    FirstWithinBoth(IdTexts(enc, n, sha, ids), last, room);
    assert SmallTexts(enc, n, sha, ids) == IdTexts(enc, n, sha, ids) + last;
    assert last[1..] == [enc.bare] && [enc.bare][1..] == [];
    assert FirstWithin([enc.bare], room) == if |enc.bare| <= room then Some(enc.bare) else None;
  }

  lemma {:induction false} TextsFit(messages: seq<Message>, maxChars: int, texts: seq<string>)
    requires |messages| >= 2
    ensures var room := maxChars - Chars([messages[0], messages[|messages| - 1]]);
      FirstThatFits(messages, maxChars, OfTexts(texts)) ==
      match FirstWithin(texts, room) case Some(text) => Some(Form(1, Some(text))) case None => None
  {
    if texts != [] {
      var f := Form(1, Some(texts[0]));
      var last := messages[|messages| - 1];
      assert OfTexts(texts)[1..] == OfTexts(texts[1..]) && OfTexts(texts)[0] == f;
      assert Carries(messages, f) == [messages[0], Message("user", texts[0]), last];
      CharsOfThree(messages[0], Message("user", texts[0]), last);
      TextsFit(messages, maxChars, texts[1..]);
    }
  }

  lemma CandidateIsFullForm(enc: Encoding, messages: seq<Message>, cut: nat)
    requires 1 < cut < |messages|
    ensures var o, f := Candidate(enc, messages, cut), FullForm(enc, messages, |messages| - cut);
      o.messages == Carries(messages, f) && |o.tail| == f.tail
  {
  }

  /** A compaction keeps the mission, the newest messages and at most one record for the rest, in the first of these
      forms whose text is within the budget; it raises if none is. */
  lemma {:induction false} CompactionTakesFirstThatFits(enc: Encoding, cap: int, maxChars: int, ids: seq<string>,
                                                        messages: seq<Message>)
    requires cap >= 4 && |messages| >= 3 && (|messages| > cap || Chars(messages) > maxChars)
    ensures var o := Compact(enc, cap, maxChars, ids, messages);
      match FirstThatFits(messages, maxChars, Forms(enc, cap, maxChars, ids, messages))
      case Some(f) => o.Compacted? && Keeps(enc, messages, f, o)
      case None => o.Raised?
  {
    var wanted := WantedTail(cap, maxChars, messages);
    OverIsSqueezed(enc, cap, maxChars, ids, messages, wanted);
    SqueezedTakesFirst(enc, cap, maxChars, ids, messages);
  }

  lemma {:induction false} SqueezedTakesFirst(enc: Encoding, cap: int, maxChars: int, ids: seq<string>,
                                              messages: seq<Message>)
    requires cap >= 4 && |messages| >= 3
    ensures var cut := |messages| - WantedTail(cap, maxChars, messages);
      var o := Squeezed(enc, maxChars, ids, messages, Widest(enc, maxChars, messages, cut));
      match FirstThatFits(messages, maxChars, Forms(enc, cap, maxChars, ids, messages))
      case Some(f) => o.Compacted? && Keeps(enc, messages, f, o)
      case None => o.Raised?
  {
    var n, wanted := |messages|, WantedTail(cap, maxChars, messages);
    var full := [FullForm(enc, messages, wanted)] + if wanted > 1 then [FullForm(enc, messages, 1)] else [];
    var gone := messages[1..n - 1];
    var small := OfTexts(SmallTexts(enc, |gone|, CompactedHash(enc, gone), ids)) + [Form(1, None)];
    assert Forms(enc, cap, maxChars, ids, messages) == full + small;
    FullFormsComeFirst(enc, maxChars, messages, wanted, full);
    SmallFormsComeNext(enc, maxChars, ids, messages, Widest(enc, maxChars, messages, n - wanted));
    FirstOfBoth(messages, maxChars, full, small);
  }

  lemma {:induction false} FullFormsComeFirst(enc: Encoding, maxChars: int, messages: seq<Message>, wanted: nat,
                                              full: seq<Form>)
    requires 1 <= wanted <= |messages| - 2
    requires full == [FullForm(enc, messages, wanted)] + if wanted > 1 then [FullForm(enc, messages, 1)] else []
    ensures var o := Widest(enc, maxChars, messages, |messages| - wanted);
      match FirstThatFits(messages, maxChars, full)
      case Some(f) => Keeps(enc, messages, f, o) && Chars(o.messages) <= maxChars
      case None => Chars(o.messages) > maxChars && o == Candidate(enc, messages, |messages| - 1)
  {
    var n := |messages|;
    CandidateIsFullForm(enc, messages, n - wanted);
    CandidateIsFullForm(enc, messages, n - 1);
    if wanted > 1 {
      assert full[1..] == [FullForm(enc, messages, 1)] && full[1..][1..] == [];
    } else {
      assert full[1..] == [] && full[0] == FullForm(enc, messages, 1);
    }
  }

  lemma {:induction false} SmallFormsComeNext(enc: Encoding, maxChars: int, ids: seq<string>, messages: seq<Message>,
                                              o: Outcome)
    requires |messages| >= 3 && o.Compacted?
    ensures Chars(o.messages) <= maxChars ==> Squeezed(enc, maxChars, ids, messages, o) == o
    ensures Chars(o.messages) > maxChars && o == Candidate(enc, messages, |messages| - 1) ==>
      var gone, end := messages[1..|messages| - 1], Squeezed(enc, maxChars, ids, messages, o);
      var small := OfTexts(SmallTexts(enc, |gone|, CompactedHash(enc, gone), ids)) + [Form(1, None)];
      match FirstThatFits(messages, maxChars, small)
      case Some(f) => end.Compacted? && Keeps(enc, messages, f, end)
      case None => end.Raised?
  {
    var gone := messages[1..|messages| - 1];
    var texts := SmallTexts(enc, |gone|, CompactedHash(enc, gone), ids);
    TextsFit(messages, maxChars, texts);
    FirstOfBoth(messages, maxChars, OfTexts(texts), [Form(1, None)]);
    assert Carries(messages, Form(1, None)) == [messages[0], messages[|messages| - 1]];
    assert [Form(1, None)][1..] == [];
    if Chars(o.messages) > maxChars && o == Candidate(enc, messages, |messages| - 1) {
      SqueezedIsFirstText(enc, maxChars, ids, messages);
    }
  }

  lemma {:induction false} SqueezedIsFirstText(enc: Encoding, maxChars: int, ids: seq<string>, messages: seq<Message>)
    requires |messages| >= 3 && Chars(Candidate(enc, messages, |messages| - 1).messages) > maxChars
    ensures var o := Candidate(enc, messages, |messages| - 1);
      var end, gone := Squeezed(enc, maxChars, ids, messages, o), messages[1..|messages| - 1];
      var ends := [messages[0], messages[|messages| - 1]];
      var texts := SmallTexts(enc, |gone|, CompactedHash(enc, gone), ids);
      match FirstWithin(texts, maxChars - Chars(ends))
      case Some(text) => end.Compacted? && Keeps(enc, messages, Form(1, Some(text)), end)
      case None => if Chars(ends) > maxChars then end.Raised?
                   else end.Compacted? && Keeps(enc, messages, Form(1, None), end)
  {
    var gone := messages[1..|messages| - 1];
    var ends := [messages[0], messages[|messages| - 1]];
    MinimalIsFirst(enc, |gone|, CompactedHash(enc, gone), ids, maxChars - Chars(ends));
    assert messages[|messages| - 1..] == [messages[|messages| - 1]];
  }

  // ---- The session over a whole run ----

  /** `rows` is a history variable: the rows of the messages the record stands for. */
  datatype CompactionRecord = CompactionRecord(count: nat, sha: string, rows: seq<nat>)

  /** The ledger is kept as the rows ever put on it, which only grow, and the `places` of those now on it; `rows` says
      which row each carried message is. A row keeps its number when it is rolled back. */
  datatype Session = Session(messages: seq<Message>, rows: seq<nat>, archive: seq<LedgerRow>, places: seq<nat>,
                             records: seq<CompactionRecord>)

  const EMPTY_SESSION := Session([], [], [], [], [])

  /** `_session_ledger`. */
  function LedgerOf(s: Session): (ledger: seq<LedgerRow>)
    ensures |ledger| == |s.places|
    ensures forall i :: 0 <= i < |s.places| && s.places[i] < |s.archive| ==> ledger[i] == s.archive[s.places[i]]
  {
    seq(|s.places|, i requires 0 <= i < |s.places| =>
      if s.places[i] < |s.archive| then s.archive[s.places[i]] else Row(Message("", "")))
  }

  /** One more row on the ledger. */
  function Logged(s: Session, row: LedgerRow): Session {
    s.(archive := s.archive + [row], places := s.places + [|s.archive|])
  }

  function Row(message: Message): LedgerRow {
    LedgerRow(message, None)
  }

  function Upto<T>(s: seq<T>, n: nat): seq<T> {
    if n <= |s| then s[..n] else s
  }

  function From<T>(s: seq<T>, n: nat): seq<T> {
    seq(if n <= |s| then |s| - n else 0, i requires 0 <= i < |s| - n => s[n + i])
  }

  /** `_ensure_persistent_session`. */
  function Opened(s: Session, prompt: string): Session {
    if s.messages != [] then s
    else
      var system := Message("system", prompt);
      Logged(s, Row(system)).(messages := [system], rows := [|s.archive|])
  }

  function Settle(s: Session, o: Outcome): Session {
    match o
    case Compacted(messages, compacted, _, surrogate, count, sha, mirrored) =>
      Logged(s, LedgerRow(mirrored, Some(sha))).(
        messages := messages,
        rows := Upto(s.rows, 1) + (if surrogate.Some? then [|s.archive|] else []) + From(s.rows, 1 + |compacted|),
        records := s.records + [CompactionRecord(count, sha, From(Upto(s.rows, 1 + |compacted|), 1))])
    case _ => s
  }

  /** `_append_persistent_message`. `restart` is the matched-transcript arm's reset of the carried turns. */
  function Pushed(s: Session, prompt: string, message: Message, restart: bool): Session {
    var base := Opened(s, prompt);
    var kept := if restart then 1 else |base.messages|;
    Logged(base, Row(message)).(messages := Upto(base.messages, kept) + [message],
                                rows := Upto(base.rows, kept) + [|base.archive|])
  }

  /** The session, once compacted to `maxChars`. */
  function Squashed(enc: Encoding, config: Config, maxChars: int, ids: seq<string>, s: Session): (Session, Outcome) {
    var o := if s.messages == [] then Unchanged else Compact(enc, MessageCap(config), maxChars, ids, s.messages);
    (Settle(s, o), o)
  }

  function Appended(enc: Encoding, config: Config, prompt: string, ids: seq<string>, s: Session, message: Message,
                    restart: bool): (Session, Outcome)
  {
    Squashed(enc, config, CharCap(config), ids, Pushed(s, prompt, message, restart))
  }

  /** The latest message with its text replaced, as the provider-cap projection does; the ledger is not touched. */
  function Refitted(s: Session, text: Option<string>): Session {
    if |s.messages| < 2 || text.None? then s
    else
      var last := |s.messages| - 1;
      s.(messages := s.messages[..last] + [s.messages[last].(content := text.value)])
  }

  /** One round of `_provider_cap_aware_projection`: refit the latest event, then compact to a smaller cap. */
  function Projected(enc: Encoding, config: Config, text: Option<string>, maxChars: int, ids: seq<string>, s: Session)
    : (Session, Outcome)
  {
    Squashed(enc, config, Max(500, maxChars), ids, Refitted(s, text))
  }

  /** The matched-transcript arm drops everything between the mission and the latest event. */
  function EndsOnly(s: Session): Session {
    if |s.messages| < 2 then s
    else s.(messages := [s.messages[0], s.messages[|s.messages| - 1]],
            rows := Upto(s.rows, 1) + From(s.rows, |s.messages| - 1))
  }

  /** What happens to a session: an event arrives, a response goes to the ledger alone, before a request the latest
      event may be refitted to the provider's cap (`text` is None when it is not a typed event) or the history dropped,
      and the turn that began after the first `to` events may be rolled back: a superseded realtime turn, whose
      compaction records stay, or a draft round, whose records go too. */
  datatype Event =
    | Arrives(message: Message, restart: bool, ids: seq<string>)
    | Answers(response: Message)
    | Projects(text: Option<string>, maxChars: int, ids: seq<string>)
    | DropsHistory
    | RollsBack(to: nat, draft: bool)

  function Apply(enc: Encoding, config: Config, prompt: string, s: Session, e: Event): Session {
    match e
    case Arrives(message, restart, ids) => Appended(enc, config, prompt, ids, s, message, restart).0
    case Answers(response) => Logged(Opened(s, prompt), Row(response))
    case Projects(text, maxChars, ids) => Projected(enc, config, text, maxChars, ids, s).0
    case DropsHistory => EndsOnly(s)
    case RollsBack(_, _) => s
  }

  /** `s` put back to the snapshot `base`. */
  function Restored(base: Session, s: Session, draft: bool): Session {
    base.(archive := s.archive, records := if draft then base.records else s.records)
  }

  /** The snapshot taken after `to` events still exists: nothing since went back to an earlier one. */
  predicate Standing(events: seq<Event>, to: nat) {
    to <= |events| && forall m :: to <= m < |events| && events[m].RollsBack? ==> events[m].to >= to
  }

  /** Whether a projection gives the latest message of `s` a text other than the one on the ledger. */
  ghost predicate Alters(s: Session, e: Event) {
    && e.Projects? && e.text.Some? && |s.messages| >= 2 && |s.rows| == |s.messages|
    && s.rows[|s.rows| - 1] < |s.archive| && s.archive[s.rows[|s.rows| - 1]].message.content != e.text.value
  }

  ghost predicate Restores(s: Session, e: Event) {
    && e.Projects? && e.text.Some? && |s.messages| >= 2 && |s.rows| == |s.messages|
    && s.rows[|s.rows| - 1] < |s.archive| && s.archive[s.rows[|s.rows| - 1]].message.content == e.text.value
  }

  ghost function AlteredBy(altered: set<nat>, s: Session, e: Event): set<nat> {
    if Alters(s, e) then altered + {s.rows[|s.rows| - 1]}
    else if Restores(s, e) then altered - {s.rows[|s.rows| - 1]}
    else altered
  }

  /** A new record keeps the rows altered when it was made. */
  function PastBy(past: seq<set<nat>>, s: Session, t: Session, altered: set<nat>): seq<set<nat>> {
    if |t.records| > |s.records| then past + [altered] else past
  }

  /** A session and what its run tells about it: the rows whose carried text a projection has altered, the same at the
      time each compaction record was made, and the rows that rollbacks took off the ledger. */
  datatype History = History(s: Session, altered: set<nat>, past: seq<set<nat>>, dropped: set<nat>)

  ghost function Next(enc: Encoding, config: Config, prompt: string, h: History, e: Event): History {
    var t, altered := Apply(enc, config, prompt, h.s, e), AlteredBy(h.altered, h.s, e);
    History(t, altered, PastBy(h.past, h.s, t, altered), h.dropped)
  }

  function Taken(s: Session, t: Session): set<nat> {
    set p | p in s.places && p !in t.places
  }

  function RolledBack(base: History, h: History, draft: bool): History {
    History(Restored(base.s, h.s, draft), base.altered, if draft then base.past else h.past,
            h.dropped + Taken(h.s, base.s))
  }

  ghost function Trace(enc: Encoding, config: Config, prompt: string, events: seq<Event>): History
    decreases |events|
  {
    if events == [] then History(EMPTY_SESSION, {}, [], {})
    else
      var before, e := events[..|events| - 1], events[|events| - 1];
      var h := Trace(enc, config, prompt, before);
      if !e.RollsBack? then Next(enc, config, prompt, h, e)
      else if Standing(before, e.to) then RolledBack(Trace(enc, config, prompt, before[..e.to]), h, e.draft)
      else h
  }

  ghost function After(enc: Encoding, config: Config, prompt: string, events: seq<Event>): Session {
    Trace(enc, config, prompt, events).s
  }

  // ---- What each event does to what is carried and to the ledger ----

  /** `t` carries `expected`, compacted to the caps if it is over one of them; and if it has to be and cannot, carries
      it as it is. Its ledger is `logged`, and then the record mirrored, if there is a new one. */
  ghost predicate CarriesOn(enc: Encoding, config: Config, maxChars: int, ids: seq<string>, expected: seq<Message>,
                          logged: seq<LedgerRow>, t: Session)
  {
    var cap := if config.maxMessages > 4 then config.maxMessages else 4;
    expected != [] &&
    match Compact(enc, cap, maxChars, ids, expected)
    case Compacted(messages, _, _, _, _, sha, mirrored) =>
      t.messages == messages && LedgerOf(t) == logged + [LedgerRow(mirrored, Some(sha))]
    case _ => t.messages == expected && LedgerOf(t) == logged
  }

  /** The ledger is well kept: the places on it are rows there are. */
  ghost predicate InArchive(s: Session) {
    forall p :: p in s.places ==> p < |s.archive|
  }

  lemma LoggedAppends(s: Session, row: LedgerRow)
    requires InArchive(s)
    ensures InArchive(Logged(s, row)) && LedgerOf(Logged(s, row)) == LedgerOf(s) + [row]
  {
    var t := Logged(s, row);
    forall i | 0 <= i < |t.places| ensures LedgerOf(t)[i] == (LedgerOf(s) + [row])[i] {
      assert i < |s.places| ==> s.places[i] in s.places;
    }
  }

  lemma SquashedCarriesOn(enc: Encoding, config: Config, maxChars: int, ids: seq<string>, s: Session)
    requires InArchive(s) && s.messages != []
    ensures CarriesOn(enc, config, maxChars, ids, s.messages, LedgerOf(s), Squashed(enc, config, maxChars, ids, s).0)
  {
    var o := Compact(enc, MessageCap(config), maxChars, ids, s.messages);
    if o.Compacted? {
      var row := LedgerRow(o.mirrored, Some(o.sha));
      LoggedAppends(s, row);
      var t := Settle(s, o);
      assert LedgerOf(t) == LedgerOf(Logged(s, row));
    }
  }

  /** An arriving message joins the carried ones -- or the mission alone, in the arm that restarts -- and the ledger; an
      empty session begins with the mission. Then both caps are enforced. */
  lemma ArrivalExactly(enc: Encoding, config: Config, prompt: string, s: Session, message: Message, restart: bool,
                       ids: seq<string>)
    requires InArchive(s)
    ensures var mission := Message("system", prompt);
      var base := if s.messages == [] then [mission] else s.messages;
      var logged := if s.messages == [] then LedgerOf(s) + [LedgerRow(mission, None)] else LedgerOf(s);
      CarriesOn(enc, config, if config.maxChars > 500 then config.maxChars else 500, ids,
              (if restart then [base[0]] else base) + [message], logged + [LedgerRow(message, None)],
              Apply(enc, config, prompt, s, Arrives(message, restart, ids)))
  {
    if s.messages == [] {
      LoggedAppends(s, Row(Message("system", prompt)));
      assert LedgerOf(Opened(s, prompt)) == LedgerOf(Logged(s, Row(Message("system", prompt))));
    }
    var base := Opened(s, prompt);
    var pushed := Pushed(s, prompt, message, restart);
    LoggedAppends(base, Row(message));
    assert LedgerOf(pushed) == LedgerOf(Logged(base, Row(message)));
    assert pushed.messages == (if restart then [base.messages[0]] else base.messages) + [message];
    SquashedCarriesOn(enc, config, CharCap(config), ids, pushed);
  }

  /** A response joins the ledger and is not carried. */
  lemma ResponseExactly(enc: Encoding, config: Config, prompt: string, s: Session, response: Message)
    requires InArchive(s) && s.messages != []
    ensures var t := Apply(enc, config, prompt, s, Answers(response));
      t.messages == s.messages && LedgerOf(t) == LedgerOf(s) + [LedgerRow(response, None)] && t.records == s.records
  {
    LoggedAppends(s, Row(response));
  }

  /** A projection gives the latest of two or more messages its new text and enforces the smaller cap; the ledger keeps
      the old text. */
  lemma ProjectionExactly(enc: Encoding, config: Config, prompt: string, s: Session, text: Option<string>,
                          maxChars: int, ids: seq<string>)
    requires InArchive(s) && s.messages != []
    ensures var last := |s.messages| - 1;
      var latest := Message(s.messages[last].role, if text.Some? then text.value else s.messages[last].content);
      CarriesOn(enc, config, if maxChars > 500 then maxChars else 500, ids,
                if last > 0 then s.messages[..last] + [latest] else s.messages, LedgerOf(s),
                Apply(enc, config, prompt, s, Projects(text, maxChars, ids)))
  {
    var refitted, last := Refitted(s, text), |s.messages| - 1;
    assert LedgerOf(refitted) == LedgerOf(s);
    assert s.messages == s.messages[..last] + [s.messages[last]];
    SquashedCarriesOn(enc, config, Max(500, maxChars), ids, refitted);
  }

  /** Dropping the history carries the two ends. */
  lemma DroppedHistoryExactly(enc: Encoding, config: Config, prompt: string, s: Session)
    requires s.messages != []
    ensures var t, last := Apply(enc, config, prompt, s, DropsHistory), |s.messages| - 1;
      t.messages == (if last > 0 then [s.messages[0], s.messages[last]] else s.messages) && LedgerOf(t) == LedgerOf(s)
  {
  }

  /** A turn rolled back leaves the messages and the ledger it found, and its compaction records unless it was a draft
      round; one whose beginning no longer stands changes nothing. */
  lemma RollbackExactly(enc: Encoding, config: Config, prompt: string, events: seq<Event>, to: nat, draft: bool)
    ensures var turn := events + [RollsBack(to, draft)];
      var t, s := After(enc, config, prompt, turn), After(enc, config, prompt, events);
      if to <= |events| && (forall m :: to <= m < |events| && events[m].RollsBack? ==> events[m].to >= to) then
        var before := After(enc, config, prompt, events[..to]);
        t.messages == before.messages && LedgerOf(t) == LedgerOf(before)
        && t.records == if draft then before.records else s.records
      else t == s
  {
    var turn := events + [RollsBack(to, draft)];
    assert turn[..|turn| - 1] == events;
    if Standing(events, to) {
      var before := After(enc, config, prompt, events[..to]);
      RunsAreSound(enc, config, prompt, events[..to]);
      ArchiveOnlyGrows(enc, config, prompt, events, to);
      LedgerOfLonger(before, Restored(before, After(enc, config, prompt, events), draft));
    }
  }

  lemma LedgerOfLonger(s: Session, t: Session)
    requires InArchive(s) && t.places == s.places && s.archive <= t.archive
    ensures LedgerOf(t) == LedgerOf(s)
  {
    forall i | 0 <= i < |s.places| ensures LedgerOf(t)[i] == LedgerOf(s)[i] {
      assert s.places[i] in s.places;
    }
  }

  // ---- What every run keeps ----

  ghost predicate Distinct(rows: seq<nat>) {
    forall i, j :: 0 <= i < j < |rows| ==> rows[i] != rows[j]
  }

  /** A carried message is the ledger row of that number, text aside if a projection altered it. */
  ghost predicate Matches(message: Message, row: nat, archive: seq<LedgerRow>, altered: set<nat>) {
    && row < |archive| && message.role == archive[row].message.role
    && (message.content == archive[row].message.content <==> row !in altered)
  }

  ghost predicate AllMatch(messages: seq<Message>, rows: seq<nat>, archive: seq<LedgerRow>, altered: set<nat>) {
    |messages| == |rows| && forall i :: 0 <= i < |rows| ==> Matches(messages[i], rows[i], archive, altered)
  }

  /** The rows on the ledger are in the order in which they were put there. */
  ghost predicate Filed(s: Session) {
    && (forall i, j :: 0 <= i < j < |s.places| ==> s.places[i] < s.places[j])
    && forall p :: p in s.places ==> p < |s.archive|
  }

  /** `t` has the rows of `s`, and on top of its ledger all the new ones. */
  ghost predicate Grows(s: Session, t: Session) {
    && s.archive <= t.archive && s.places <= t.places
    && forall p :: p in t.places <==> p in s.places || |s.archive| <= p < |t.archive|
  }

  lemma GrowsOn(s: Session, t: Session, u: Session)
    requires Grows(s, t) && Grows(t, u)
    ensures Grows(s, u)
  {
  }

  /** The mission opens the session, and the carried messages are rows on the ledger, none of them twice. */
  ghost predicate Sound(s: Session, prompt: string, altered: set<nat>) {
    && AllMatch(s.messages, s.rows, s.archive, altered) && Distinct(s.rows) && Filed(s)
    && (forall p :: p in s.rows ==> p in s.places)
    && (s.messages != [] ==> s.messages[0] == Message("system", prompt) && s.rows[0] !in altered)
    && forall p :: p in altered ==> p < |s.archive|
  }

  /** A record is the count and hash of messages that were the rows it names, texts aside if altered by then. */
  ghost predicate Backed(enc: Encoding, archive: seq<LedgerRow>, r: CompactionRecord, altered: set<nat>) {
    && |r.rows| == r.count
    && exists compacted: seq<Message> ::
         CompactedHash(enc, compacted) == r.sha && AllMatch(compacted, r.rows, archive, altered)
  }

  ghost predicate AllBacked(enc: Encoding, archive: seq<LedgerRow>, records: seq<CompactionRecord>,
                            past: seq<set<nat>>) {
    |past| == |records| && forall k :: 0 <= k < |records| ==> Backed(enc, archive, records[k], past[k])
  }

  ghost predicate Inv(enc: Encoding, s: Session, prompt: string, altered: set<nat>, past: seq<set<nat>>) {
    Sound(s, prompt, altered) && AllBacked(enc, s.archive, s.records, past)
  }

  lemma LongerLedgerStillMatches(messages: seq<Message>, rows: seq<nat>, ledger: seq<LedgerRow>,
                                 longer: seq<LedgerRow>, altered: set<nat>)
    requires AllMatch(messages, rows, ledger, altered) && ledger <= longer
    ensures AllMatch(messages, rows, longer, altered)
  {
    forall i | 0 <= i < |rows| ensures Matches(messages[i], rows[i], longer, altered) {
      assert Matches(messages[i], rows[i], ledger, altered);
    }
  }

  /** Records stay backed while rows are added. */
  lemma StayBacked(enc: Encoding, archive: seq<LedgerRow>, longer: seq<LedgerRow>, records: seq<CompactionRecord>,
                   past: seq<set<nat>>)
    requires AllBacked(enc, archive, records, past) && archive <= longer
    ensures AllBacked(enc, longer, records, past)
  {
    forall k | 0 <= k < |records| ensures Backed(enc, longer, records[k], past[k]) {
      var r := records[k];
      var compacted: seq<Message> :|
        CompactedHash(enc, compacted) == r.sha && AllMatch(compacted, r.rows, archive, past[k]);
      LongerLedgerStillMatches(compacted, r.rows, archive, longer, past[k]);
    }
  }

  /** A row more on the ledger leaves everything else in place. */
  lemma LoggingIsSound(enc: Encoding, s: Session, row: LedgerRow, prompt: string, altered: set<nat>,
                       past: seq<set<nat>>)
    requires Inv(enc, s, prompt, altered, past)
    ensures Inv(enc, Logged(s, row), prompt, altered, past) && Grows(s, Logged(s, row))
    ensures |s.archive| in Logged(s, row).places
  {
    var t := Logged(s, row);
    LongerLedgerStillMatches(s.messages, s.rows, s.archive, t.archive, altered);
    StayBacked(enc, s.archive, t.archive, s.records, past);
    assert t.places[|s.places|] == |s.archive|;
    assert forall i :: 0 <= i < |s.places| ==> s.places[i] in s.places;
  }

  lemma OpeningIsSound(enc: Encoding, s: Session, prompt: string, altered: set<nat>, past: seq<set<nat>>)
    requires Inv(enc, s, prompt, altered, past)
    ensures Inv(enc, Opened(s, prompt), prompt, altered, past) && Opened(s, prompt).messages != []
    ensures Grows(s, Opened(s, prompt))
  {
    if s.messages == [] {
      LoggingIsSound(enc, s, Row(Message("system", prompt)), prompt, altered, past);
      var t := Opened(s, prompt);
      assert Matches(t.messages[0], t.rows[0], t.archive, altered);
    }
  }

  lemma PushingIsSound(enc: Encoding, s: Session, prompt: string, message: Message, restart: bool, altered: set<nat>,
                       past: seq<set<nat>>)
    requires Inv(enc, s, prompt, altered, past)
    ensures var p := Pushed(s, prompt, message, restart);
      && Inv(enc, p, prompt, altered, past) && |p.messages| >= 2 && p.messages[|p.messages| - 1] == message
      && Grows(s, p) && |s.places| < |p.places| && p.records == s.records
      && p.archive[p.places[|p.places| - 1]] == Row(message)
  {
    var base := Opened(s, prompt);
    OpeningIsSound(enc, s, prompt, altered, past);
    LoggingIsSound(enc, base, Row(message), prompt, altered, past);
    var kept := if restart then 1 else |base.messages|;
    var t, p := Logged(base, Row(message)), Pushed(s, prompt, message, restart);
    assert Matches(message, |base.archive|, t.archive, altered);
    SliceMatches(t.messages, t.rows, 0, kept, t.archive, altered);
    ConcatMatches(t.messages[0..kept], t.rows[0..kept], [message], [|base.archive|], t.archive, altered);
    assert p.messages == t.messages[0..kept] + [message] && p.rows == t.rows[0..kept] + [|base.archive|];
    assert forall i :: 0 <= i < kept ==> Matches(base.messages[i], base.rows[i], base.archive, altered);
    GrowsOn(s, base, t);
  }

  lemma ConcatMatches(m: seq<Message>, r: seq<nat>, n: seq<Message>, q: seq<nat>, archive: seq<LedgerRow>,
                      altered: set<nat>)
    requires AllMatch(m, r, archive, altered) && AllMatch(n, q, archive, altered)
    ensures AllMatch(m + n, r + q, archive, altered)
  {
  }

  lemma SliceMatches(m: seq<Message>, r: seq<nat>, i: nat, j: nat, archive: seq<LedgerRow>, altered: set<nat>)
    requires AllMatch(m, r, archive, altered) && i <= j <= |m|
    ensures AllMatch(m[i..j], r[i..j], archive, altered)
  {
    forall k | 0 <= k < j - i ensures Matches(m[i..j][k], r[i..j][k], archive, altered) {
      assert Matches(m[i + k], r[i + k], archive, altered);
    }
  }

  /** The rows behind a compacted session: the first one, at most one new one, and those of the tail. */
  function MiddleRows(s: Session, o: Outcome): seq<nat>
    requires o.Compacted?
  {
    if o.surrogate.Some? then [|s.archive|] else []
  }

  function MiddleMessages(o: Outcome): seq<Message>
    requires o.Compacted?
  {
    if o.surrogate.Some? then [o.mirrored] else []
  }

  lemma MiddleMatches(s: Session, o: Outcome, altered: set<nat>)
    requires o.Compacted? && forall p :: p in altered ==> p < |s.archive|
    ensures AllMatch(MiddleMessages(o), MiddleRows(s, o), Settle(s, o).archive, altered)
  {
    assert Matches(o.mirrored, |s.archive|, Settle(s, o).archive, altered);
  }

  lemma SettledParts(enc: Encoding, s: Session, o: Outcome)
    requires s.messages != [] && |s.rows| == |s.messages| && o.Compacted? && Describes(enc, s.messages, o)
    ensures var t, c, n := Settle(s, o), 1 + |o.compacted|, |s.messages|;
      && c < n && t.messages == s.messages[0..1] + MiddleMessages(o) + s.messages[c..n]
      && t.rows == s.rows[0..1] + MiddleRows(s, o) + s.rows[c..n]
      && o.compacted == s.messages[1..c] && t.records == s.records + [CompactionRecord(o.count, o.sha, s.rows[1..c])]
  {
    var c, n := 1 + |o.compacted|, |s.messages|;
    assert s.messages[c..n] == o.tail && s.messages[0..1] == [s.messages[0]];
    assert From(Upto(s.rows, c), 1) == s.rows[1..c] && From(s.rows, c) == s.rows[c..n];
  }

  lemma ThreeMatch(a: seq<Message>, p: seq<nat>, b: seq<Message>, q: seq<nat>, c: seq<Message>, r: seq<nat>,
                   archive: seq<LedgerRow>, altered: set<nat>)
    requires AllMatch(a, p, archive, altered) && AllMatch(b, q, archive, altered) && AllMatch(c, r, archive, altered)
    ensures AllMatch(a + b + c, p + q + r, archive, altered)
  {
    ConcatMatches(a, p, b, q, archive, altered);
    ConcatMatches(a + b, p + q, c, r, archive, altered);
  }

  /** Where a compaction leaves the carried messages on the ledger. */
  lemma SettlingMatches(enc: Encoding, s: Session, prompt: string, o: Outcome, altered: set<nat>)
    requires Sound(s, prompt, altered) && s.messages != [] && o.Compacted? && Describes(enc, s.messages, o)
    ensures var t := Settle(s, o); AllMatch(t.messages, t.rows, t.archive, altered)
  {
    var t, c, n := Settle(s, o), 1 + |o.compacted|, |s.messages|;
    SettledParts(enc, s, o);
    MiddleMatches(s, o, altered);
    LongerLedgerStillMatches(s.messages, s.rows, s.archive, t.archive, altered);
    SliceMatches(s.messages, s.rows, 0, 1, t.archive, altered);
    SliceMatches(s.messages, s.rows, c, n, t.archive, altered);
    ThreeMatch(s.messages[0..1], s.rows[0..1], MiddleMessages(o), MiddleRows(s, o), s.messages[c..n], s.rows[c..n],
               t.archive, altered);
  }

  lemma DistinctParts(rows: seq<nat>, middle: seq<nat>, c: nat, unused: nat)
    requires Distinct(rows) && 1 <= c < |rows|
    requires (middle == [] || middle == [unused]) && forall p :: p in rows ==> p < unused
    ensures var all := rows[0..1] + middle + rows[c..];
      Distinct(all) && all[0] == rows[0] && all[|all| - 1] == rows[|rows| - 1]
    ensures forall p :: p in rows[0..1] + middle + rows[c..] ==> p in rows || p in middle
  {
    var all, m := rows[0..1] + middle + rows[c..], 1 + |middle|;
    assert forall k :: 0 <= k < |rows| ==> rows[k] in rows;
    assert forall k :: c <= k < |rows| ==> rows[0] != rows[k];
    forall i, j | 0 <= i < j < |all| ensures all[i] != all[j] {
      assert j >= m ==> all[j] == rows[c + (j - m)];
      assert i >= m ==> all[i] == rows[c + (i - m)];
      assert 1 <= i < m ==> all[i] == unused;
      assert 1 <= j < m ==> all[j] == unused;
    }
  }

  lemma SettlingKeepsOrder(enc: Encoding, s: Session, prompt: string, o: Outcome, altered: set<nat>)
    requires Sound(s, prompt, altered) && s.messages != [] && o.Compacted? && Describes(enc, s.messages, o)
    ensures var t := Settle(s, o);
      && Distinct(t.rows) && t.rows != [] && t.rows[0] == s.rows[0] && forall p :: p in t.rows ==> p in t.places
  {
    var t, c := Settle(s, o), 1 + |o.compacted|;
    SettledParts(enc, s, o);
    DistinctParts(s.rows, MiddleRows(s, o), c, |s.archive|);
    assert t.rows == s.rows[0..1] + MiddleRows(s, o) + s.rows[c..];
    assert t.places[|s.places|] == |s.archive|;
  }

  lemma SettlingIsSound(enc: Encoding, s: Session, prompt: string, o: Outcome, altered: set<nat>, past: seq<set<nat>>)
    requires Inv(enc, s, prompt, altered, past) && s.messages != []
    requires o.Compacted? && Describes(enc, s.messages, o)
    ensures Inv(enc, Settle(s, o), prompt, altered, past + [altered]) && Grows(s, Settle(s, o))
    ensures s.records <= Settle(s, o).records && |Settle(s, o).records| == |s.records| + 1
  {
    var t, c, row := Settle(s, o), 1 + |o.compacted|, LedgerRow(o.mirrored, Some(o.sha));
    SettledParts(enc, s, o);
    LoggingIsSound(enc, s, row, prompt, altered, past);
    SettlingMatches(enc, s, prompt, o, altered);
    SettlingKeepsOrder(enc, s, prompt, o, altered);
    assert Sound(t, prompt, altered);
    assert Backed(enc, t.archive, t.records[|s.records|], altered) by {
      SliceMatches(s.messages, s.rows, 1, c, s.archive, altered);
      LongerLedgerStillMatches(o.compacted, s.rows[1..c], s.archive, t.archive, altered);
    }
  }

  lemma {:induction false} SquashingKeepsInv(enc: Encoding, config: Config, maxChars: int, ids: seq<string>,
                                             s: Session, prompt: string, altered: set<nat>, past: seq<set<nat>>)
    requires Inv(enc, s, prompt, altered, past) && |s.messages| >= 2
    ensures var t := Squashed(enc, config, maxChars, ids, s).0;
      Inv(enc, t, prompt, altered, PastBy(past, s, t, altered)) && Grows(s, t) && s.records <= t.records
  {
    var o := Squashed(enc, config, maxChars, ids, s).1;
    if o.Compacted? {
      CompactionIsFaithful(enc, MessageCap(config), maxChars, ids, s.messages);
      SettlingIsSound(enc, s, prompt, o, altered, past);
    }
  }

  lemma {:induction false} SquashingFits(enc: Encoding, config: Config, maxChars: int, ids: seq<string>, s: Session)
    requires |s.messages| >= 2
    ensures var (t, o) := Squashed(enc, config, maxChars, ids, s);
      && |t.messages| >= 2 && t.messages[0] == s.messages[0]
      && t.messages[|t.messages| - 1] == s.messages[|s.messages| - 1]
      && (o.Raised? <==> |s.messages[0].content| + |s.messages[|s.messages| - 1].content| > maxChars)
      && (o.Raised? ==> t == s)
      && (!o.Raised? ==> |t.messages| <= MessageCap(config) && Chars(t.messages) <= maxChars)
  {
    var o := Squashed(enc, config, maxChars, ids, s).1;
    CompactionFailsExactlyWhenEndsDoNotFit(enc, MessageCap(config), maxChars, ids, s.messages);
    if o.Compacted? {
      CompactionIsFaithful(enc, MessageCap(config), maxChars, ids, s.messages);
      EndsSurvive(enc, s.messages, o);
    }
  }

  /** Compacting keeps the invariant, the mission and the latest message, within both budgets unless it raises. */
  lemma SquashingIsSound(enc: Encoding, config: Config, maxChars: int, ids: seq<string>, s: Session, prompt: string,
                         altered: set<nat>, past: seq<set<nat>>)
    requires Inv(enc, s, prompt, altered, past) && |s.messages| >= 2
    ensures var (t, o) := Squashed(enc, config, maxChars, ids, s);
      && Inv(enc, t, prompt, altered, PastBy(past, s, t, altered))
      && Grows(s, t) && s.records <= t.records
      && |t.messages| >= 2 && t.messages[0] == s.messages[0]
      && t.messages[|t.messages| - 1] == s.messages[|s.messages| - 1]
      && (o.Raised? <==> |prompt| + |s.messages[|s.messages| - 1].content| > maxChars)
      && (o.Raised? ==> t == s)
      && (!o.Raised? ==> |t.messages| <= MessageCap(config) && Chars(t.messages) <= maxChars)
  {
    SquashingKeepsInv(enc, config, maxChars, ids, s, prompt, altered, past);
    SquashingFits(enc, config, maxChars, ids, s);
  }

  lemma EndsSurvive(enc: Encoding, messages: seq<Message>, o: Outcome)
    requires messages != [] && o.Compacted? && Describes(enc, messages, o)
    ensures |o.messages| >= 2 && o.messages[0] == messages[0]
    ensures o.messages[|o.messages| - 1] == messages[|messages| - 1]
  {
  }

  /** Rows on the ledger stay on it, in front. */
  lemma LedgerPrefix(s: Session, t: Session)
    requires Filed(s) && s.archive <= t.archive && s.places <= t.places
    ensures LedgerOf(s) <= LedgerOf(t)
  {
    forall i | 0 <= i < |s.places| ensures LedgerOf(s)[i] == LedgerOf(t)[i] {
      assert s.places[i] in s.places && t.places[i] == s.places[i];
    }
  }

  /** After every append: either it raises, or the session opens with the mission, ends with the appended
      message and respects both budgets. In all cases the ledger grows, by the message first. */
  lemma AppendKeepsMissionAndLatest(enc: Encoding, config: Config, prompt: string, ids: seq<string>, s: Session,
                                    message: Message, restart: bool, altered: set<nat>, past: seq<set<nat>>)
    requires Inv(enc, s, prompt, altered, past)
    ensures var (t, o) := Appended(enc, config, prompt, ids, s, message, restart);
      && Inv(enc, t, prompt, altered, PastBy(past, s, t, altered))
      && Grows(s, t) && s.records <= t.records && |s.places| < |t.places|
      && LedgerOf(s) <= LedgerOf(t) && Row(message) in LedgerOf(t)[|s.places|..]
      && |t.messages| >= 2 && t.messages[0] == Message("system", prompt) && t.messages[|t.messages| - 1] == message
      && (o.Raised? <==> |prompt| + |message.content| > CharCap(config))
      && (!o.Raised? ==> |t.messages| <= MessageCap(config) && Chars(t.messages) <= CharCap(config))
  {
    var pushed := Pushed(s, prompt, message, restart);
    PushingIsSound(enc, s, prompt, message, restart, altered, past);
    SquashingIsSound(enc, config, CharCap(config), ids, pushed, prompt, altered, past);
    var t := Appended(enc, config, prompt, ids, s, message, restart).0;
    GrowsOn(s, pushed, t);
    LedgerPrefix(s, t);
    LedgerPrefix(pushed, t);
    assert LedgerOf(t)[|pushed.places| - 1] == LedgerOf(pushed)[|pushed.places| - 1] == Row(message) by {
      assert pushed.places[|pushed.places| - 1] in pushed.places;
    }
  }

  function LatestText(s: Session, e: Event): string
    requires e.Projects? && |s.messages| >= 2
  {
    if e.text.Some? then e.text.value else s.messages[|s.messages| - 1].content
  }

  /** Replacing the latest text keeps the invariant, with the latest row altered or restored. */
  lemma RefittingIsSound(enc: Encoding, s: Session, e: Event, prompt: string, altered: set<nat>, past: seq<set<nat>>)
    requires Inv(enc, s, prompt, altered, past) && e.Projects? && |s.messages| >= 2
    ensures var r := Refitted(s, e.text);
      && Inv(enc, r, prompt, AlteredBy(altered, s, e), past)
      && r.archive == s.archive && r.places == s.places && r.records == s.records
      && |r.messages| == |s.messages| && r.messages[0] == s.messages[0]
      && r.messages[|r.messages| - 1].content == LatestText(s, e)
  {
    var r, after, last := Refitted(s, e.text), AlteredBy(altered, s, e), |s.messages| - 1;
    assert Matches(s.messages[last], s.rows[last], s.archive, altered);
    forall i | 0 <= i < |r.rows| ensures Matches(r.messages[i], r.rows[i], r.archive, after) {
      assert Matches(s.messages[i], s.rows[i], s.archive, altered);
    }
  }

  lemma {:induction false} ProjectionIsSound(enc: Encoding, config: Config, s: Session, e: Event, prompt: string,
                                             altered: set<nat>, past: seq<set<nat>>)
    requires Inv(enc, s, prompt, altered, past) && e.Projects? && |s.messages| >= 2
    ensures var (t, o) := Projected(enc, config, e.text, e.maxChars, e.ids, s);
      && Inv(enc, t, prompt, AlteredBy(altered, s, e), PastBy(past, s, t, AlteredBy(altered, s, e)))
      && Grows(s, t) && s.records <= t.records && |t.messages| >= 2
  {
    var after := AlteredBy(altered, s, e);
    RefittingIsSound(enc, s, e, prompt, altered, past);
    SquashingIsSound(enc, config, Max(500, e.maxChars), e.ids, Refitted(s, e.text), prompt, after, past);
  }

  lemma {:induction false} ProjectionFits(enc: Encoding, config: Config, s: Session, e: Event, prompt: string,
                                          altered: set<nat>, past: seq<set<nat>>)
    requires Inv(enc, s, prompt, altered, past) && e.Projects? && |s.messages| >= 2
    ensures var (t, o) := Projected(enc, config, e.text, e.maxChars, e.ids, s);
      && |t.messages| >= 2 && t.messages[0] == Message("system", prompt)
      && t.messages[|t.messages| - 1].content == LatestText(s, e)
      && (o.Raised? <==> |prompt| + |LatestText(s, e)| > Max(500, e.maxChars))
      && (!o.Raised? ==> |t.messages| <= MessageCap(config) && Chars(t.messages) <= Max(500, e.maxChars))
  {
    RefittingIsSound(enc, s, e, prompt, altered, past);
    SquashingFits(enc, config, Max(500, e.maxChars), e.ids, Refitted(s, e.text));
    assert s.messages[0] == Message("system", prompt);
  }

  /** A round of the provider-cap projection keeps the mission and the refitted event within the smaller cap, and
      leaves the ledger's own rows alone. */
  lemma ProjectionKeepsMissionAndLatest(enc: Encoding, config: Config, s: Session, e: Event, prompt: string,
                                        altered: set<nat>, past: seq<set<nat>>)
    requires Inv(enc, s, prompt, altered, past) && e.Projects? && |s.messages| >= 2
    ensures var (t, o) := Projected(enc, config, e.text, e.maxChars, e.ids, s);
      && Inv(enc, t, prompt, AlteredBy(altered, s, e), PastBy(past, s, t, AlteredBy(altered, s, e)))
      && LedgerOf(s) <= LedgerOf(t) && s.records <= t.records
      && |t.messages| >= 2 && t.messages[0] == Message("system", prompt)
      && t.messages[|t.messages| - 1].content == LatestText(s, e)
      && (o.Raised? <==> |prompt| + |LatestText(s, e)| > Max(500, e.maxChars))
      && (!o.Raised? ==> |t.messages| <= MessageCap(config) && Chars(t.messages) <= Max(500, e.maxChars))
  {
    ProjectionIsSound(enc, config, s, e, prompt, altered, past);
    ProjectionFits(enc, config, s, e, prompt, altered, past);
    LedgerPrefix(s, Projected(enc, config, e.text, e.maxChars, e.ids, s).0);
  }

  lemma EndsAreSound(enc: Encoding, s: Session, prompt: string, altered: set<nat>, past: seq<set<nat>>)
    requires Inv(enc, s, prompt, altered, past)
    ensures Inv(enc, EndsOnly(s), prompt, altered, past)
  {
    if |s.messages| >= 2 {
      var t, last := EndsOnly(s), |s.messages| - 1;
      assert t.rows == [s.rows[0], s.rows[last]];
      assert Matches(s.messages[0], s.rows[0], s.archive, altered);
      assert Matches(s.messages[last], s.rows[last], s.archive, altered);
    }
  }

  lemma AnsweringIsSound(enc: Encoding, config: Config, prompt: string, s: Session, response: Message,
                         altered: set<nat>, past: seq<set<nat>>)
    requires Inv(enc, s, prompt, altered, past)
    ensures var t := Apply(enc, config, prompt, s, Answers(response));
      Inv(enc, t, prompt, altered, past) && t.records == s.records && Grows(s, t)
  {
    OpeningIsSound(enc, s, prompt, altered, past);
    LoggingIsSound(enc, Opened(s, prompt), Row(response), prompt, altered, past);
    GrowsOn(s, Opened(s, prompt), Logged(Opened(s, prompt), Row(response)));
  }

  /** A session without an event is not projected. */
  lemma ShortSessionStays(enc: Encoding, config: Config, s: Session, e: Event)
    requires e.Projects? && |s.messages| < 2
    ensures Projected(enc, config, e.text, e.maxChars, e.ids, s).0 == s
  {
  }

  /** One event other than a rollback keeps the invariant, and only adds rows and records. */
  lemma ApplyIsSound(enc: Encoding, config: Config, prompt: string, s: Session, e: Event, altered: set<nat>,
                     past: seq<set<nat>>)
    requires Inv(enc, s, prompt, altered, past) && !e.RollsBack?
    ensures var t, after := Apply(enc, config, prompt, s, e), AlteredBy(altered, s, e);
      && Inv(enc, t, prompt, after, PastBy(past, s, t, after)) && Grows(s, t)
  {
    match e
    case Arrives(message, restart, ids) =>
      AppendKeepsMissionAndLatest(enc, config, prompt, ids, s, message, restart, altered, past);
    case Answers(response) => AnsweringIsSound(enc, config, prompt, s, response, altered, past);
    case Projects(text, maxChars, ids) =>
      if |s.messages| >= 2 {
        ProjectionIsSound(enc, config, s, e, prompt, altered, past);
      } else {
        ShortSessionStays(enc, config, s, e);
      }
    case DropsHistory => EndsAreSound(enc, s, prompt, altered, past);
    case RollsBack(_, _) =>
  }

  // ---- Every run, rollbacks included ----

  /** Every row ever put on the ledger is on it unless a rollback took it off. */
  ghost predicate Accounted(h: History) {
    && (forall p :: p in h.dropped ==> p < |h.s.archive|)
    && forall p :: 0 <= p < |h.s.archive| ==> (p in h.s.places <==> p !in h.dropped)
  }

  ghost predicate HistoryInv(enc: Encoding, prompt: string, h: History) {
    Inv(enc, h.s, prompt, h.altered, h.past) && Accounted(h)
  }

  lemma NextIsSound(enc: Encoding, config: Config, prompt: string, h: History, e: Event)
    requires HistoryInv(enc, prompt, h) && !e.RollsBack?
    ensures HistoryInv(enc, prompt, Next(enc, config, prompt, h, e)) && Grows(h.s, Next(enc, config, prompt, h, e).s)
  {
    ApplyIsSound(enc, config, prompt, h.s, e, h.altered, h.past);
    var t := Next(enc, config, prompt, h, e).s;
    assert forall p :: p in h.s.places ==> p < |h.s.archive|;
  }

  lemma RollingBackIsSound(enc: Encoding, prompt: string, base: History, h: History, draft: bool)
    requires HistoryInv(enc, prompt, base) && HistoryInv(enc, prompt, h)
    requires base.s.archive <= h.s.archive && base.s.places <= h.s.places
    ensures HistoryInv(enc, prompt, RolledBack(base, h, draft))
  {
    LongerLedgerStillMatches(base.s.messages, base.s.rows, base.s.archive, h.s.archive, base.altered);
    StayBacked(enc, base.s.archive, h.s.archive, base.s.records, base.past);
    assert Sound(RolledBack(base, h, draft).s, prompt, base.altered);
  }

  lemma ApplyOnlyAdds(enc: Encoding, config: Config, prompt: string, s: Session, e: Event)
    ensures var t := Apply(enc, config, prompt, s, e); s.archive <= t.archive && s.places <= t.places
  {
  }

  lemma {:induction false} ArchiveOnlyGrows(enc: Encoding, config: Config, prompt: string, events: seq<Event>, m: nat)
    requires m <= |events|
    ensures Trace(enc, config, prompt, events[..m]).s.archive <= Trace(enc, config, prompt, events).s.archive
    decreases |events|
  {
    if m == |events| {
      assert events[..m] == events;
    } else {
      var before, e := events[..|events| - 1], events[|events| - 1];
      assert before[..m] == events[..m];
      ArchiveOnlyGrows(enc, config, prompt, before, m);
      ApplyOnlyAdds(enc, config, prompt, Trace(enc, config, prompt, before).s, e);
    }
  }

  /** The ledger still starts with what a standing snapshot holds. */
  lemma {:induction false} StandingIsPrefix(enc: Encoding, config: Config, prompt: string, events: seq<Event>, to: nat)
    requires Standing(events, to)
    ensures Trace(enc, config, prompt, events[..to]).s.places <= Trace(enc, config, prompt, events).s.places
    decreases |events|
  {
    if to == |events| {
      assert events[..to] == events;
    } else {
      var before, e := events[..|events| - 1], events[|events| - 1];
      assert before[..to] == events[..to] && Standing(before, to);
      StandingIsPrefix(enc, config, prompt, before, to);
      if !e.RollsBack? {
        ApplyOnlyAdds(enc, config, prompt, Trace(enc, config, prompt, before).s, e);
      } else if Standing(before, e.to) {
        assert before[..e.to][..to] == events[..to] && Standing(before[..e.to], to);
        StandingIsPrefix(enc, config, prompt, before[..e.to], to);
      }
    }
  }

  /** In every reachable session -- after projections, rollbacks of superseded turns and draft rounds too -- the carried
      messages are rows on the ledger but for the texts projections have altered, every record is the hash of rows as
      they were carried when it was made, and the rows not on the ledger are exactly those rolled back. */
  lemma {:induction false} RunsAreSound(enc: Encoding, config: Config, prompt: string, events: seq<Event>)
    ensures HistoryInv(enc, prompt, Trace(enc, config, prompt, events))
    decreases |events|
  {
    if events != [] {
      var before, e := events[..|events| - 1], events[|events| - 1];
      RunsAreSound(enc, config, prompt, before);
      var h := Trace(enc, config, prompt, before);
      if !e.RollsBack? {
        NextIsSound(enc, config, prompt, h, e);
      } else if Standing(before, e.to) {
        RunsAreSound(enc, config, prompt, before[..e.to]);
        ArchiveOnlyGrows(enc, config, prompt, before, e.to);
        StandingIsPrefix(enc, config, prompt, before, e.to);
        RollingBackIsSound(enc, prompt, Trace(enc, config, prompt, before[..e.to]), h, e.draft);
      }
    }
  }

  /** How one event moves the ledger: it grows, or a rollback puts back the front of it. */
  lemma LedgerMove(enc: Encoding, config: Config, prompt: string, events: seq<Event>)
    requires events != []
    ensures var h, t := Trace(enc, config, prompt, events[..|events| - 1]), Trace(enc, config, prompt, events);
      && h.dropped <= t.dropped && h.s.archive <= t.s.archive
      && (t.dropped == h.dropped ==> h.s.places <= t.s.places)
      && (t.dropped != h.dropped ==> |t.s.places| < |h.s.places|)
  {
    var before, e := events[..|events| - 1], events[|events| - 1];
    var h := Trace(enc, config, prompt, before);
    RunsAreSound(enc, config, prompt, before);
    if !e.RollsBack? {
      NextIsSound(enc, config, prompt, h, e);
    } else if Standing(before, e.to) {
      StandingIsPrefix(enc, config, prompt, before, e.to);
      TakenExactly(Trace(enc, config, prompt, before[..e.to]).s, h.s, h.dropped);
    }
  }

  lemma TakenExactly(base: Session, s: Session, dropped: set<nat>)
    requires base.places <= s.places && Filed(s) && forall p :: p in s.places ==> p !in dropped
    ensures dropped + Taken(s, base) == dropped ==> base.places == s.places
    ensures dropped + Taken(s, base) != dropped ==> |base.places| < |s.places|
  {
    if |base.places| < |s.places| {
      var p := s.places[|base.places|];
      assert p in s.places && forall i :: 0 <= i < |base.places| ==> base.places[i] == s.places[i] < p;
      assert p in Taken(s, base);
    } else {
      assert Taken(s, base) == {};
    }
  }

  /** Every earlier ledger of the run is a prefix of every later one. */
  ghost predicate OnlyAppends(enc: Encoding, config: Config, prompt: string, events: seq<Event>) {
    forall m, n :: 0 <= m <= n <= |events| ==>
      LedgerOf(After(enc, config, prompt, events[..m])) <= LedgerOf(After(enc, config, prompt, events[..n]))
  }

  lemma {:induction false} NothingDroppedGrows(enc: Encoding, config: Config, prompt: string, events: seq<Event>,
                                               m: nat)
    requires m <= |events|
    ensures var h, t := Trace(enc, config, prompt, events[..m]), Trace(enc, config, prompt, events);
      && h.dropped <= t.dropped && h.s.archive <= t.s.archive
      && (t.dropped == h.dropped ==> h.s.places <= t.s.places)
    decreases |events|
  {
    if m == |events| {
      assert events[..m] == events;
    } else {
      var before := events[..|events| - 1];
      LedgerMove(enc, config, prompt, events);
      NothingDroppedGrows(enc, config, prompt, before, m);
      assert before[..m] == events[..m];
    }
  }

  /** Event `n` leaves fewer rows on the ledger than it found. */
  ghost predicate Shortens(enc: Encoding, config: Config, prompt: string, events: seq<Event>, n: nat)
    requires n < |events|
  {
    |After(enc, config, prompt, events[..n + 1]).places| < |After(enc, config, prompt, events[..n]).places|
  }

  ghost predicate NoneShortens(enc: Encoding, config: Config, prompt: string, events: seq<Event>, m: nat)
    requires m <= |events|
  {
    forall n: nat :: n < m ==> !Shortens(enc, config, prompt, events, n)
  }

  lemma {:induction false} DropShortens(enc: Encoding, config: Config, prompt: string, events: seq<Event>, m: nat)
    requires m <= |events| && NoneShortens(enc, config, prompt, events, m)
    ensures Trace(enc, config, prompt, events[..m]).dropped == {}
  {
    if m == 0 {
      assert events[..m] == [];
    } else {
      DropShortens(enc, config, prompt, events, m - 1);
      DropOrShorten(enc, config, prompt, events, m - 1);
    }
  }

  lemma DropOrShorten(enc: Encoding, config: Config, prompt: string, events: seq<Event>, n: nat)
    requires n < |events|
    ensures Trace(enc, config, prompt, events[..n + 1]).dropped == Trace(enc, config, prompt, events[..n]).dropped
            || Shortens(enc, config, prompt, events, n)
  {
    assert events[..n + 1][..n] == events[..n];
    LedgerMove(enc, config, prompt, events[..n + 1]);
  }

  /** The ledger only ever grows by appending if and only if no rollback took a row off it. */
  lemma LedgerOnlyGrowsExactly(enc: Encoding, config: Config, prompt: string, events: seq<Event>)
    ensures OnlyAppends(enc, config, prompt, events) <==> Trace(enc, config, prompt, events).dropped == {}
  {
    if Trace(enc, config, prompt, events).dropped == {} {
      forall m, n | 0 <= m <= n <= |events|
        ensures LedgerOf(After(enc, config, prompt, events[..m])) <= LedgerOf(After(enc, config, prompt, events[..n]))
      {
        NothingDroppedGrows(enc, config, prompt, events, n);
        NothingDroppedGrows(enc, config, prompt, events[..n], m);
        assert events[..n][..m] == events[..m];
        RunsAreSound(enc, config, prompt, events[..m]);
        LedgerPrefix(After(enc, config, prompt, events[..m]), After(enc, config, prompt, events[..n]));
      }
    } else {
      assert events[..|events|] == events;
      if NoneShortens(enc, config, prompt, events, |events|) {
        DropShortens(enc, config, prompt, events, |events|);
      }
      var n: nat :| n < |events| && Shortens(enc, config, prompt, events, n);
      assert |LedgerOf(After(enc, config, prompt, events[..n + 1]))| <
             |LedgerOf(After(enc, config, prompt, events[..n]))|;
    }
  }

  /** In a run without rollbacks the ledger only grows. */
  lemma {:induction false} LedgerOnlyGrows(enc: Encoding, config: Config, prompt: string, events: seq<Event>)
    requires forall n :: 0 <= n < |events| ==> !events[n].RollsBack?
    ensures OnlyAppends(enc, config, prompt, events)
  {
    NoRollbackNoDrop(enc, config, prompt, events);
    LedgerOnlyGrowsExactly(enc, config, prompt, events);
  }

  lemma {:induction false} NoRollbackNoDrop(enc: Encoding, config: Config, prompt: string, events: seq<Event>)
    requires forall n :: 0 <= n < |events| ==> !events[n].RollsBack?
    ensures Trace(enc, config, prompt, events).dropped == {}
    decreases |events|
  {
    if events != [] {
      NoRollbackNoDrop(enc, config, prompt, events[..|events| - 1]);
    }
  }

  // ---- Recomputing a recorded hash from the ledger ----

  function LedgerAt(ledger: seq<LedgerRow>, rows: seq<nat>): (m: seq<Message>)
    ensures |m| == |rows| && forall i :: 0 <= i < |rows| && rows[i] < |ledger| ==> m[i] == ledger[rows[i]].message
  {
    seq(|rows|, i requires 0 <= i < |rows| =>
      if rows[i] < |ledger| then ledger[rows[i]].message else Message("", ""))
  }

  /** `at` are the ledger positions of the rows `rows`. */
  ghost predicate FoundAt(s: Session, rows: seq<nat>, at: seq<nat>) {
    |at| == |rows| && forall j :: 0 <= j < |at| ==> at[j] < |s.places| && s.places[at[j]] == rows[j]
  }

  /** The rows behind record `k` are on the ledger, and their texts have the recorded hash. */
  ghost predicate Recomputable(enc: Encoding, s: Session, k: nat)
    requires k < |s.records|
  {
    exists at: seq<nat> ::
      FoundAt(s, s.records[k].rows, at) && CompactedHash(enc, LedgerAt(LedgerOf(s), at)) == s.records[k].sha
  }

  /** Digests never collide and, being hexadecimal, never contain the separator. */
  ghost predicate CollisionFree(enc: Encoding) {
    && (forall x, y :: enc.digest(x) == enc.digest(y) ==> x == y)
    && forall x :: (0 as char) !in enc.digest(x)
  }

  /** An injective, separator-free digest: the assumption can be met. */
  function Escape(text: string): string {
    if text == "" then "" else (if text[0] == 0 as char then "a" else ['b', text[0]]) + Escape(text[1..])
  }

  lemma {:induction false} EscapeHasNoSeparator(text: string)
    ensures (0 as char) !in Escape(text)
  {
    if text != "" {
      EscapeHasNoSeparator(text[1..]);
    }
  }

  lemma {:induction false} EscapeIsInjective(x: string, y: string)
    requires Escape(x) == Escape(y)
    ensures x == y
  {
    if x != "" && y != "" {
      var n := if x[0] == 0 as char then 1 else 2;
      assert Escape(x)[n..] == Escape(x[1..]) && Escape(x)[0] == Escape(y)[0];
      assert Escape(y)[n..] == Escape(y[1..]);
      assert n == 2 ==> Escape(x)[1] == Escape(y)[1];
      EscapeIsInjective(x[1..], y[1..]);
      assert x == [x[0]] + x[1..] && y == [y[0]] + y[1..];
    }
  }

  lemma CollisionFreeEncodingsExist(enc: Encoding)
    ensures CollisionFree(enc.(digest := Escape))
  {
    forall x: string, y: string | Escape(x) == Escape(y) ensures x == y {
      EscapeIsInjective(x, y);
    }
    forall x: string ensures (0 as char) !in Escape(x) {
      EscapeHasNoSeparator(x);
    }
  }

  ghost predicate SameTexts(a: seq<Message>, b: seq<Message>) {
    |a| == |b| && forall i :: 0 <= i < |a| ==> a[i].content == b[i].content
  }

  lemma {:induction false} SameTextsSameHash(enc: Encoding, a: seq<Message>, b: seq<Message>)
    requires SameTexts(a, b)
    ensures JoinDigests(enc, a) == JoinDigests(enc, b)
  {
    if |a| > 1 {
      SameTextsSameHash(enc, a[1..], b[1..]);
    }
  }

  lemma SplitAtSeparator(x: string, y: string, p: string, q: string)
    requires (0 as char) !in x && (0 as char) !in y && x + [0 as char] + p == y + [0 as char] + q
    ensures x == y && p == q
  {
    var u, v := x + [0 as char] + p, y + [0 as char] + q;
    assert forall i :: 0 <= i < |x| ==> x[i] in x && u[i] == x[i];
    assert forall i :: 0 <= i < |y| ==> y[i] in y && v[i] == y[i];
    assert u[|x|] == v[|y|] == 0 as char;
    assert |x| == |y|;
    assert u[..|x|] == x && v[..|y|] == y;
    assert u[|x| + 1..] == p && v[|y| + 1..] == q;
  }

  lemma {:induction false} SameHashSameTexts(enc: Encoding, a: seq<Message>, b: seq<Message>)
    requires CollisionFree(enc) && |a| == |b| && JoinDigests(enc, a) == JoinDigests(enc, b)
    ensures SameTexts(a, b)
  {
    if |a| > 1 {
      SplitAtSeparator(enc.digest(a[0].content), enc.digest(b[0].content), JoinDigests(enc, a[1..]),
          JoinDigests(enc, b[1..]));
      SameHashSameTexts(enc, a[1..], b[1..]);
      assert forall i :: 1 <= i < |a| ==> a[i] == a[1..][i - 1] && b[i] == b[1..][i - 1];
    }
  }

  lemma FoundRowsRead(s: Session, rows: seq<nat>, at: seq<nat>)
    requires Filed(s) && FoundAt(s, rows, at)
    ensures LedgerAt(LedgerOf(s), at) == LedgerAt(s.archive, rows)
  {
    forall j | 0 <= j < |rows| ensures LedgerAt(LedgerOf(s), at)[j] == LedgerAt(s.archive, rows)[j] {
      assert s.places[at[j]] == rows[j] && s.places[at[j]] in s.places;
    }
  }

  lemma {:induction false} RowsAreFound(s: Session, rows: seq<nat>) returns (at: seq<nat>)
    requires forall p :: p in rows ==> p in s.places
    ensures FoundAt(s, rows, at)
    decreases |rows|
  {
    at := [];
    if rows != [] {
      var n := |rows| - 1;
      at := RowsAreFound(s, rows[..n]);
      assert rows[n] in rows;
      var i :| 0 <= i < |s.places| && s.places[i] == rows[n];
      at := at + [i];
    }
  }

  /** Recomputing means that all rows are on the ledger and that their texts as recorded there have the hash. */
  lemma RecomputableMeans(enc: Encoding, s: Session, k: nat)
    requires Filed(s) && k < |s.records|
    ensures Recomputable(enc, s, k) <==>
            (forall p :: p in s.records[k].rows ==> p in s.places)
            && CompactedHash(enc, LedgerAt(s.archive, s.records[k].rows)) == s.records[k].sha
  {
    var rows := s.records[k].rows;
    if Recomputable(enc, s, k) {
      var at: seq<nat> :| FoundAt(s, rows, at) && CompactedHash(enc, LedgerAt(LedgerOf(s), at)) == s.records[k].sha;
      FoundRowsRead(s, rows, at);
      forall p | p in rows ensures p in s.places {
        var j :| 0 <= j < |rows| && rows[j] == p;
        assert s.places[at[j]] == p;
      }
    }
    if forall p :: p in rows ==> p in s.places {
      var at := RowsAreFound(s, rows);
      FoundRowsRead(s, rows, at);
    }
  }

  /** The recorded hash is that of the rows as recorded if and only if none was altered when it was made. */
  lemma HashMatchesExactly(enc: Encoding, archive: seq<LedgerRow>, r: CompactionRecord, altered: set<nat>)
    requires Backed(enc, archive, r, altered)
    ensures (forall p :: p in r.rows ==> p !in altered) ==> CompactedHash(enc, LedgerAt(archive, r.rows)) == r.sha
    ensures CollisionFree(enc) && CompactedHash(enc, LedgerAt(archive, r.rows)) == r.sha ==>
      forall p :: p in r.rows ==> p !in altered
  {
    var compacted: seq<Message> :|
      CompactedHash(enc, compacted) == r.sha && AllMatch(compacted, r.rows, archive, altered);
    var rows := LedgerAt(archive, r.rows);
    assert forall i :: 0 <= i < |rows| ==> Matches(compacted[i], r.rows[i], archive, altered);
    if forall p :: p in r.rows ==> p !in altered {
      assert SameTexts(compacted, rows);
      SameTextsSameHash(enc, compacted, rows);
    }
    if CollisionFree(enc) && CompactedHash(enc, rows) == r.sha {
      SameHashSameTexts(enc, compacted, rows);
    }
  }

  /** Over every run: a recorded hash can be recomputed from the ledger if and only if, of the messages it stands for,
      no projection had altered one when it was made and no rollback has taken one off the ledger since. */
  lemma RecordIsRecomputableExactly(enc: Encoding, config: Config, prompt: string, events: seq<Event>, k: nat)
    requires CollisionFree(enc) && k < |After(enc, config, prompt, events).records|
    ensures var h := Trace(enc, config, prompt, events);
      && k < |h.past|
      && (Recomputable(enc, h.s, k) <==> forall p :: p in h.s.records[k].rows ==> p !in h.past[k] && p !in h.dropped)
  {
    var h := Trace(enc, config, prompt, events);
    RunsAreSound(enc, config, prompt, events);
    RecordRowsExist(enc, h.s, prompt, h.altered, h.past, k);
    RecomputableMeans(enc, h.s, k);
    HashMatchesExactly(enc, h.s.archive, h.s.records[k], h.past[k]);
  }

  lemma RecordRowsExist(enc: Encoding, s: Session, prompt: string, altered: set<nat>, past: seq<set<nat>>, k: nat)
    requires Inv(enc, s, prompt, altered, past) && k < |s.records|
    ensures Backed(enc, s.archive, s.records[k], past[k]) && forall p :: p in s.records[k].rows ==> p < |s.archive|
  {
    var r := s.records[k];
    var compacted: seq<Message> :|
      CompactedHash(enc, compacted) == r.sha && AllMatch(compacted, r.rows, s.archive, past[k]);
    forall p | p in r.rows ensures p < |s.archive| {
      var j :| 0 <= j < |r.rows| && r.rows[j] == p;
      assert Matches(compacted[j], r.rows[j], s.archive, past[k]);
    }
  }

  /** In a run whose projections never change a text, every carried message is on the ledger, and every recorded hash
      can be recomputed from it whose rows were not rolled back. */
  lemma RunsAreAuditable(enc: Encoding, config: Config, prompt: string, events: seq<Event>)
    requires NeverAlters(enc, config, prompt, events)
    ensures var h := Trace(enc, config, prompt, events);
      && (forall m :: m in h.s.messages ==> exists r :: r in LedgerOf(h.s) && r.message == m)
      && forall k :: 0 <= k < |h.s.records| && (forall p :: p in h.s.records[k].rows ==> p !in h.dropped) ==>
           Recomputable(enc, h.s, k)
  {
    var h := Trace(enc, config, prompt, events);
    RunsAreSound(enc, config, prompt, events);
    NothingAltered(enc, config, prompt, events, |events|);
    assert events[..|events|] == events;
    forall m | m in h.s.messages ensures exists r :: r in LedgerOf(h.s) && r.message == m {
      var i :| 0 <= i < |h.s.messages| && h.s.messages[i] == m;
      assert Matches(m, h.s.rows[i], h.s.archive, {}) && h.s.rows[i] in h.s.rows;
      var j :| 0 <= j < |h.s.places| && h.s.places[j] == h.s.rows[i];
      assert LedgerOf(h.s)[j].message == m;
    }
    forall k | 0 <= k < |h.s.records| && (forall p :: p in h.s.records[k].rows ==> p !in h.dropped)
      ensures Recomputable(enc, h.s, k)
    {
      RecordRowsExist(enc, h.s, prompt, h.altered, h.past, k);
      RecomputableMeans(enc, h.s, k);
      HashMatchesExactly(enc, h.s.archive, h.s.records[k], h.past[k]);
    }
  }

  /** No projection of the run gives a message a text other than the one on the ledger. */
  ghost predicate NeverAlters(enc: Encoding, config: Config, prompt: string, events: seq<Event>) {
    forall n :: 0 <= n < |events| ==> !Alters(After(enc, config, prompt, events[..n]), events[n])
  }

  ghost predicate Unaltered(h: History) {
    h.altered == {} && forall k :: 0 <= k < |h.past| ==> h.past[k] == {}
  }

  lemma {:induction false} NothingAltered(enc: Encoding, config: Config, prompt: string, events: seq<Event>, m: nat)
    requires NeverAlters(enc, config, prompt, events) && m <= |events|
    ensures Unaltered(Trace(enc, config, prompt, events[..m]))
  {
    if m == 0 {
      assert events[..m] == [];
    } else {
      var e := events[m - 1];
      NothingAltered(enc, config, prompt, events, m - 1);
      if !e.RollsBack? {
        TraceNext(enc, config, prompt, events, m - 1);
      } else if Standing(events[..m - 1], e.to) {
        NothingAltered(enc, config, prompt, events, e.to);
        TraceRollsBack(enc, config, prompt, events, m - 1);
      } else {
        TraceStays(enc, config, prompt, events, m - 1);
      }
    }
  }

  lemma TraceStays(enc: Encoding, config: Config, prompt: string, events: seq<Event>, n: nat)
    requires n < |events| && events[n].RollsBack? && !Standing(events[..n], events[n].to)
    ensures Trace(enc, config, prompt, events[..n + 1]) == Trace(enc, config, prompt, events[..n])
  {
    assert events[..n + 1][..n] == events[..n];
  }

  // ---- Runs whose records cannot be recomputed ----

  const SMALL := Config(4, 1000)

  function User(text: string): Message {
    Message("user", text)
  }

  function Long(): string {
    seq(600, _ => 'x')
  }

  function Arrive(text: string): Event {
    Arrives(User(text), false, [])
  }

  /** A long event is refitted to a 500-character cap, and compacted three events later. */
  function LosingRun(): seq<Event> {
    [Arrive(Long()), Projects(Some("fitted"), 500, []), Arrive("b"), Arrive("c"), Arrive("d")]
  }

  /** One event that leaves both budgets satisfied only extends the session. */
  lemma QuietArrival(enc: Encoding, s: Session, text: string)
    requires 1 <= |s.messages| == |s.rows| < 4 && Chars(s.messages) + |text| <= 1000
    ensures Apply(enc, SMALL, "", s, Arrive(text)) ==
            Logged(s, Row(User(text))).(messages := s.messages + [User(text)], rows := s.rows + [|s.archive|])
  {
    var pushed := Pushed(s, "", User(text), false);
    CharsAppend(s.messages, [User(text)]);
    assert pushed.messages == s.messages + [User(text)];
    assert Compact(enc, 4, 1000, [], pushed.messages) == Unchanged;
  }

  lemma OpenedArrival(enc: Encoding)
    ensures Apply(enc, SMALL, "", EMPTY_SESSION, Arrive(Long())) ==
            Session([Message("system", ""), User(Long())], [0, 1], [Row(Message("system", "")), Row(User(Long()))],
                    [0, 1], [])
  {
    var base := Opened(EMPTY_SESSION, "");
    QuietArrival(enc, base, Long());
    assert Pushed(base, "", User(Long()), false) == Pushed(EMPTY_SESSION, "", User(Long()), false);
  }

  lemma RefittedOnce(enc: Encoding, s: Session)
    requires s.messages == [Message("system", ""), User(Long())]
    ensures Apply(enc, SMALL, "", s, Projects(Some("fitted"), 500, [])) ==
            s.(messages := [Message("system", ""), User("fitted")])
  {
    var r := Refitted(s, Some("fitted"));
    assert r.messages == [Message("system", ""), User("fitted")];
    CharsOfThree(Message("system", ""), User("fitted"), User("fitted"));
    assert Compact(enc, 4, 500, [], r.messages) == Unchanged;
  }

  lemma {:induction false} TraceNextTwo(enc: Encoding, config: Config, prompt: string, events: seq<Event>, n: nat,
                                        e: Event, f: Event)
    requires n + 1 < |events| && events[n] == e && events[n + 1] == f && !e.RollsBack? && !f.RollsBack?
    ensures Trace(enc, config, prompt, events[..n + 2]) ==
            Next(enc, config, prompt, Next(enc, config, prompt, Trace(enc, config, prompt, events[..n]), e), f)
  {
    TraceNext(enc, config, prompt, events, n);
    TraceNext(enc, config, prompt, events, n + 1);
  }

  lemma TraceRollsBack(enc: Encoding, config: Config, prompt: string, events: seq<Event>, n: nat)
    requires n < |events| && events[n].RollsBack? && Standing(events[..n], events[n].to)
    ensures Trace(enc, config, prompt, events[..n + 1]) ==
            RolledBack(Trace(enc, config, prompt, events[..events[n].to]), Trace(enc, config, prompt, events[..n]),
                       events[n].draft)
  {
    assert events[..n + 1][..n] == events[..n] && events[..n][..events[n].to] == events[..events[n].to];
  }

  lemma TraceNext(enc: Encoding, config: Config, prompt: string, events: seq<Event>, n: nat)
    requires n < |events| && !events[n].RollsBack?
    ensures Trace(enc, config, prompt, events[..n + 1]) ==
            Next(enc, config, prompt, Trace(enc, config, prompt, events[..n]), events[n])
  {
    assert events[..n + 1][..n] == events[..n];
  }

  /** The first two steps: the latest carried text is no longer the one on the ledger. */
  lemma LosingStart(enc: Encoding)
    ensures Trace(enc, SMALL, "", LosingRun()[..2]) ==
            History(Session([Message("system", ""), User("fitted")], [0, 1],
                            [Row(Message("system", "")), Row(User(Long()))], [0, 1], []), {1}, [], {})
  {
    var run := LosingRun();
    assert run[..0] == [];
    TraceNext(enc, SMALL, "", run, 0);
    OpenedArrival(enc);
    TraceNext(enc, SMALL, "", run, 1);
    RefittedOnce(enc, After(enc, SMALL, "", run[..1]));
    assert |Long()| != |"fitted"|;
  }

  function Carried(texts: seq<string>): seq<Message> {
    [Message("system", "")] + seq(|texts|, i requires 0 <= i < |texts| => User(texts[i]))
  }

  /** The session after quiet arrivals: texts carried in order, nothing compacted. */
  ghost predicate Quiet(s: Session, texts: seq<string>) {
    && s.messages == Carried(texts) && |s.archive| == |texts| + 1 && s.records == []
    && s.rows == Count(|texts| + 1) && s.places == Count(|texts| + 1)
  }

  function Count(n: nat): seq<nat> {
    seq(n, i requires 0 <= i => i)
  }

  lemma QuietGoesOn(enc: Encoding, h: History, texts: seq<string>, text: string)
    requires Quiet(h.s, texts) && |texts| < 3 && Chars(h.s.messages) + |text| <= 1000
    ensures var t := Next(enc, SMALL, "", h, Arrive(text));
      && Quiet(t.s, texts + [text]) && t.altered == h.altered && t.past == h.past && t.dropped == h.dropped
      && Chars(t.s.messages) == Chars(h.s.messages) + |text|
  {
    var t := Next(enc, SMALL, "", h, Arrive(text));
    QuietArrival(enc, h.s, text);
    CharsAppend(h.s.messages, [User(text)]);
    assert t.s.messages == Carried(texts + [text]);
    assert t.s.rows == Count(|texts| + 2) && t.s.places == Count(|texts| + 2);
  }

  /** Two more messages fit, and the message budget is spent. */
  lemma {:induction false} LosingMiddle(enc: Encoding)
    ensures var h := Trace(enc, SMALL, "", LosingRun()[..4]);
      Quiet(h.s, ["fitted", "b", "c"]) && h.altered == {1} && h.past == [] && h.dropped == {}
  {
    var run := LosingRun();
    LosingQuiet(enc);
    LosingTail(enc);
    QuietTwice(enc, Trace(enc, SMALL, "", run[..2]), "fitted", "b", "c");
  }

  lemma LosingTail(enc: Encoding)
    ensures var run := LosingRun();
      Trace(enc, SMALL, "", run[..4]) ==
      Next(enc, SMALL, "", Next(enc, SMALL, "", Trace(enc, SMALL, "", run[..2]), Arrive("b")), Arrive("c"))
  {
    TraceNext(enc, SMALL, "", LosingRun(), 2);
    TraceNext(enc, SMALL, "", LosingRun(), 3);
  }

  lemma QuietTwice(enc: Encoding, h: History, first: string, second: string, third: string)
    requires Quiet(h.s, [first]) && Chars(h.s.messages) + |second| + |third| <= 1000
    ensures var t := Next(enc, SMALL, "", Next(enc, SMALL, "", h, Arrive(second)), Arrive(third));
      Quiet(t.s, [first, second, third]) && t.altered == h.altered && t.past == h.past && t.dropped == h.dropped
  {
    assert [first] + [second] == [first, second] && [first, second] + [third] == [first, second, third];
    QuietGoesOn(enc, h, [first], second);
    QuietGoesOn(enc, Next(enc, SMALL, "", h, Arrive(second)), [first, second], third);
  }

  lemma LosingQuiet(enc: Encoding)
    ensures var h := Trace(enc, SMALL, "", LosingRun()[..2]);
      && Quiet(h.s, ["fitted"]) && h.altered == {1} && h.past == [] && h.dropped == {} && Chars(h.s.messages) == 6
  {
    LosingStart(enc);
    CharsOfThree(Message("system", ""), User("fitted"), User("fitted"));
    var s := Trace(enc, SMALL, "", LosingRun()[..2]).s;
    assert s.messages == Carried(["fitted"]) && s.rows == Count(2) && s.places == Count(2);
  }

  /** The next event compacts the oldest one, whatever the encoding. */
  lemma FifthCompactsOldest(enc: Encoding, s: Session)
    requires Quiet(s, ["fitted", "b", "c"])
    ensures var t := Apply(enc, SMALL, "", s, Arrive("d")); |t.records| == 1 && 1 in t.records[0].rows
  {
    var pushed := Pushed(s, "", User("d"), false);
    assert pushed.rows == [0, 1, 2, 3, 4] && pushed.messages == s.messages + [User("d")];
    LongSessionCompacts(enc, pushed.messages);
    OldestIsRecorded(pushed, Compact(enc, 4, 1000, [], pushed.messages));
  }

  lemma LongSessionCompacts(enc: Encoding, messages: seq<Message>)
    requires |messages| > 4 && |messages[0].content| + |messages[|messages| - 1].content| <= 1000
    ensures var o := Compact(enc, 4, 1000, [], messages); o.Compacted? && o.compacted != []
  {
    CompactionFailsExactlyWhenEndsDoNotFit(enc, 4, 1000, [], messages);
    CompactionIsFaithful(enc, 4, 1000, [], messages);
  }

  lemma OldestIsRecorded(s: Session, o: Outcome)
    requires |s.rows| >= 2 && o.Compacted? && o.compacted != []
    ensures var t := Settle(s, o); |t.records| == |s.records| + 1 && s.rows[1] in t.records[|s.records|].rows
  {
    assert From(Upto(s.rows, 1 + |o.compacted|), 1)[0] == s.rows[1];
  }

  /** A concrete run: the record compacts the refitted event, and its hash cannot be recomputed from the ledger. */
  lemma RefittedEventIsLost(enc: Encoding)
    requires CollisionFree(enc)
    ensures var s := After(enc, SMALL, "", LosingRun()); |s.records| == 1 && !Recomputable(enc, s, 0)
  {
    var run := LosingRun();
    LosingMiddle(enc);
    TraceNext(enc, SMALL, "", run, 4);
    assert run[..5] == run;
    FifthCompactsOldest(enc, After(enc, SMALL, "", run[..4]));
    RecordIsRecomputableExactly(enc, SMALL, "", run, 0);
    assert Trace(enc, SMALL, "", run).past == [{1}];
  }

  /** Full records of 600 characters, and minimal ones of one. */
  const WIDE := Encoding(Escape, (n: nat, sha: string) => Long(), (n: nat, sha: string, ids: seq<string>) => "m", "b")

  /** A turn whose event is compacted at the configured cap, whose projection then compacts that surrogate at the
      smaller one without changing a text, and which is superseded. */
  function SupersededRun(): seq<Event> {
    [Arrive("a"), Arrive("b"), Arrive("c"), Arrive("d"), Projects(None, 500, []), RollsBack(3, false)]
  }

  lemma {:induction false} SupersededFirst()
    ensures var h := Trace(WIDE, SMALL, "", SupersededRun()[..1]);
      Quiet(h.s, ["a"]) && h.dropped == {} && Chars(h.s.messages) == 1
  {
    var run := SupersededRun();
    var start := Opened(EMPTY_SESSION, "");
    assert run[..0] == [];
    TraceNext(WIDE, SMALL, "", run, 0);
    var h := History(start, {}, [], {});
    assert Quiet(start, []);
    QuietGoesOn(WIDE, h, [], "a");
    assert Pushed(start, "", User("a"), false) == Pushed(EMPTY_SESSION, "", User("a"), false);
    assert [] + ["a"] == ["a"];
  }

  lemma {:induction false} SupersededStart()
    ensures var h := Trace(WIDE, SMALL, "", SupersededRun()[..3]); Quiet(h.s, ["a", "b", "c"]) && h.dropped == {}
  {
    var run := SupersededRun();
    SupersededFirst();
    TraceNextTwo(WIDE, SMALL, "", run, 1, run[1], run[2]);
    QuietTwice(WIDE, Trace(WIDE, SMALL, "", run[..1]), "a", "b", "c");
  }


  lemma CharsOfFour(a: Message, b: Message, c: Message, d: Message)
    ensures Chars([a, b, c, d]) == |a.content| + |b.content| + |c.content| + |d.content|
  {
    assert [a, b, c, d] == [a, b] + [c, d] && [a, b] == [a] + [b] && [c, d] == [c] + [d];
    CharsAppend([a, b], [c, d]);
    CharsAppend([a], [b]);
    CharsAppend([c], [d]);
  }

  /** The event of the superseded turn: the two oldest messages give way to a surrogate, row 5. */
  lemma SupersededCompacts(s: Session)
    requires Quiet(s, ["a", "b", "c"])
    ensures var t := Apply(WIDE, SMALL, "", s, Arrive("d"));
      && t.messages == [Message("system", ""), User(Long()), User("c"), User("d")] && t.rows == [0, 5, 3, 4]
      && |t.archive| == 6 && t.places == Count(6) && |t.records| == 1
  {
    FiveShortPushed(s);
    FiveShortCompacts();
    FiveShortSettled(Pushed(s, "", User("d"), false), Candidate(WIDE, FiveShort(), 3));
  }

  ghost predicate HoldsFive(s: Session) {
    && s.messages == FiveShort() && s.rows == [0, 1, 2, 3, 4]
    && |s.archive| == 5 && s.places == Count(5) && s.records == []
  }

  lemma FiveShortPushed(s: Session)
    requires Quiet(s, ["a", "b", "c"])
    ensures HoldsFive(Pushed(s, "", User("d"), false))
  {
    assert s.messages == [Message("system", ""), User("a"), User("b"), User("c")] && s.rows == [0, 1, 2, 3];
    assert Count(5) == Count(4) + [4];
  }

  lemma FiveShortSettled(s: Session, o: Outcome)
    requires HoldsFive(s) && o.Compacted? && |o.compacted| == 2 && o.surrogate.Some?
    ensures var t := Settle(s, o);
      && t.messages == o.messages && t.rows == [0, 5, 3, 4]
      && |t.archive| == 6 && t.places == Count(6) && |t.records| == 1
  {
    assert Upto(s.rows, 1) == [0] && From(s.rows, 3) == [3, 4];
    assert Count(6) == Count(5) + [5];
  }

  function FiveShort(): seq<Message> {
    [Message("system", ""), User("a"), User("b"), User("c"), User("d")]
  }

  lemma FiveShortCompacts()
    ensures var o := Candidate(WIDE, FiveShort(), 3);
      && Compact(WIDE, 4, 1000, [], FiveShort()) == o && |o.compacted| == 2 && o.surrogate == Some(User(Long()))
      && o.messages == [Message("system", ""), User(Long()), User("c"), User("d")]
  {
    var m, o := FiveShort(), Candidate(WIDE, FiveShort(), 3);
    assert Chars(m) == 4 by {
      CharsOfFour(m[0], m[1], m[2], m[3]);
      CharsAppend(m[..4], [m[4]]);
      assert m == m[..4] + [m[4]] && m[..4] == [m[0], m[1], m[2], m[3]];
    }
    assert o.messages == [m[0], User(Long()), m[3], m[4]];
    assert Chars(o.messages) == 602 by {
      CharsOfFour(m[0], User(Long()), m[3], m[4]);
    }
    assert Widest(WIDE, 1000, m, 3) == o;
  }

  /** The projection of the superseded turn: the surrogate itself is compacted, under a second record. */
  lemma SupersededProjects(s: Session)
    requires s.messages == [Message("system", ""), User(Long()), User("c"), User("d")] && s.rows == [0, 5, 3, 4]
    ensures var t := Apply(WIDE, SMALL, "", s, Projects(None, 500, []));
      |t.records| == |s.records| + 1 && 5 in t.records[|s.records|].rows
  {
    var m := s.messages;
    CharsOfFour(m[0], m[1], m[2], m[3]);
    assert |m[1].content| == 600;
    WideCompacts(m);
    OldestIsRecorded(s, Compact(WIDE, 4, 500, [], m));
    assert Refitted(s, None) == s;
  }

  lemma WideCompacts(m: seq<Message>)
    requires |m| == 4 && Chars(m) > 500 && |m[0].content| + |m[3].content| <= 500
    ensures var o := Compact(WIDE, 4, 500, [], m); o.Compacted? && o.compacted != []
  {
    CompactionFailsExactlyWhenEndsDoNotFit(WIDE, 4, 500, [], m);
    CompactionIsFaithful(WIDE, 4, 500, [], m);
  }

  /** A concrete run: no text is altered, yet after the rollback the second record stands for a surrogate that is on no
      ledger any more, and the ledger is shorter than it was. */
  lemma SupersededTurnLosesRecord()
    ensures var turn, s := After(WIDE, SMALL, "", SupersededRun()[..5]), After(WIDE, SMALL, "", SupersededRun());
      && |LedgerOf(s)| == 4 < |LedgerOf(turn)| && |s.records| == 2 && !Recomputable(WIDE, s, 1)
  {
    var run := SupersededRun();
    SupersededTurn();
    SupersededRollsBack();
    var s := After(WIDE, SMALL, "", run);
    assert Filed(s) by {
      RunsAreSound(WIDE, SMALL, "", run);
    }
    RecomputableMeans(WIDE, s, 1);
    assert 5 in s.records[1].rows && 5 !in s.places;
  }

  lemma {:induction false} SupersededTurn()
    ensures var s := After(WIDE, SMALL, "", SupersededRun()[..5]);
      |s.records| == 2 && 5 in s.records[1].rows && |s.places| >= 6
  {
    var run := SupersededRun();
    var s := After(WIDE, SMALL, "", run[..4]);
    SupersededEvent();
    SupersededProjects(s);
    SupersededGrows();
    TraceNext(WIDE, SMALL, "", run, 4);
    assert After(WIDE, SMALL, "", run[..5]) == Apply(WIDE, SMALL, "", s, Projects(None, 500, []));
  }

  lemma {:induction false} SupersededEvent()
    ensures var s := After(WIDE, SMALL, "", SupersededRun()[..4]);
      && s.messages == [Message("system", ""), User(Long()), User("c"), User("d")] && s.rows == [0, 5, 3, 4]
      && |s.places| == 6 && |s.records| == 1
  {
    var run := SupersededRun();
    var s := After(WIDE, SMALL, "", run[..3]);
    SupersededStart();
    SupersededCompacts(s);
    TraceNext(WIDE, SMALL, "", run, 3);
    assert After(WIDE, SMALL, "", run[..4]) == Apply(WIDE, SMALL, "", s, Arrive("d"));
  }

  lemma SupersededGrows()
    ensures var run := SupersededRun();
      |After(WIDE, SMALL, "", run[..4]).places| <= |After(WIDE, SMALL, "", run[..5]).places|
  {
    var run := SupersededRun();
    var h := Trace(WIDE, SMALL, "", run[..4]);
    TraceNext(WIDE, SMALL, "", run, 4);
    RunsAreSound(WIDE, SMALL, "", run[..4]);
    NextIsSound(WIDE, SMALL, "", h, run[4]);
  }

  lemma {:induction false} SupersededRollsBack()
    ensures var run := SupersededRun();
      var s := After(WIDE, SMALL, "", run);
      s.records == After(WIDE, SMALL, "", run[..5]).records && s.places == Count(4)
  {
    var run := SupersededRun();
    assert run[..6] == run && Standing(run[..5], 3);
    TraceRollsBack(WIDE, SMALL, "", run, 5);
    SupersededStart();
    var base, turn := Trace(WIDE, SMALL, "", run[..3]), Trace(WIDE, SMALL, "", run[..5]);
    assert Trace(WIDE, SMALL, "", run) == RolledBack(base, turn, false);
    assert base.s.places == Count(4);
  }


  // ---- The session object ----

  lemma LedgerOfLogged(s: Session, row: LedgerRow)
    requires forall p :: p in s.places ==> p < |s.archive|
    ensures LedgerOf(Logged(s, row)) == LedgerOf(s) + [row]
  {
    var t := Logged(s, row);
    forall i | 0 <= i < |t.places| ensures LedgerOf(t)[i] == (LedgerOf(s) + [row])[i] {
      if i < |s.places| {
        assert s.places[i] in s.places && t.places[i] == s.places[i];
      }
    }
  }

  datatype Snapshot = Snapshot(messages: seq<Message>, ledger: seq<LedgerRow>, records: seq<CompactionRecord>,
                               rows: seq<nat>, places: seq<nat>)

  class PersistentSession {
    const enc: Encoding
    const config: Config
    const prompt: string
    var messages: seq<Message>
    var ledger: seq<LedgerRow>
    var records: seq<CompactionRecord>
    // history variables
    var rows: seq<nat>
    var archive: seq<LedgerRow>
    var places: seq<nat>

    /** The ledger is the rows at its places. */
    ghost predicate Valid()
      reads this
    {
      (forall p :: p in places ==> p < |archive|) && ledger == LedgerOf(Model())
    }

    constructor (enc: Encoding, config: Config, prompt: string)
      ensures this.enc == enc && this.config == config && this.prompt == prompt
      ensures Valid() && Model() == EMPTY_SESSION
    {
      this.enc, this.config, this.prompt := enc, config, prompt;
      messages, ledger, records, rows := [], [], [], [];
      archive, places := [], [];
    }

    function Model(): Session
      reads this
    {
      Session(messages, rows, archive, places, records)
    }

    /** `self._session_ledger.append(row)`. */
    method Log(row: LedgerRow)
      requires Valid()
      modifies this`ledger, this`archive, this`places
      ensures Valid() && Model() == Logged(old(Model()), row) && ledger == old(ledger) + [row]
    {
      LedgerOfLogged(Model(), row);
      ledger := ledger + [row];
      archive, places := archive + [row], places + [|archive|];
    }

    method EnsureSession()
      requires Valid()
      modifies this`messages, this`rows, this`ledger, this`archive, this`places
      ensures Valid() && Model() == Opened(old(Model()), prompt)
    {
      if messages == [] {
        messages, rows := [Message("system", prompt)], [|archive|];
        Log(Row(Message("system", prompt)));
      }
    }

    /** The surrogate that fits `room`, found by dropping memory ids one at a time. */
    method FitSummary(n: nat, sha: string, memoryIds: seq<string>, room: int) returns (content: Option<string>)
      ensures content == MinimalSummary(enc, n, sha, memoryIds, room)
    {
      var ids := memoryIds;
      var minimal := enc.minimal(n, sha, ids);
      while ids != [] && |minimal| > room
        invariant minimal == enc.minimal(n, sha, ids)
        invariant FittingIds(enc, n, sha, ids, room) == FittingIds(enc, n, sha, memoryIds, room)
        decreases |ids|
      {
        ids := ids[..|ids| - 1];
        minimal := enc.minimal(n, sha, ids);
      }
      if |minimal| > room {
        minimal := enc.minimal(n, if |sha| <= 16 then sha else sha[..16], ids);
      }
      if |minimal| > room {
        minimal := enc.bare;
      }
      content := if |minimal| <= room then Some(minimal) else None;
    }

    /** `_compact_persistent_context`; `ok` is false where the source raises, leaving the session as it was. */
    method CompactContext(maxChars: int, memoryIds: seq<string>) returns (ok: bool)
      requires Valid() && messages != []
      modifies this`messages, this`rows, this`ledger, this`records, this`archive, this`places
      ensures Valid()
      ensures var o := Compact(enc, MessageCap(config), maxChars, memoryIds, old(messages));
        ok == !o.Raised? && Model() == Settle(old(Model()), o)
    {
      var cap, n, chars := MessageCap(config), |messages|, Chars(messages);
      if n <= cap && chars <= maxChars {
        return true;
      }
      var tailCount := TailCount(cap, chars > maxChars, n);
      if n - tailCount <= 1 {
        return chars <= maxChars;
      }
      var candidate := FullRecord(maxChars, n - tailCount);
      var squeezed := Squeeze(candidate, maxChars, memoryIds);
      assert squeezed == Compact(enc, cap, maxChars, memoryIds, messages);
      if squeezed.Raised? {
        return false;
      }
      ghost var before := Model();
      Adopt(squeezed);
      assert Model() == Settle(before, squeezed);
      ok := true;
    }

    /** The full record with the wanted tail, or again with the latest message alone. */
    method FullRecord(maxChars: int, cut: nat) returns (candidate: Outcome)
      requires 1 < cut < |messages|
      ensures candidate == Widest(enc, maxChars, messages, cut)
    {
      candidate := Candidate(enc, messages, cut);
      if Chars(candidate.messages) > maxChars && cut < |messages| - 1 {
        candidate := Candidate(enc, messages, |messages| - 1);
      }
    }

    method Adopt(o: Outcome)
      requires Valid() && o.Compacted?
      modifies this`messages, this`rows, this`ledger, this`records, this`archive, this`places
      ensures Valid() && Model() == Settle(old(Model()), o)
    {
      var cut := 1 + |o.compacted|;
      messages := o.messages;
      records := records + [CompactionRecord(o.count, o.sha, From(Upto(rows, cut), 1))];
      rows := Upto(rows, 1) + (if o.surrogate.Some? then [|archive|] else []) + From(rows, cut);
      Log(LedgerRow(o.mirrored, Some(o.sha)));
    }

    method Squeeze(candidate: Outcome, maxChars: int, memoryIds: seq<string>) returns (o: Outcome)
      requires messages != [] && candidate.Compacted?
      ensures o == Squeezed(enc, maxChars, memoryIds, messages, candidate)
    {
      if Chars(candidate.messages) <= maxChars {
        return candidate;
      }
      var ends := [messages[0], messages[|messages| - 1]];
      var content := FitSummary(candidate.count, candidate.sha, memoryIds, maxChars - Chars(ends));
      if content.Some? {
        var summary := Message("user", content.value);
        o := candidate.(messages := [ends[0], summary, ends[1]], surrogate := Some(summary), mirrored := summary);
      } else if Chars(ends) > maxChars {
        o := Raised;
      } else {
        o := candidate.(messages := ends, surrogate := None);
      }
    }

    method AppendMessage(message: Message, restart: bool, memoryIds: seq<string>) returns (ok: bool)
      requires Valid()
      modifies this`messages, this`rows, this`ledger, this`records, this`archive, this`places
      ensures Valid()
      ensures var (t, o) := Appended(enc, config, prompt, memoryIds, old(Model()), message, restart);
        Model() == t && ok == !o.Raised?
    {
      PushMessage(message, restart);
      ok := CompactContext(CharCap(config), memoryIds);
    }

    method PushMessage(message: Message, restart: bool)
      requires Valid()
      modifies this`messages, this`rows, this`ledger, this`archive, this`places
      ensures Valid() && Model() == Pushed(old(Model()), prompt, message, restart) && messages != []
    {
      EnsureSession();
      if restart {
        messages, rows := messages[..1], Upto(rows, 1);
      } else {
        rows := Upto(rows, |messages|);
      }
      messages, rows := messages + [message], rows + [|archive|];
      Log(Row(message));
    }

    /** A response goes to the ledger and is not carried. */
    method RecordResponse(response: Message)
      requires Valid()
      modifies this`messages, this`rows, this`ledger, this`archive, this`places
      ensures Valid() && Model() == Apply(enc, config, prompt, old(Model()), Answers(response))
    {
      EnsureSession();
      Log(Row(response));
    }

    /** One round of `_provider_cap_aware_projection`. The latest text is replaced even when compacting then fails. */
    method ProjectLatest(text: Option<string>, maxChars: int, memoryIds: seq<string>) returns (ok: bool)
      requires Valid() && messages != []
      modifies this`messages, this`rows, this`ledger, this`records, this`archive, this`places
      ensures Valid()
      ensures var (t, o) := Projected(enc, config, text, maxChars, memoryIds, old(Model()));
        Model() == t && ok == !o.Raised?
    {
      RefitLatest(text);
      ok := CompactContext(Max(500, maxChars), memoryIds);
    }

    method RefitLatest(text: Option<string>)
      requires Valid()
      modifies this`messages
      ensures Valid() && Model() == Refitted(old(Model()), text) && |messages| == |old(messages)|
    {
      if |messages| >= 2 && text.Some? {
        var last := |messages| - 1;
        messages := messages[..last] + [messages[last].(content := text.value)];
      }
    }

    method DropHistory()
      requires Valid()
      modifies this`messages, this`rows
      ensures Valid() && Model() == EndsOnly(old(Model()))
    {
      if |messages| >= 2 {
        var last := |messages| - 1;
        messages, rows := [messages[0], messages[last]], Upto(rows, 1) + From(rows, last);
      }
    }

    /** The session part of `snapshot_behavioral_state`; `deliberate` also saves the records. */
    method TakeSnapshot() returns (snapshot: Snapshot)
      ensures snapshot == Snapshot(messages, ledger, records, rows, places)
    {
      snapshot := Snapshot(messages, ledger, records, rows, places);
    }

    /** Put the session back to `base`. A superseded turn keeps its compaction records, a draft round does not. */
    method RestoreSnapshot(snapshot: Snapshot, draft: bool, ghost base: Session)
      requires Valid() && (forall p :: p in base.places ==> p < |base.archive|) && base.archive <= archive
      requires snapshot == Snapshot(base.messages, LedgerOf(base), base.records, base.rows, base.places)
      modifies this
      ensures Valid() && Model() == Restored(base, old(Model()), draft) && ledger == LedgerOf(base)
    {
      messages, ledger, rows, places := snapshot.messages, snapshot.ledger, snapshot.rows, snapshot.places;
      if draft {
        records := snapshot.records;
      }
      forall i | 0 <= i < |places| ensures LedgerOf(Model())[i] == LedgerOf(base)[i] {
        assert places[i] in places;
      }
      assert LedgerOf(Model()) == LedgerOf(base);
    }
  }
}
