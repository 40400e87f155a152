/** The bounded retry loop of baselines/llm_agent.py and its audit ledger: `_call_with_transient_provider_retries`,
    `_record_provider_request`, `_record_provider_action_response`, the no-tools fallback inside the provider calls,
    and `feasible_provider_retry_attempts`. What the network does is an arbitrary script. */
module ProviderRetry {
  import opened Common

  datatype Config = Config(maxAttempts: nat, timeout: real, maxElapsed: real, abortPolicy: bool)

  ghost predicate ValidConfig(config: Config) {
    config.maxAttempts >= 1 && config.timeout > 0.0 && config.maxElapsed > 0.0
  }

  // ---- The environment's script ----

  /** Canceled, quota and preflight errors are all final; only `Transient` ones are retried. */
  datatype Kind = Budget | Canceled | ToolCalling | Transient | Other

  /** What happens between the budget check and the appended request record. */
  datatype Gate = Admit(wait: real) | Reject(wait: real, kind: Kind) | Broken

  datatype Result = Completed | Fails(kind: Kind)

  /** A transport: how long it lasts, when its last deadline check falls, and how it ends. */
  datatype Reply = Reply(duration: real, checkedAt: real, result: Result)

  datatype Attempt = Attempt(
    canceledAtStart: bool, gate: Gate, canceledBeforeSend: bool, reply: Reply,
    fallbackGate: Gate, fallbackReply: Reply, retryAfter: Option<real>, canceledInBackoff: bool)

  type Script = nat -> Attempt

  ghost predicate SaneGate(gate: Gate) {
    match gate
    case Admit(wait) => wait >= 0.0
    case Reject(wait, kind) => wait >= 0.0 && !kind.Transient? && !kind.ToolCalling?
    case Broken => true
  }

  ghost predicate SaneReply(reply: Reply) {
    0.0 <= reply.checkedAt <= reply.duration && (reply.result.Fails? ==> !reply.result.kind.Budget?)
  }

  /** Time only moves forward; local refusals (preflight, quota, limiter, cancellation) are never transient; and no
      provider error is mistaken for the loop's own budget error. */
  ghost predicate Sane(script: Script) {
    forall i: nat :: SaneGate(script(i).gate) && SaneReply(script(i).reply)
      && SaneGate(script(i).fallbackGate) && SaneReply(script(i).fallbackReply)
      && (script(i).retryAfter.Some? ==> script(i).retryAfter.value >= 0.0)
  }

  // ---- Ledger ----

  /** Request `k` has sequence `k + 1` and identity record `closed[k]`; each response names a request sequence. */
  datatype Ledger = Ledger(requests: nat, closed: seq<bool>, responses: seq<nat>)

  /** One logical call: `named` is the sequence the retry state would put on a budget error. */
  datatype Call = Call(ledger: Ledger, clock: real, deadline: real, attempts: nat, retries: nat, named: Option<nat>,
                       transports: seq<real>)

  datatype Error = Error(kind: Kind, sequence: Option<nat>)
  datatype Verdict = Done | Again | Raises(kind: Kind)

  ghost predicate Paired(l: Ledger) {
    && |l.closed| == l.requests == |l.responses|
    && forall k :: 0 <= k < l.requests ==> l.responses[k] == k + 1 && l.closed[k]
  }

  function AppendRequest(l: Ledger): Ledger {
    l.(requests := l.requests + 1, closed := l.closed + [false])
  }

  /** Append a response and close the identity record it names. */
  function AppendResponse(l: Ledger, sequence: nat): Ledger {
    l.(responses := l.responses + [sequence],
       closed := if 1 <= sequence <= |l.closed| then l.closed[sequence - 1 := true] else l.closed)
  }

  /** `_record_provider_request`. */
  function RecordRequest(config: Config, c: Call, gate: Gate): (Call, Option<Error>) {
    if c.clock >= c.deadline || c.attempts >= config.maxAttempts then (c, Some(Error(Budget, c.named)))
    else
      var tried := c.(attempts := c.attempts + 1);
      match gate
      case Broken => (tried, Some(Error(Other, None)))
      case Reject(wait, kind) =>
        var appended := tried.(ledger := AppendRequest(c.ledger), clock := c.clock + wait);
        (appended, Some(Error(kind, Some(appended.ledger.requests))))
      case Admit(wait) =>
        var appended := tried.(ledger := AppendRequest(c.ledger), clock := c.clock + wait);
        (appended,
         if appended.clock >= c.deadline then Some(Error(Budget, Some(appended.ledger.requests))) else None)
  }

  /** Run a transport; a completed one is checked against the deadline under the name held by the retry state. */
  function Send(c: Call, reply: Reply): (Call, Option<Error>) {
    var sent := c.(transports := c.transports + [c.clock]);
    match reply.result
    case Fails(kind) => (sent.(clock := c.clock + reply.duration), Some(Error(kind, None)))
    case Completed =>
      if c.clock + reply.checkedAt >= c.deadline then
        (sent.(clock := c.clock + reply.checkedAt), Some(Error(Budget, c.named)))
      else (sent.(clock := c.clock + reply.duration), None)
  }

  /** A tool-calling failure outside the abort policy is answered once without tools, under a request of its own. */
  function Invoke(config: Config, c: Call, a: Attempt): (Call, Option<Error>) {
    var (sent, error) := Send(c, a.reply);
    if error.Some? && error.value.kind.ToolCalling? && !config.abortPolicy then
      var answered := sent.(ledger := AppendResponse(sent.ledger, sent.ledger.requests));
      var (recorded, refused) := RecordRequest(config, answered, a.fallbackGate);
      if refused.Some? then (recorded, refused) else Send(recorded, a.fallbackReply)
    else (sent, error)
  }

  /** The body of the inner `try`. */
  function Try(config: Config, c: Call, a: Attempt): (Call, Option<Error>) {
    var (recorded, refused) := RecordRequest(config, c, a.gate);
    if refused.Some? then (recorded, refused)
    else
      var named := recorded.(named := Some(recorded.ledger.requests));
      if a.canceledBeforeSend then (named, Some(Error(Canceled, None))) else Invoke(config, named, a)
  }

  function Blamed(c: Call, e: Error): nat {
    if e.sequence.Some? && e.sequence.value != 0 then e.sequence.value else c.ledger.requests
  }

  /** The handler's response record, unless the last response already answers the blamed request. */
  function Answered(c: Call, e: Error): Call {
    var sequence := Blamed(c, e);
    var responses := c.ledger.responses;
    if sequence != 0 && (responses == [] || responses[|responses| - 1] != sequence)
    then c.(ledger := AppendResponse(c.ledger, sequence)) else c
  }

  /** 5 s doubled per retry up to 60 s, never less than the server's own cooldown. */
  function Delay(retryIndex: nat, retryAfter: Option<real>): real {
    MaxReal(MinReal(5.0 * Doubled(retryIndex), 60.0), if retryAfter.Some? then retryAfter.value else 0.0)
  }

  function Doubled(retryIndex: nat): (r: real)
    ensures r >= 1.0
  {
    if retryIndex <= 1 then 1.0 else 2.0 * Doubled(retryIndex - 1)
  }

  /** The exception handler, from the call and the error it sees. */
  function Handled(config: Config, c: Call, e: Error, a: Attempt): (Call, Verdict) {
    var answered := Answered(c, e);
    var delay := Delay(c.retries + 1, a.retryAfter);
    if !e.kind.Transient? then (answered, Raises(e.kind))
    else if c.attempts >= config.maxAttempts || c.clock + delay >= c.deadline then (answered, Raises(Budget))
    else if a.canceledInBackoff then (answered, Raises(Canceled))
    else (answered.(clock := c.clock + delay, retries := c.retries + 1, named := Some(Blamed(c, e))), Again)
  }

  /** One turn of the loop. */
  function Turn(config: Config, c: Call, a: Attempt): (Call, Verdict) {
    if a.canceledAtStart then (c, Raises(Canceled))
    else if c.clock >= c.deadline then (c, Raises(Budget))
    else
      var (tried, error) := Try(config, c, a);
      if error.None? then (tried, Done) else Handled(config, tried, error.value, a)
  }

  /** The loop from turn `i` on. */
  function Loop(config: Config, c: Call, script: Script, i: nat): (Call, Verdict)
    decreases config.maxAttempts - c.attempts
  {
    var (next, verdict) := Turn(config, c, script(i));
    if verdict.Again? && c.attempts < next.attempts <= config.maxAttempts then Loop(config, next, script, i + 1)
    else (next, verdict)
  }

  function Start(config: Config, ledger: Ledger, clock: real): Call {
    Call(ledger, clock, clock + config.maxElapsed, 0, 0, None, [])
  }

  /** A decision call with the caller's own response record on success. */
  function Decide(config: Config, ledger: Ledger, clock: real, script: Script): (Call, Verdict) {
    var (end, verdict) := Loop(config, Start(config, ledger, clock), script, 0);
    (if verdict.Done? then end.(ledger := AppendResponse(end.ledger, end.ledger.requests)) else end, verdict)
  }

  // ---- Budgets ----

  lemma RequestBounds(config: Config, c: Call, gate: Gate)
    ensures var t := RecordRequest(config, c, gate).0;
      && t.ledger.requests - c.ledger.requests <= t.attempts - c.attempts
      && c.attempts <= t.attempts && c.ledger.requests <= t.ledger.requests && t.deadline == c.deadline
      && (t.attempts > c.attempts ==> t.attempts <= config.maxAttempts)
      && (RecordRequest(config, c, gate).1.None? ==> t.attempts == c.attempts + 1 && t.clock < t.deadline)
  {
  }

  lemma TryBounds(config: Config, c: Call, a: Attempt)
    ensures var t := Try(config, c, a).0;
      && t.ledger.requests - c.ledger.requests <= t.attempts - c.attempts
      && c.attempts <= t.attempts && c.ledger.requests <= t.ledger.requests && t.deadline == c.deadline
      && (t.attempts > c.attempts ==> t.attempts <= config.maxAttempts)
  {
    RequestBounds(config, c, a.gate);
    var recorded := RecordRequest(config, c, a.gate).0;
    var sent := Send(recorded.(named := Some(recorded.ledger.requests)), a.reply).0;
    RequestBounds(config, sent.(ledger := AppendResponse(sent.ledger, sent.ledger.requests)), a.fallbackGate);
  }

  lemma TurnBounds(config: Config, c: Call, a: Attempt)
    requires c.attempts <= config.maxAttempts
    ensures var (t, verdict) := Turn(config, c, a);
      && c.attempts <= t.attempts <= config.maxAttempts
      && t.ledger.requests - c.ledger.requests <= t.attempts - c.attempts
      && t.deadline == c.deadline
      && (verdict.Again? ==> t.attempts < config.maxAttempts && t.clock < t.deadline)
  {
    TryBounds(config, c, a);
  }

  /** A transient failure is always that of a recorded attempt. */
  lemma AgainMeansAttempted(config: Config, c: Call, a: Attempt)
    requires Turn(config, c, a).1.Again?
    ensures c.attempts < Turn(config, c, a).0.attempts
  {
    RequestBounds(config, c, a.gate);
    var recorded := RecordRequest(config, c, a.gate).0;
    if c.attempts < config.maxAttempts && c.clock < c.deadline {
      var sent := Send(recorded.(named := Some(recorded.ledger.requests)), a.reply).0;
      RequestBounds(config, sent.(ledger := AppendResponse(sent.ledger, sent.ledger.requests)), a.fallbackGate);
    }
  }

  lemma TurnTransports(config: Config, c: Call, a: Attempt)
    requires forall x :: x in c.transports ==> x < c.deadline
    ensures forall x :: x in Turn(config, c, a).0.transports ==> x < c.deadline
  {
    var (recorded, refused) := RecordRequest(config, c, a.gate);
    assert recorded.transports == c.transports;
    if refused.None? {
      InvokeTransports(config, recorded.(named := Some(recorded.ledger.requests)), a);
    }
  }

  lemma InvokeTransports(config: Config, c: Call, a: Attempt)
    requires c.clock < c.deadline && forall x :: x in c.transports ==> x < c.deadline
    ensures forall x :: x in Invoke(config, c, a).0.transports ==> x < c.deadline
  {
    var sent := Send(c, a.reply).0;
    assert sent.transports == c.transports + [c.clock];
  }

  lemma {:induction false} LoopBounds(config: Config, c: Call, script: Script, i: nat)
    requires c.attempts <= config.maxAttempts && forall x :: x in c.transports ==> x < c.deadline
    ensures var (t, verdict) := Loop(config, c, script, i);
      && t.attempts <= config.maxAttempts && !verdict.Again?
      && t.ledger.requests - c.ledger.requests <= t.attempts - c.attempts
      && t.deadline == c.deadline && forall x :: x in t.transports ==> x < c.deadline
    decreases config.maxAttempts - c.attempts
  {
    TurnBounds(config, c, script(i));
    TurnTransports(config, c, script(i));
    if Turn(config, c, script(i)).1.Again? {
      AgainMeansAttempted(config, c, script(i));
    }
    var (next, verdict) := Turn(config, c, script(i));
    if verdict.Again? {
      LoopBounds(config, next, script, i + 1);
    }
  }

  /** One decision call appends at most `maxAttempts` request records, fallbacks included, and starts no transport at
      or past its deadline. */
  lemma CallStaysWithinBudget(config: Config, ledger: Ledger, clock: real, script: Script)
    requires ValidConfig(config)
    ensures var (end, verdict) := Decide(config, ledger, clock, script);
      && !verdict.Again?
      && end.ledger.requests - ledger.requests <= config.maxAttempts
      && forall x :: x in end.transports ==> x < clock + config.maxElapsed
  {
    LoopBounds(config, Start(config, ledger, clock), script, 0);
  }

  // ---- When a call is retried ----

  /** The wait before the k-th retry: 5 s doubled each time, at most a minute, never less than the server's cooldown. */
  function Backoff(k: nat, retryAfter: Option<real>): real {
    var own := if k <= 1 then 5.0 else if k == 2 then 10.0 else if k == 3 then 20.0 else if k == 4 then 40.0 else 60.0;
    if retryAfter.Some? && retryAfter.value > own then retryAfter.value else own
  }

  lemma DelayIsBackoff(k: nat, retryAfter: Option<real>)
    requires k >= 1
    ensures Delay(k, retryAfter) == Backoff(k, retryAfter)
  {
    if k >= 5 {
      DoubledGrows(5, k);
    }
  }

  lemma {:induction false} DoubledGrows(j: nat, k: nat)
    requires j <= k
    ensures Doubled(j) <= Doubled(k)
    decreases k - j
  {
    if j < k {
      DoubledGrows(j, k - 1);
    }
  }

  /** When an attempt begins and how many requests the call has made by then. */
  datatype Moment = Moment(clock: real, attempts: nat)

  /** What becomes of one attempt, told by the clock alone: its end, how it ends, and when its transports started. */
  datatype Fate = Fate(at: Moment, result: Result, sent: seq<real>)

  /** A request is recorded if attempts and time are left, waits at its gate, and must not find the time gone. */
  function Admitted(config: Config, deadline: real, m: Moment, gate: Gate): Fate {
    if m.attempts >= config.maxAttempts || deadline <= m.clock then Fate(m, Fails(Budget), [])
    else if gate.Broken? then Fate(Moment(m.clock, m.attempts + 1), Fails(Other), [])
    else
      var at := Moment(m.clock + gate.wait, m.attempts + 1);
      Fate(at, if gate.Reject? then Fails(gate.kind) else if deadline <= at.clock then Fails(Budget) else Completed, [])
  }

  /** A whole answer counts unless its last check finds the time gone. */
  function Replied(deadline: real, m: Moment, reply: Reply): Fate {
    if reply.result.Completed? && deadline <= m.clock + reply.checkedAt
    then Fate(Moment(m.clock + reply.checkedAt, m.attempts), Fails(Budget), [m.clock])
    else Fate(Moment(m.clock + reply.duration, m.attempts), reply.result, [m.clock])
  }

  /** An attempt that begins at `m`: its request, and one more without tools if tools are what it failed on. */
  function Attempted(config: Config, deadline: real, m: Moment, a: Attempt): Fate {
    var request := Admitted(config, deadline, m, a.gate);
    if a.canceledAtStart then Fate(m, Fails(Canceled), [])
    else if !request.result.Completed? then request
    else if a.canceledBeforeSend then Fate(request.at, Fails(Canceled), [])
    else
      var first := Replied(deadline, request.at, a.reply);
      if first.result != Fails(ToolCalling) || config.abortPolicy then first
      else
        var second := Admitted(config, deadline, first.at, a.fallbackGate);
        var last := if second.result.Completed? then Replied(deadline, second.at, a.fallbackReply) else second;
        last.(sent := first.sent + last.sent)
  }

  /** The conditions under which the k-th retry follows a transient failure. */
  predicate MayRetry(config: Config, deadline: real, failed: Moment, a: Attempt, k: nat) {
    && failed.attempts < config.maxAttempts
    && failed.clock + Backoff(k, a.retryAfter) < deadline
    && !a.canceledInBackoff
  }

  /** When attempt `k` of a call begins, if it is made at all: every earlier one failed transiently and could be
      retried. */
  function Begins(config: Config, deadline: real, start: real, script: Script, k: nat): Option<Moment> {
    if k == 0 then Some(Moment(start, 0))
    else
      var before, a := Begins(config, deadline, start, script, k - 1), script(k - 1);
      if before.None? then None
      else
        var fate := Attempted(config, deadline, before.value, a);
        if fate.result == Fails(Transient) && MayRetry(config, deadline, fate.at, a, k)
        then Some(Moment(fate.at.clock + Backoff(k, a.retryAfter), fate.at.attempts)) else None
  }

  lemma AdmittedIsRecorded(config: Config, c: Call, gate: Gate)
    ensures var (t, error) := RecordRequest(config, c, gate);
      var fate := Admitted(config, c.deadline, MomentOf(c), gate);
      && fate.at == MomentOf(t) && t.deadline == c.deadline && t.retries == c.retries
      && t.transports == c.transports + fate.sent
      && fate.result == (if error.None? then Completed else Fails(error.value.kind))
  {
  }

  lemma RepliedIsSent(c: Call, reply: Reply)
    ensures var (t, error) := Send(c, reply);
      var fate := Replied(c.deadline, MomentOf(c), reply);
      && fate.at == MomentOf(t) && t.deadline == c.deadline && t.retries == c.retries
      && t.transports == c.transports + fate.sent
      && fate.result == (if error.None? then Completed else Fails(error.value.kind))
  {
  }

  lemma AttemptedIsTried(config: Config, c: Call, a: Attempt)
    requires !a.canceledAtStart && c.clock < c.deadline
    ensures var (t, error) := Try(config, c, a);
      var fate := Attempted(config, c.deadline, MomentOf(c), a);
      && fate.at == MomentOf(t) && t.deadline == c.deadline && t.retries == c.retries
      && t.transports == c.transports + fate.sent
      && fate.result == (if error.None? then Completed else Fails(error.value.kind))
  {
    AdmittedIsRecorded(config, c, a.gate);
    var (recorded, refused) := RecordRequest(config, c, a.gate);
    if refused.None? && !a.canceledBeforeSend {
      InvokedIsReplied(config, recorded.(named := Some(recorded.ledger.requests)), a);
    }
  }

  lemma InvokedIsReplied(config: Config, c: Call, a: Attempt)
    ensures var (t, error) := Invoke(config, c, a);
      var first := Replied(c.deadline, MomentOf(c), a.reply);
      var second := Admitted(config, c.deadline, first.at, a.fallbackGate);
      var last := if second.result.Completed? then Replied(c.deadline, second.at, a.fallbackReply) else second;
      var fate := if first.result != Fails(ToolCalling) || config.abortPolicy then first
                  else last.(sent := first.sent + last.sent);
      && fate.at == MomentOf(t) && t.deadline == c.deadline && t.retries == c.retries
      && t.transports == c.transports + fate.sent
      && fate.result == (if error.None? then Completed else Fails(error.value.kind))
  {
    RepliedIsSent(c, a.reply);
    var (sent, error) := Send(c, a.reply);
    if error == Some(Error(ToolCalling, None)) && !config.abortPolicy {
      var answered := sent.(ledger := AppendResponse(sent.ledger, sent.ledger.requests));
      AdmittedIsRecorded(config, answered, a.fallbackGate);
      var (recorded, refused) := RecordRequest(config, answered, a.fallbackGate);
      RepliedIsSent(recorded, a.fallbackReply);
    }
  }

  /** When the transports of the first `k` attempts started. */
  ghost function Sent(config: Config, start: real, script: Script, k: nat): seq<real> {
    if k == 0 then []
    else
      Sent(config, start, script, k - 1) +
      if Made(config, start, script, k - 1) then FateOf(config, start, script, k - 1).sent else []
  }

  /** The call stands at the beginning of attempt `k`. */
  ghost predicate StandsAt(config: Config, c: Call, script: Script, start: real, k: nat) {
    && c.deadline == start + config.maxElapsed && c.retries == k && c.clock < c.deadline
    && Begins(config, c.deadline, start, script, k) == Some(MomentOf(c))
    && c.transports == Sent(config, start, script, k)
  }

  lemma {:induction false} TurnDecides(config: Config, c: Call, script: Script, start: real, k: nat)
    requires StandsAt(config, c, script, start, k)
    ensures var (t, verdict) := Turn(config, c, script(k));
      if verdict.Again? then StandsAt(config, t, script, start, k + 1)
      else t.retries == k && Ended(config, start, script, t, verdict)
  {
    TurnFollowsFate(config, c, script(k));
    var (t, verdict) := Turn(config, c, script(k));
    SentGrows(config, c, script, start, k, t);
    if verdict.Again? {
      NextBegins(config, c, script, start, k);
    }
  }

  lemma {:induction false} NextBegins(config: Config, c: Call, script: Script, start: real, k: nat)
    requires StandsAt(config, c, script, start, k)
    ensures var fate := Attempted(config, c.deadline, MomentOf(c), script(k));
      var wait := Backoff(k + 1, script(k).retryAfter);
      Begins(config, c.deadline, start, script, k + 1) ==
      if fate.result == Fails(Transient) && MayRetry(config, c.deadline, fate.at, script(k), k + 1)
      then Some(Moment(fate.at.clock + wait, fate.at.attempts)) else None
  {
  }

  lemma {:induction false} SentGrows(config: Config, c: Call, script: Script, start: real, k: nat, t: Call)
    requires StandsAt(config, c, script, start, k)
    requires t.transports == c.transports + Attempted(config, c.deadline, MomentOf(c), script(k)).sent
    ensures t.transports == Sent(config, start, script, k + 1)
  {
    assert Made(config, start, script, k);
    assert FateOf(config, start, script, k) == Attempted(config, c.deadline, MomentOf(c), script(k));
  }

  lemma TurnFollowsFate(config: Config, c: Call, a: Attempt)
    requires c.clock < c.deadline
    ensures var (t, verdict) := Turn(config, c, a);
      var fate, k := Attempted(config, c.deadline, MomentOf(c), a), c.retries + 1;
      && t.deadline == c.deadline && t.transports == c.transports + fate.sent
      && if fate.result == Fails(Transient) && MayRetry(config, c.deadline, fate.at, a, k)
         then verdict.Again? && t.retries == k
              && MomentOf(t) == Moment(fate.at.clock + Backoff(k, a.retryAfter), fate.at.attempts)
         else t.retries == c.retries && MomentOf(t) == fate.at
              && verdict == match fate.result
                            case Completed => Done
                            case Fails(kind) =>
                              Raises(if kind.Transient? then GivenUp(config, c.deadline, fate.at, a, k) else kind)
  {
    if !a.canceledAtStart {
      AttemptedIsTried(config, c, a);
      var (tried, error) := Try(config, c, a);
      if error.Some? {
        HandlerDecides(config, tried, error.value, a);
      }
    }
  }

  lemma HandlerDecides(config: Config, c: Call, e: Error, a: Attempt)
    ensures var (t, verdict) := Handled(config, c, e, a);
      var m, k := MomentOf(c), c.retries + 1;
      if e.kind.Transient? && MayRetry(config, c.deadline, m, a, k)
      then verdict.Again? && t.retries == k && t.deadline == c.deadline
           && MomentOf(t) == Moment(m.clock + Backoff(k, a.retryAfter), m.attempts) && t.transports == c.transports
      else t.retries == c.retries && MomentOf(t) == m && t.transports == c.transports
           && t.deadline == c.deadline
           && verdict == Raises(if e.kind.Transient? then GivenUp(config, c.deadline, m, a, k) else e.kind)
  {
    DelayIsBackoff(c.retries + 1, a.retryAfter);
  }

  function MomentOf(c: Call): Moment {
    Moment(c.clock, c.attempts)
  }

  /** Why a transient failure that is not retried ends the call: no budget is left, or else it was canceled. */
  function GivenUp(config: Config, deadline: real, failed: Moment, a: Attempt, k: nat): Kind {
    if failed.attempts < config.maxAttempts && failed.clock + Backoff(k, a.retryAfter) < deadline then Canceled
    else Budget
  }

  /** Attempt `k` is the last one made, and the call ends with it: when, after how many requests, and how. */
  ghost predicate EndsWith(config: Config, start: real, script: Script, k: nat, end: Moment,
                           verdict: Verdict) {
    var deadline := start + config.maxElapsed;
    var m := Begins(config, deadline, start, script, k);
    m.Some? &&
    var fate := Attempted(config, deadline, m.value, script(k));
    end == fate.at &&
    match fate.result
    case Completed => verdict.Done?
    case Fails(kind) =>
      if kind.Transient? then
        !MayRetry(config, deadline, end, script(k), k + 1)
        && verdict == Raises(GivenUp(config, deadline, end, script(k), k + 1))
      else verdict == Raises(kind)
  }

  /** The call has ended with attempt `c.retries`, and its transports are those of the attempts made. */
  ghost predicate Ended(config: Config, start: real, script: Script, c: Call, verdict: Verdict) {
    && EndsWith(config, start, script, c.retries, MomentOf(c), verdict)
    && c.transports == Sent(config, start, script, c.retries + 1)
  }

  lemma {:induction false} LoopEnds(config: Config, c: Call, script: Script, start: real, k: nat)
    requires StandsAt(config, c, script, start, k) && c.attempts <= config.maxAttempts
    ensures var (end, verdict) := Loop(config, c, script, k);
      Ended(config, start, script, end, verdict)
    decreases config.maxAttempts - c.attempts
  {
    TurnDecides(config, c, script, start, k);
    LoopUnfolds(config, c, script, k);
    var (next, verdict) := Turn(config, c, script(k));
    if verdict.Again? {
      LoopEnds(config, next, script, start, k + 1);
    }
  }

  lemma LoopUnfolds(config: Config, c: Call, script: Script, i: nat)
    requires c.attempts <= config.maxAttempts
    ensures var (next, verdict) := Turn(config, c, script(i));
      if verdict.Again? then
        c.attempts < next.attempts <= config.maxAttempts
        && Loop(config, c, script, i) == Loop(config, next, script, i + 1)
      else Loop(config, c, script, i) == (next, verdict)
  {
    TurnBounds(config, c, script(i));
    if Turn(config, c, script(i)).1.Again? {
      AgainMeansAttempted(config, c, script(i));
    }
  }

  lemma {:induction false} BeginsOnlyAfterEarlier(config: Config, deadline: real, start: real, script: Script, j: nat,
                                                  k: nat)
    requires j <= k && Begins(config, deadline, start, script, k).Some?
    ensures Begins(config, deadline, start, script, j).Some?
    decreases k
  {
    if j < k {
      BeginsOnlyAfterEarlier(config, deadline, start, script, j, k - 1);
    }
  }

  /** How every call ends: the attempts it makes are exactly those that begin, each after a transient failure that
      left attempts, time for the backoff and no cancellation; its transports are theirs, and its verdict is the fate of
      the last of them. */
  lemma {:induction false} CallEndsExactly(config: Config, ledger: Ledger, clock: real, script: Script)
    requires ValidConfig(config)
    ensures var (end, verdict) := Decide(config, ledger, clock, script);
      && Ended(config, clock, script, end, verdict)
      && forall k: nat :: Made(config, clock, script, k) <==> k <= end.retries
  {
    LoopEnds(config, Start(config, ledger, clock), script, clock, 0);
    var (end, verdict) := Loop(config, Start(config, ledger, clock), script, 0);
    LastIsLast(config, clock, script, end.retries, MomentOf(end), verdict);
  }

  /** The call makes an attempt `k`, counted from 0. */
  ghost predicate Made(config: Config, start: real, script: Script, k: nat) {
    Begins(config, start + config.maxElapsed, start, script, k).Some?
  }

  lemma {:induction false} LastIsLast(config: Config, start: real, script: Script, last: nat, end: Moment,
                                      verdict: Verdict)
    requires EndsWith(config, start, script, last, end, verdict)
    ensures forall k: nat :: Made(config, start, script, k) <==> k <= last
  {
    var deadline := start + config.maxElapsed;
    assert Begins(config, deadline, start, script, last + 1).None?;
    forall k: nat ensures Made(config, start, script, k) <==> k <= last {
      if k <= last {
        BeginsOnlyAfterEarlier(config, deadline, start, script, k, last);
      } else if Made(config, start, script, k) {
        BeginsOnlyAfterEarlier(config, deadline, start, script, last + 1, k);
      }
    }
  }

  /** A transient failure is followed by another attempt if and only if attempts are left, the backoff ends before the
      deadline and no cancellation falls into it. */
  lemma RetriedExactly(config: Config, ledger: Ledger, clock: real, script: Script, k: nat)
    requires ValidConfig(config)
    requires Made(config, clock, script, k) && FateOf(config, clock, script, k).result == Fails(Transient)
    ensures var end, deadline := Decide(config, ledger, clock, script).0, clock + config.maxElapsed;
      var failed := FateOf(config, clock, script, k).at;
      end.retries > k <==>
        && failed.attempts < config.maxAttempts
        && failed.clock + Backoff(k + 1, script(k).retryAfter) < deadline
        && !script(k).canceledInBackoff
  {
    CallEndsExactly(config, ledger, clock, script);
    NextIsMade(config, clock, script, k);
    assert Made(config, clock, script, k + 1) <==> k + 1 <= Decide(config, ledger, clock, script).0.retries;
  }

  ghost function FateOf(config: Config, start: real, script: Script, k: nat): Fate
    requires Made(config, start, script, k)
  {
    var deadline := start + config.maxElapsed;
    Attempted(config, deadline, Begins(config, deadline, start, script, k).value, script(k))
  }

  lemma {:induction false} NextIsMade(config: Config, start: real, script: Script, k: nat)
    requires Made(config, start, script, k)
    ensures var fate := FateOf(config, start, script, k);
      Made(config, start, script, k + 1) <==>
        fate.result == Fails(Transient) && MayRetry(config, start + config.maxElapsed, fate.at, script(k), k + 1)
  {
  }

  /** A call succeeds if and only if some attempt that begins completes in time. */
  lemma SucceedsExactly(config: Config, ledger: Ledger, clock: real, script: Script)
    requires ValidConfig(config)
    ensures Decide(config, ledger, clock, script).1.Done? <==>
      exists k: nat :: CompletesAt(config, clock, script, k)
  {
    CallEndsExactly(config, ledger, clock, script);
    var (end, verdict) := Decide(config, ledger, clock, script);
    CompletionIsLast(config, clock, script, end.retries, MomentOf(end), verdict);
  }

  ghost predicate CompletesAt(config: Config, start: real, script: Script, k: nat) {
    Made(config, start, script, k) && FateOf(config, start, script, k).result.Completed?
  }

  lemma {:induction false} CompletionIsLast(config: Config, start: real, script: Script, last: nat, end: Moment,
                                            verdict: Verdict)
    requires EndsWith(config, start, script, last, end, verdict)
    ensures verdict.Done? <==> exists k: nat :: CompletesAt(config, start, script, k)
  {
    LastIsLast(config, start, script, last, end, verdict);
    if verdict.Done? {
      assert CompletesAt(config, start, script, last);
    }
    if k: nat :| CompletesAt(config, start, script, k) {
      NextIsMade(config, start, script, k);
      assert !Made(config, start, script, k + 1);
      assert k == last;
    }
  }

  // ---- Audit pairing ----

  /** All requests but the last are answered in order; the last one is still open. */
  ghost predicate OneOpen(l: Ledger) {
    && |l.closed| == l.requests == |l.responses| + 1 && !l.closed[l.requests - 1]
    && forall k :: 0 <= k < |l.responses| ==> l.responses[k] == k + 1 && l.closed[k]
  }

  lemma AppendingOpens(l: Ledger)
    requires Paired(l)
    ensures OneOpen(AppendRequest(l))
  {
  }

  lemma AnsweringCloses(l: Ledger)
    requires OneOpen(l)
    ensures Paired(AppendResponse(l, l.requests))
  {
  }

  /** The call once a failed first transport has been answered. */
  function AnsweredFirst(c: Call, a: Attempt): Call {
    c.(ledger := AppendResponse(c.ledger, c.ledger.requests), clock := c.clock + a.reply.duration,
       transports := c.transports + [c.clock])
  }

  /** The fallback request is appended and sent, and its answer arrives whole but only when the deadline has passed. */
  predicate FallbackIsLate(config: Config, c: Call, a: Attempt) {
    && !config.abortPolicy && a.reply.result == Fails(ToolCalling)
    && var (recorded, refused) := RecordRequest(config, AnsweredFirst(c, a), a.fallbackGate);
      refused.None? && a.fallbackReply.result.Completed?
      && recorded.clock + a.fallbackReply.checkedAt >= c.deadline
  }

  /** The turn gets as far as such a fallback. */
  predicate EndsInLateFallback(config: Config, c: Call, a: Attempt) {
    && !a.canceledAtStart && c.clock < c.deadline && !a.canceledBeforeSend
    && var (recorded, refused) := RecordRequest(config, c, a.gate);
      refused.None? && FallbackIsLate(config, recorded.(named := Some(recorded.ledger.requests)), a)
  }

  /** What a sequence number carried by an error must be for the handler to settle the ledger. */
  ghost predicate Settles(c: Call, e: Error) {
    || (OneOpen(c.ledger) && Blamed(c, e) == c.ledger.requests)
    || (Paired(c.ledger) && Blamed(c, e) == c.ledger.requests)
  }

  lemma AnsweredIsPaired(c: Call, e: Error)
    requires Settles(c, e)
    ensures Paired(Answered(c, e).ledger)
  {
    if OneOpen(c.ledger) {
      AnsweringCloses(c.ledger);
    }
  }

  /** The name carried by the retry state is the latest request whenever nothing is open. */
  ghost predicate NamesLatest(c: Call) {
    c.named.Some? ==> c.named.value == c.ledger.requests > 0
  }

  lemma RecordRequestSettles(config: Config, c: Call, gate: Gate)
    requires Paired(c.ledger) && NamesLatest(c)
    ensures var (t, error) := RecordRequest(config, c, gate);
      && t.named == c.named && t.deadline == c.deadline
      && (error.Some? ==> Settles(t, error.value))
      && (error.None? ==> OneOpen(t.ledger) && t.ledger.requests == c.ledger.requests + 1 && t.clock < t.deadline)
  {
    AppendingOpens(c.ledger);
  }

  lemma FallbackSettlesUnlessLate(config: Config, c: Call, a: Attempt)
    requires OneOpen(c.ledger) && c.named == Some(c.ledger.requests)
    requires !config.abortPolicy && a.reply.result == Fails(ToolCalling)
    ensures var (t, error) := Invoke(config, c, a);
      if FallbackIsLate(config, c, a) then
        error == Some(Error(Budget, Some(c.ledger.requests))) && OneOpen(t.ledger)
        && t.ledger.requests == c.ledger.requests + 1
      else if error.None? then OneOpen(t.ledger) else Settles(t, error.value)
  {
    var answered := AnsweredFirst(c, a);
    AnsweringCloses(c.ledger);
    RecordRequestSettles(config, answered, a.fallbackGate);
  }

  lemma InvokeSettlesUnlessLate(config: Config, c: Call, a: Attempt)
    requires OneOpen(c.ledger) && c.named == Some(c.ledger.requests)
    ensures var (t, error) := Invoke(config, c, a);
      if FallbackIsLate(config, c, a) then
        error == Some(Error(Budget, Some(c.ledger.requests))) && OneOpen(t.ledger)
        && t.ledger.requests == c.ledger.requests + 1
      else if error.None? then OneOpen(t.ledger) else Settles(t, error.value)
  {
    if !config.abortPolicy && a.reply.result == Fails(ToolCalling) {
      FallbackSettlesUnlessLate(config, c, a);
    }
  }

  /** What the budget error of a late fallback leaves: the handler looks at the wrong request and adds nothing. */
  lemma StaleNameLeavesOpen(c: Call, e: Error)
    requires OneOpen(c.ledger) && c.ledger.requests >= 2 && e.sequence == Some(c.ledger.requests - 1)
    ensures Answered(c, e) == c && !Paired(c.ledger)
  {
  }

  lemma TrySettlesUnlessLate(config: Config, c: Call, a: Attempt)
    requires Paired(c.ledger) && NamesLatest(c) && !a.canceledAtStart && c.clock < c.deadline
    ensures var (t, error) := Try(config, c, a);
      if EndsInLateFallback(config, c, a) then
        OneOpen(t.ledger) && t.ledger.requests >= 2 && error == Some(Error(Budget, Some(t.ledger.requests - 1)))
      else if error.None? then OneOpen(t.ledger) else Settles(t, error.value)
  {
    RecordRequestSettles(config, c, a.gate);
    var (recorded, refused) := RecordRequest(config, c, a.gate);
    if refused.None? && !a.canceledBeforeSend {
      InvokeSettlesUnlessLate(config, recorded.(named := Some(recorded.ledger.requests)), a);
    }
  }

  lemma HandledIsPaired(config: Config, c: Call, e: Error, a: Attempt)
    requires Settles(c, e)
    ensures var (t, verdict) := Handled(config, c, e, a);
      && Paired(t.ledger) && !verdict.Done?
      && (verdict.Again? ==> c.ledger.requests > 0 ==> NamesLatest(t))
  {
    AnsweredIsPaired(c, e);
  }

  lemma AgainHasRequests(config: Config, c: Call, a: Attempt)
    requires Turn(config, c, a).1.Again?
    ensures Try(config, c, a).0.ledger.requests > 0 || Try(config, c, a).1.value.sequence.Some?
  {
  }

  lemma TurnSettlesUnlessLate(config: Config, c: Call, a: Attempt)
    requires Paired(c.ledger) && NamesLatest(c)
    ensures var (t, verdict) := Turn(config, c, a);
      match verdict
      case Again => Paired(t.ledger) && NamesLatest(t) && !EndsInLateFallback(config, c, a)
      case Done => OneOpen(t.ledger) && !EndsInLateFallback(config, c, a)
      case Raises(kind) =>
        (Paired(t.ledger) <==> !EndsInLateFallback(config, c, a))
        && (EndsInLateFallback(config, c, a) ==> kind.Budget? && OneOpen(t.ledger))
  {
    if !a.canceledAtStart && c.clock < c.deadline {
      TrySettlesUnlessLate(config, c, a);
      var (tried, error) := Try(config, c, a);
      if error.Some? {
        if EndsInLateFallback(config, c, a) {
          StaleNameLeavesOpen(tried, error.value);
        } else {
          HandledIsPaired(config, tried, error.value, a);
          if Turn(config, c, a).1.Again? {
            AgainHasRequests(config, c, a);
          }
        }
      }
    }
  }

  /** Some turn of the call ends in a late fallback; it is then the last one. */
  predicate MeetsLateFallback(config: Config, c: Call, script: Script, i: nat)
    decreases config.maxAttempts - c.attempts
  {
    var (next, verdict) := Turn(config, c, script(i));
    EndsInLateFallback(config, c, script(i)) ||
    (verdict.Again? && c.attempts < next.attempts <= config.maxAttempts
        && MeetsLateFallback(config, next, script, i + 1))
  }

  lemma {:induction false} LoopSettlesUnlessLate(config: Config, c: Call, script: Script, i: nat)
    requires Paired(c.ledger) && NamesLatest(c) && c.attempts <= config.maxAttempts
    ensures var (t, verdict) := Loop(config, c, script, i);
      match verdict
      case Again => false
      case Done => OneOpen(t.ledger) && !MeetsLateFallback(config, c, script, i)
      case Raises(kind) =>
        (Paired(t.ledger) <==> !MeetsLateFallback(config, c, script, i))
        && (MeetsLateFallback(config, c, script, i) ==> kind.Budget? && OneOpen(t.ledger))
    decreases config.maxAttempts - c.attempts
  {
    TurnSettlesUnlessLate(config, c, script(i));
    TurnBounds(config, c, script(i));
    var (next, verdict) := Turn(config, c, script(i));
    if verdict.Again? {
      AgainMeansAttempted(config, c, script(i));
      LoopSettlesUnlessLate(config, next, script, i + 1);
    }
  }

  /** Audit pairing of a decision call. Starting from a paired ledger, whatever the call returns or raises, the
      requests 1..n each have exactly one response in order and every identity record is closed -- exactly when no
      no-tools fallback answers past the deadline. That one path names the wrong request: the fallback request stays
      unanswered and its identity record open. */
  lemma CallKeepsAuditPairedExactly(config: Config, ledger: Ledger, clock: real, script: Script)
    requires Paired(ledger)
    ensures var (end, verdict) := Decide(config, ledger, clock, script);
      && (Paired(end.ledger) <==> !MeetsLateFallback(config, Start(config, ledger, clock), script, 0))
      && (!Paired(end.ledger) ==> verdict == Raises(Budget) && OneOpen(end.ledger))
  {
    LoopSettlesUnlessLate(config, Start(config, ledger, clock), script, 0);
    var (end, verdict) := Loop(config, Start(config, ledger, clock), script, 0);
    if verdict.Done? {
      AnsweringCloses(end.ledger);
    }
  }

  /** Under the abort policy there is no fallback, so every call keeps the ledger paired. */
  lemma {:induction false} AbortPolicyNeverMeetsLateFallback(config: Config, c: Call, script: Script, i: nat)
    requires config.abortPolicy
    ensures !MeetsLateFallback(config, c, script, i)
    decreases config.maxAttempts - c.attempts
  {
    var (next, verdict) := Turn(config, c, script(i));
    if verdict.Again? && c.attempts < next.attempts <= config.maxAttempts {
      AbortPolicyNeverMeetsLateFallback(config, next, script, i + 1);
    }
  }

  /** A decision call, and the protocol-repair call that may follow a successful one. */
  datatype Exchange = Exchange(clock: real, decision: Script, repair: Option<Script>)

  /** The repair call goes through the same loop, but has no no-tools fallback under any policy. */
  function DecideWithRepair(config: Config, ledger: Ledger, x: Exchange): (Call, Verdict) {
    var (end, verdict) := Decide(config, ledger, x.clock, x.decision);
    if verdict.Done? && x.repair.Some? then Decide(config.(abortPolicy := true), end.ledger, end.clock, x.repair.value)
    else (end, verdict)
  }

  /** Repair adds no way to lose pairing: the exchange is paired exactly when its decision call meets no late
      fallback, whatever the repair call does. */
  lemma ExchangeKeepsAuditPairedExactly(config: Config, ledger: Ledger, x: Exchange)
    requires Paired(ledger)
    ensures Paired(DecideWithRepair(config, ledger, x).0.ledger) <==>
            !MeetsLateFallback(config, Start(config, ledger, x.clock), x.decision, 0)
  {
    CallKeepsAuditPairedExactly(config, ledger, x.clock, x.decision);
    var (end, verdict) := Decide(config, ledger, x.clock, x.decision);
    if verdict.Done? && x.repair.Some? {
      var policy := config.(abortPolicy := true);
      AbortPolicyNeverMeetsLateFallback(policy, Start(policy, end.ledger, end.clock), x.repair.value, 0);
      CallKeepsAuditPairedExactly(policy, end.ledger, end.clock, x.repair.value);
    }
  }

  /** Any number of exchanges, repaired or not, of which none meets a late fallback -- as none can under the abort
      policy: the whole episode's ledger stays paired. */
  lemma {:induction false} EpisodeStaysPaired(config: Config, exchanges: seq<Exchange>)
    requires config.abortPolicy || forall n :: 0 <= n < |exchanges| ==>
      !MeetsLateFallback(config, Start(config, Episode(config, exchanges[..n]), exchanges[n].clock),
          exchanges[n].decision, 0)
    ensures Paired(Episode(config, exchanges))
    decreases |exchanges|
  {
    if exchanges != [] {
      var n := |exchanges| - 1;
      var before, x := exchanges[..n], exchanges[n];
      forall k | 0 <= k < n && !config.abortPolicy
        ensures !MeetsLateFallback(config, Start(config, Episode(config, before[..k]), before[k].clock),
            before[k].decision, 0)
      {
        assert before[..k] == exchanges[..k];
      }
      EpisodeStaysPaired(config, before);
      if config.abortPolicy {
        AbortPolicyNeverMeetsLateFallback(config, Start(config, Episode(config, before), x.clock), x.decision, 0);
      }
      ExchangeKeepsAuditPairedExactly(config, Episode(config, before), x);
    }
  }

  function Episode(config: Config, exchanges: seq<Exchange>): Ledger
    decreases |exchanges|
  {
    if exchanges == [] then Ledger(0, [], [])
    else DecideWithRepair(config, Episode(config, exchanges[..|exchanges| - 1]), exchanges[|exchanges| - 1]).0.ledger
  }

  /** First a tool-calling failure, then a fallback that answers after the ten-second deadline. */
  function LateScript(): Script {
    i => Attempt(false, Admit(0.0), false, Reply(1.0, 1.0, Fails(ToolCalling)),
                 Admit(0.0), Reply(20.0, 20.0, Completed), None, false)
  }

  // ---- After a late fallback ----

  /** Request `k` has been passed over: a later one exists, it has no response, and its identity is open. */
  ghost predicate PassedOver(l: Ledger, k: nat) {
    1 <= k < l.requests == |l.closed| && k !in l.responses && !l.closed[k - 1]
  }

  /** No sequence the call could put on a response is `k`. */
  ghost predicate NeverNames(c: Call, k: nat) {
    PassedOver(c.ledger, k) && (c.named.Some? ==> c.named.value > k)
  }

  ghost predicate SparesRequest(e: Option<Error>, k: nat) {
    e.Some? && e.value.sequence.Some? ==> e.value.sequence.value > k
  }

  lemma RequestPassesOver(config: Config, c: Call, gate: Gate, k: nat)
    requires NeverNames(c, k)
    ensures NeverNames(RecordRequest(config, c, gate).0, k) && SparesRequest(RecordRequest(config, c, gate).1, k)
  {
  }

  lemma AnswerPassesOver(l: Ledger, sequence: nat, k: nat)
    requires PassedOver(l, k) && sequence != k
    ensures PassedOver(AppendResponse(l, sequence), k)
  {
  }

  lemma InvokePassesOver(config: Config, c: Call, a: Attempt, k: nat)
    requires NeverNames(c, k)
    ensures NeverNames(Invoke(config, c, a).0, k) && SparesRequest(Invoke(config, c, a).1, k)
  {
    var sent := Send(c, a.reply).0;
    var answered := sent.(ledger := AppendResponse(sent.ledger, sent.ledger.requests));
    AnswerPassesOver(sent.ledger, sent.ledger.requests, k);
    RequestPassesOver(config, answered, a.fallbackGate, k);
  }

  lemma TryPassesOver(config: Config, c: Call, a: Attempt, k: nat)
    requires NeverNames(c, k)
    ensures NeverNames(Try(config, c, a).0, k) && SparesRequest(Try(config, c, a).1, k)
  {
    RequestPassesOver(config, c, a.gate, k);
    var recorded := RecordRequest(config, c, a.gate).0;
    InvokePassesOver(config, recorded.(named := Some(recorded.ledger.requests)), a, k);
  }

  lemma TurnPassesOver(config: Config, c: Call, a: Attempt, k: nat)
    requires NeverNames(c, k)
    ensures NeverNames(Turn(config, c, a).0, k)
  {
    TryPassesOver(config, c, a, k);
    var (tried, error) := Try(config, c, a);
    if error.Some? {
      HandlerPassesOver(config, tried, error.value, a, k);
    }
  }

  lemma HandlerPassesOver(config: Config, c: Call, e: Error, a: Attempt, k: nat)
    requires NeverNames(c, k) && SparesRequest(Some(e), k)
    ensures NeverNames(Handled(config, c, e, a).0, k)
  {
    assert Blamed(c, e) > k;
    AnswerPassesOver(c.ledger, Blamed(c, e), k);
  }

  lemma {:induction false} LoopPassesOver(config: Config, c: Call, script: Script, i: nat, k: nat)
    requires NeverNames(c, k)
    ensures PassedOver(Loop(config, c, script, i).0.ledger, k)
    decreases config.maxAttempts - c.attempts
  {
    TurnPassesOver(config, c, script(i), k);
    var (next, verdict) := Turn(config, c, script(i));
    if verdict.Again? && c.attempts < next.attempts <= config.maxAttempts {
      LoopPassesOver(config, next, script, i + 1, k);
    }
  }

  /** No later call, on whatever path, ever answers a request that was passed over. */
  lemma PassedOverForever(config: Config, ledger: Ledger, x: Exchange, k: nat)
    requires PassedOver(ledger, k)
    ensures PassedOver(DecideWithRepair(config, ledger, x).0.ledger, k)
  {
    DecisionPassesOver(config, ledger, x.clock, x.decision, k);
    var (end, verdict) := Decide(config, ledger, x.clock, x.decision);
    if verdict.Done? && x.repair.Some? {
      DecisionPassesOver(config.(abortPolicy := true), end.ledger, end.clock, x.repair.value, k);
    }
  }

  lemma DecisionPassesOver(config: Config, ledger: Ledger, clock: real, script: Script, k: nat)
    requires PassedOver(ledger, k)
    ensures PassedOver(Decide(config, ledger, clock, script).0.ledger, k)
  {
    LoopPassesOver(config, Start(config, ledger, clock), script, 0, k);
    var end := Loop(config, Start(config, ledger, clock), script, 0).0;
    AnswerPassesOver(end.ledger, end.ledger.requests, k);
  }

  /** What the call after a late fallback does to the open request: canceled at once, it leaves it open; if its first
      request is refused before it is recorded, the handler blames and answers the open one, which mends the ledger by
      accident; and otherwise it records a request of its own, and the open one is passed over for good. */
  lemma CallAfterLateFallback(config: Config, ledger: Ledger, clock: real, script: Script)
    requires ValidConfig(config) && OneOpen(ledger)
    ensures var end := Decide(config, ledger, clock, script).0.ledger;
      if script(0).canceledAtStart then end == ledger
      else if script(0).gate.Broken? then Paired(end) && end.requests == ledger.requests
      else PassedOver(end, ledger.requests)
  {
    var c, a := Start(config, ledger, clock), script(0);
    if a.canceledAtStart {
    } else if a.gate.Broken? {
      BrokenGateMends(config, c, a);
    } else {
      AdmittedRequestPassesOver(config, c, a);
      var (next, verdict) := Turn(config, c, a);
      if verdict.Again? && c.attempts < next.attempts <= config.maxAttempts {
        LoopPassesOver(config, next, script, 1, ledger.requests);
      }
      var end := Loop(config, c, script, 0).0;
      AnswerPassesOver(end.ledger, end.ledger.requests, ledger.requests);
    }
  }

  lemma BrokenGateMends(config: Config, c: Call, a: Attempt)
    requires OneOpen(c.ledger) && c.clock < c.deadline && c.attempts < config.maxAttempts
    requires !a.canceledAtStart && a.gate.Broken?
    ensures Turn(config, c, a).1 == Raises(Other)
    ensures Turn(config, c, a).0.ledger == AppendResponse(c.ledger, c.ledger.requests)
        && Paired(Turn(config, c, a).0.ledger)
  {
    AnsweringCloses(c.ledger);
  }

  lemma AdmittedRequestPassesOver(config: Config, c: Call, a: Attempt)
    requires OneOpen(c.ledger) && c.clock < c.deadline && c.attempts < config.maxAttempts && c.named.None?
    requires !a.canceledAtStart && !a.gate.Broken?
    ensures NeverNames(Turn(config, c, a).0, c.ledger.requests)
  {
    var k := c.ledger.requests;
    var (recorded, refused) := RecordRequest(config, c, a.gate);
    assert PassedOver(recorded.ledger, k);
    if refused.None? {
      InvokePassesOver(config, recorded.(named := Some(recorded.ledger.requests)), a, k);
    }
    var (tried, error) := Try(config, c, a);
    assert NeverNames(tried, k) && SparesRequest(error, k);
    if error.Some? {
      HandlerPassesOver(config, tried, error.value, a, k);
    }
  }

  /** The concrete failure: two requests are on the ledger, only the first has a response. */
  lemma LateFallbackIsNeverAnswered()
    ensures var config := Config(9, 60.0, 10.0, false);
      Decide(config, Ledger(0, [], []), 0.0, LateScript()).0.ledger == Ledger(2, [true, false], [1])
  {
    var config := Config(9, 60.0, 10.0, false);
    var c, a := Start(config, Ledger(0, [], []), 0.0), LateScript()(0);
    var recorded := c.(attempts := 1, ledger := Ledger(1, [false], []));
    assert [] + [false] == [false] && [true] + [false] == [true, false] && [false][0 := true] == [true];
    assert RecordRequest(config, c, a.gate).0 == recorded;
    assert RecordRequest(config, c, a.gate) == (recorded, None);
    var named := recorded.(named := Some(1));
    var answered := AnsweredFirst(named, a);
    assert answered.ledger == Ledger(1, [true], [1]) && answered.clock == 1.0;
    var fallback := answered.(attempts := 2, ledger := Ledger(2, [true, false], [1]));
    assert RecordRequest(config, answered, a.fallbackGate) == (fallback, None);
    assert Invoke(config, named, a) == Send(fallback, a.fallbackReply);
    assert Try(config, c, a).1 == Some(Error(Budget, Some(1)));
    assert Turn(config, c, a).1 == Raises(Budget);
  }

  // ---- Hung attempts ----

  /** `feasible_provider_retry_attempts`. */
  function Feasible(timeout: real, maxElapsed: real, maxAttempts: int): int {
    if maxAttempts < 1 || timeout <= 0.0 || maxElapsed <= 0.0 then 0
    else
      var full := (maxElapsed / timeout).Floor;
      var completed := if maxElapsed - full as real * timeout > 0.0 then full + 1 else full;
      Min(maxAttempts, Max(1, completed))
  }

  /** `n` whole timeouts, as repeated addition. */
  function Elapsed(n: nat, timeout: real): real {
    if n == 0 then 0.0 else timeout + Elapsed(n - 1, timeout)
  }

  lemma {:induction false} ElapsedIsProduct(n: nat, timeout: real)
    ensures Elapsed(n, timeout) == n as real * timeout
  {
    if n > 0 {
      ElapsedIsProduct(n - 1, timeout);
      assert n as real * timeout == (n - 1) as real * timeout + timeout;
    }
  }

  /** `n` hung attempts are feasible exactly when they are allowed and the last one starts inside the budget:
      the closed form is min(N, ceil(E/T)). */
  lemma FeasibleCountsStartsInsideBudget(timeout: real, maxElapsed: real, maxAttempts: int, n: nat)
    requires timeout > 0.0 && maxElapsed > 0.0 && n >= 1
    ensures n <= Feasible(timeout, maxElapsed, maxAttempts) <==>
            n <= maxAttempts && Elapsed(n - 1, timeout) < maxElapsed
  {
    ElapsedIsProduct(n - 1, timeout);
    var ratio := maxElapsed / timeout;
    RatioOrder(maxElapsed, timeout, ratio.Floor as real);
    RatioOrder(maxElapsed, timeout, (n - 1) as real);
    CeilingCounts(ratio, n);
  }

  /** `n - 1` lies below `ratio` exactly when `n` is at most its ceiling. */
  lemma CeilingCounts(ratio: real, n: nat)
    requires ratio > 0.0 && n >= 1
    ensures (n - 1) as real < ratio <==>
            n <= Max(1, if ratio > ratio.Floor as real then ratio.Floor + 1 else ratio.Floor)
  {
  }

  lemma RatioOrder(total: real, unit: real, x: real)
    requires unit > 0.0
    ensures x < total / unit <==> x * unit < total
    ensures x < total / unit <==> total - x * unit > 0.0
  {
    var ratio := total / unit;
    assert ratio * unit == total;
    Scaling(x, ratio, unit);
    Scaling(ratio, x, unit);
  }

  lemma Scaling(a: real, b: real, unit: real)
    requires unit > 0.0
    ensures a < b ==> a * unit < b * unit
  {
  }

  /** Every attempt hangs for its clipped wire timeout and then fails as a transport error. */
  ghost predicate Hangs(config: Config, c: Call, a: Attempt) {
    RecordRequest(config, c, a.gate).1.None? && !a.canceledBeforeSend ==>
      var sent := RecordRequest(config, c, a.gate).0;
      a.reply == Reply(MinReal(config.timeout, c.deadline - sent.clock), 0.0, Fails(Transient))
  }

  ghost predicate AlwaysHangs(config: Config, c: Call, script: Script, i: nat)
    decreases config.maxAttempts - c.attempts
  {
    && Hangs(config, c, script(i))
    && var (next, verdict) := Turn(config, c, script(i));
      verdict.Again? && c.attempts < next.attempts <= config.maxAttempts ==> AlwaysHangs(config, next, script, i + 1)
  }

  ghost predicate LastStartedInside(config: Config, c: Call) {
    c.attempts >= 1 ==> Elapsed(c.attempts - 1, config.timeout) < config.maxElapsed
  }

  /** Every attempt so far has used up a whole timeout. */
  ghost predicate OnSchedule(config: Config, c: Call, started: real) {
    && c.attempts <= config.maxAttempts && LastStartedInside(config, c)
    && c.deadline == started + config.maxElapsed
    && started + Elapsed(c.attempts, config.timeout) <= c.clock
  }

  lemma HungTurn(config: Config, c: Call, a: Attempt, started: real)
    requires ValidConfig(config) && SaneGate(a.gate) && Hangs(config, c, a) && OnSchedule(config, c, started)
    requires a.retryAfter.Some? ==> a.retryAfter.value >= 0.0
    ensures var (t, verdict) := Turn(config, c, a);
      LastStartedInside(config, t) && (verdict.Again? ==> OnSchedule(config, t, started))
  {
    var (t, verdict) := Turn(config, c, a);
    TurnBounds(config, c, a);
    if verdict.Again? {
      assert t.attempts == c.attempts + 1;
      assert a.reply.duration == config.timeout;
      assert t.clock >= c.clock + config.timeout;
    }
  }

  lemma {:induction false} HungCallsFit(config: Config, c: Call, script: Script, i: nat, started: real)
    requires ValidConfig(config) && Sane(script) && AlwaysHangs(config, c, script, i) && OnSchedule(config, c, started)
    ensures LastStartedInside(config, Loop(config, c, script, i).0)
    ensures Loop(config, c, script, i).0.attempts <= config.maxAttempts
    decreases config.maxAttempts - c.attempts
  {
    var (next, verdict) := Turn(config, c, script(i));
    HungTurn(config, c, script(i), started);
    TurnBounds(config, c, script(i));
    if verdict.Again? {
      AgainMeansAttempted(config, c, script(i));
      HungCallsFit(config, next, script, i + 1, started);
    }
  }

  /** When every attempt hangs, a call makes no more of them than the feasibility formula says. */
  lemma {:induction false} HungAttemptsAreFeasible(config: Config, ledger: Ledger, clock: real, script: Script)
    requires ValidConfig(config) && Sane(script) && AlwaysHangs(config, Start(config, ledger, clock), script, 0)
    ensures Decide(config, ledger, clock, script).0.attempts <= Feasible(config.timeout, config.maxElapsed,
        config.maxAttempts)
  {
    var c := Start(config, ledger, clock);
    HungCallsFit(config, c, script, 0, clock);
    FittingIsFeasible(config, Loop(config, c, script, 0).0);
  }

  lemma FittingIsFeasible(config: Config, c: Call)
    requires ValidConfig(config) && LastStartedInside(config, c) && c.attempts <= config.maxAttempts
    ensures c.attempts <= Feasible(config.timeout, config.maxElapsed, config.maxAttempts)
  {
    if c.attempts >= 1 {
      FeasibleCountsStartsInsideBudget(config.timeout, config.maxElapsed, config.maxAttempts, c.attempts);
    } else {
      FeasibleCountsStartsInsideBudget(config.timeout, config.maxElapsed, config.maxAttempts, 1);
    }
  }

  // ---- The client object ----

  class ProviderClient {
    const config: Config
    // statistics kept for the whole episode
    var requests: nat
    var closed: seq<bool>
    var responses: seq<nat>
    // the retry state of the current logical call
    var deadline: real
    var attempts: nat
    var retries: nat
    var named: Option<nat>
    // the environment's clock, and when transports were started
    var clock: real
    ghost var transports: seq<real>

    constructor (config: Config)
      ensures this.config == config && Stats() == Ledger(0, [], [])
    {
      this.config := config;
      requests, closed, responses := 0, [], [];
      deadline, attempts, retries, named, clock, transports := 0.0, 0, 0, None, 0.0, [];
    }

    function Stats(): Ledger
      reads this
    {
      Ledger(requests, closed, responses)
    }

    ghost function Model(): Call
      reads this
    {
      Call(Stats(), clock, deadline, attempts, retries, named, transports)
    }

    method RecordProviderRequest(gate: Gate) returns (error: Option<Error>)
      modifies this
      ensures (Model(), error) == RecordRequest(config, old(Model()), gate)
    {
      if clock >= deadline || attempts >= config.maxAttempts {
        return Some(Error(Budget, named));
      }
      attempts := attempts + 1;
      if gate.Broken? {
        return Some(Error(Other, None));
      }
      clock := clock + gate.wait;
      requests, closed := requests + 1, closed + [false];
      if gate.Reject? {
        error := Some(Error(gate.kind, Some(requests)));
      } else {
        error := if clock >= deadline then Some(Error(Budget, Some(requests))) else None;
      }
    }

    method RecordActionResponse(sequence: nat)
      modifies this`closed, this`responses
      ensures Stats() == AppendResponse(old(Stats()), sequence)
    {
      if 1 <= sequence <= |closed| {
        closed := closed[sequence - 1 := true];
      }
      responses := responses + [sequence];
    }

    method Transport(reply: Reply) returns (error: Option<Error>)
      modifies this`clock, this`transports
      ensures (Model(), error) == Send(old(Model()), reply)
    {
      transports := transports + [clock];
      if reply.result.Fails? {
        clock := clock + reply.duration;
        return Some(Error(reply.result.kind, None));
      }
      if clock + reply.checkedAt >= deadline {
        clock := clock + reply.checkedAt;
        return Some(Error(Budget, named));
      }
      clock := clock + reply.duration;
      error := None;
    }

    method InvokeDecisionProvider(a: Attempt) returns (error: Option<Error>)
      modifies this
      ensures (Model(), error) == Invoke(config, old(Model()), a)
    {
      error := Transport(a.reply);
      if error.None? || !error.value.kind.ToolCalling? || config.abortPolicy {
        return;
      }
      RecordActionResponse(requests);
      error := RecordProviderRequest(a.fallbackGate);
      if error.None? {
        error := Transport(a.fallbackReply);
      }
    }

    method TryOnce(a: Attempt) returns (error: Option<Error>)
      modifies this
      ensures (Model(), error) == Try(config, old(Model()), a)
    {
      error := RecordProviderRequest(a.gate);
      if error.None? {
        named := Some(requests);
        if a.canceledBeforeSend {
          error := Some(Error(Canceled, None));
        } else {
          error := InvokeDecisionProvider(a);
        }
      }
    }

    /** The exception handler: answer the blamed request, then decide whether to go round again. */
    method Handle(error: Error, a: Attempt) returns (verdict: Verdict)
      modifies this
      ensures (Model(), verdict) == Handled(config, old(Model()), error, a)
    {
      var sequence := if error.sequence.Some? && error.sequence.value != 0 then error.sequence.value else requests;
      if sequence != 0 && (responses == [] || responses[|responses| - 1] != sequence) {
        RecordActionResponse(sequence);
      }
      var delay := Delay(retries + 1, a.retryAfter);
      if !error.kind.Transient? {
        return Raises(error.kind);
      }
      if attempts >= config.maxAttempts || clock + delay >= deadline {
        return Raises(Budget);
      }
      if a.canceledInBackoff {
        return Raises(Canceled);
      }
      named := Some(sequence);
      retries := retries + 1;
      clock := clock + delay;
      verdict := Again;
    }

    /** `_call_with_transient_provider_retries`, followed by the caller's response record on success. */
    method CallWithTransientRetries(script: Script) returns (verdict: Verdict)
      modifies this
      ensures (Model(), verdict) == Decide(config, old(Stats()), old(clock), script)
    {
      deadline, attempts, retries, named := clock + config.maxElapsed, 0, 0, None;
      transports := [];
      ghost var start := Model();
      var i := 0;
      verdict := Again;
      while verdict.Again?
        invariant 0 <= i && attempts <= config.maxAttempts
        invariant verdict.Again? ==> Loop(config, Model(), script, i) == Loop(config, start, script, 0)
        invariant !verdict.Again? ==> (Model(), verdict) == Loop(config, start, script, 0)
        decreases verdict.Again?, config.maxAttempts - attempts
      {
        var a := script(i);
        ghost var before := Model();
        TurnBounds(config, before, a);
        if Turn(config, before, a).1.Again? {
          AgainMeansAttempted(config, before, a);
        }
        if a.canceledAtStart {
          verdict := Raises(Canceled);
        } else if clock >= deadline {
          verdict := Raises(Budget);
        } else {
          var error := TryOnce(a);
          if error.None? {
            verdict := Done;
          } else {
            verdict := Handle(error.value, a);
          }
        }
        assert (Model(), verdict) == Turn(config, before, a);
        i := i + 1;
      }
      if verdict.Done? {
        RecordActionResponse(requests);
      }
    }
  }
}
