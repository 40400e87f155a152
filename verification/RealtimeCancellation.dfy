/** Cancelling a streamed provider turn: `_begin_realtime_turn`, `_end_realtime_turn`, `cancel_realtime_turn`,
    `_check_realtime_cancellation` and `_action_from_openai_stream` in baselines/llm_agent.py. One worker thread runs
    turns, any number of coordinator threads cancel them, and one non-reentrant lock guards the shared fields. Every
    `with lock:` block is an acquisition followed by one step that performs the block and releases. */
module RealtimeCancellation {
  import opened Common

  type Turn = string
  type Stream = nat

  datatype Exit = Returned | Canceled | Failed

  /** Why the stream loop reads the flag: on entry, per chunk, or before leaving with `exit`. */
  datatype Phase = First | Chunk | Last(exit: Exit)

  /** Where a flag read outside the stream code stands: `_check_realtime_cancellation`, the sleep before a retry, or the
      rate limiter's sleep inside `_record_provider_request`. */
  datatype Site = Checked | Sleeping | Limiter

  /** Where the worker is. `Calling` is the decision code outside any lock; `AppendCanceled` the request
      record still written after the limiter's sleep was canceled; `Unwinding` the canceled error on its way out through
      the retry loop; the rest are the steps the worker may take. */
  datatype Pc =
    | Idle
    | Begin(turn: Turn)
    | Calling(turn: Turn)
    | CheckFlag(turn: Turn, site: Site)
    | RecordPretransport(turn: Turn)
    | AppendCanceled(turn: Turn)
    | Unwinding(turn: Turn)
    | Register(turn: Turn, stream: Stream)
    | ReadFlag(turn: Turn, stream: Stream, phase: Phase)
    | CloseCanceled(turn: Turn, stream: Stream)
    | RecordTransport(turn: Turn, stream: Stream)
    | Finally(turn: Turn, stream: Stream, exit: Exit)
    | Pop(turn: Turn, stream: Stream, exit: Exit)
    | Leave(turn: Turn, exit: Exit)
    | ResetClear
    | ResetStats

  datatype CancelPc =
    | Requesting(turn: Turn)
    | Closing(turn: Turn, stream: Stream)
    | Recording(turn: Turn, stream: Stream)
    | Finished(result: bool)

  datatype Lock = Free | HeldByWorker | HeldBy(canceler: nat)

  datatype State = State(
    lock: Lock,
    worker: Pc,
    cancelers: map<nat, CancelPc>,
    // the fields the lock guards
    active: Option<Turn>,
    flagged: set<Turn>,
    streams: map<Turn, Stream>,
    outcomes: set<Turn>,
    cursors: map<Turn, (nat, nat)>,
    pretransport: set<Turn>,
    // statistics
    cancellations: nat,
    requests: nat,
    responses: nat,
    // the provider's side: streams on which close was called, and those whose close did not raise
    closeCalled: set<Stream>,
    closed: set<Stream>,
    nextStream: nat,
    // history: the turn each stream was registered under; whether the current turn has accepted a cancel, and
    // whether the worker has read the flag since; requests appended per turn since it began; responses appended since
    // the current turn began; turns begun although already recorded; outcomes recorded between the two halves of the
    // last reset
    owner: map<Stream, Turn>,
    accepted: bool,
    readSince: bool,
    appended: map<Turn, nat>,
    answered: nat,
    reused: set<Turn>,
    missed: nat)

  const START := State(Free, Idle, map[], None, {}, map[], {}, map[], {}, 0, 0, 0, {}, {}, 0, map[], false, false,
      map[], 0, {}, 0)

  // ---- The steps ----

  predicate Locked(pc: Pc) {
    pc.Begin? || pc.CheckFlag? || pc.RecordPretransport? || pc.Register? || pc.ReadFlag? || pc.RecordTransport?
    || pc.Pop? || pc.Leave? || pc.ResetClear?
  }

  /** The steps that read the flag. */
  predicate Reads(pc: Pc) {
    pc.CheckFlag? || pc.ReadFlag?
  }

  predicate CancelLocked(pc: CancelPc) {
    pc.Requesting? || pc.Recording?
  }

  datatype Choice =
    | BeginTurn(turn: Turn) | Reset
    | Check(site: Site) | AppendRequest | AppendResponse | OpenStream | ReturnAction | Fail
    | NextChunk | Conclude(exit: Exit) | CloseFails | Retry | Go

  datatype Act =
    | WorkerAcquires
    | WorkerRuns(choice: Choice)
    | CancelStarts(id: nat, turn: Turn)
    | CancelAcquires(id: nat)
    | CancelRuns(id: nat, closes: bool)

  /** `_record_realtime_transport_cancel`. */
  function RecordOutcome(s: State, turn: Turn): State {
    if turn in s.outcomes then s
    else s.(outcomes := s.outcomes + {turn}, cancellations := s.cancellations + 1,
            missed := if s.worker.ResetStats? then s.missed + 1 else s.missed)
  }

  /** The provider's side of a call of `close`, which may raise. */
  function CloseCalled(s: State, stream: Stream, closes: bool): State {
    s.(closeCalled := s.closeCalled + {stream}, closed := if closes then s.closed + {stream} else s.closed)
  }

  function Appended(s: State, turn: Turn): nat {
    if turn in s.appended then s.appended[turn] else 0
  }

  /** A choice is possible where the worker stands. */
  predicate Possible(pc: Pc, choice: Choice) {
    match pc
    case Idle => choice.BeginTurn? || choice.Reset?
    case Calling(_) => choice.Check? || choice.AppendRequest? || choice.AppendResponse? || choice.OpenStream?
                       || choice.ReturnAction? || choice.Fail?
    case ReadFlag(_, _, phase) => choice.NextChunk? || (choice.Conclude? && !choice.exit.Canceled?)
    case CloseCanceled(_, _) => choice.Go? || choice.CloseFails?
    case Finally(_, _, _) => choice.Go? || choice.CloseFails?
    case Pop(_, _, exit) => choice.Go? || (choice.Retry? && exit.Failed?)
    case Unwinding(_) => choice.Go? || choice.AppendResponse?
    case _ => choice.Go?
  }

  /** One worker step; a locked block is performed as a whole. */
  function WorkerStep(s: State, choice: Choice): State
    requires Possible(s.worker, choice)
  {
    match s.worker
    case Idle => s.(worker := if choice.BeginTurn? then Begin(choice.turn) else ResetClear)
    case Begin(t) =>
      s.(worker := Calling(t), active := Some(t), cursors := s.cursors[t := (s.requests, s.responses)])
    case Calling(t) => (
      match choice
      case Check(site) => s.(worker := CheckFlag(t, site))
      case AppendRequest => s.(requests := s.requests + 1)
      case AppendResponse => s.(responses := s.responses + 1)
      case OpenStream => s.(worker := Register(t, s.nextStream), nextStream := s.nextStream + 1)
      case ReturnAction => s.(worker := Leave(t, Returned))
      case _ => s.(worker := Leave(t, Failed)))
    case CheckFlag(t, site) =>
      s.(worker := if t !in s.flagged then Calling(t)
                   else if site.Checked? then RecordPretransport(t)
                   else if site.Limiter? then AppendCanceled(t) else Unwinding(t))
    case AppendCanceled(t) => s.(worker := Unwinding(t), requests := s.requests + 1)
    case Unwinding(t) =>
      s.(worker := Leave(t, Canceled), responses := if choice.AppendResponse? then s.responses + 1 else s.responses)
    case RecordPretransport(t) =>
      s.(worker := Unwinding(t),
         pretransport := if t in s.cursors && s.cursors[t] == (s.requests, s.responses)
                         then s.pretransport + {t} else s.pretransport)
    case Register(t, stream) =>
      s.(worker := ReadFlag(t, stream, First), streams := s.streams[t := stream], owner := s.owner[stream := t])
    case ReadFlag(t, stream, phase) =>
      s.(worker := if t in s.flagged then
                     if phase.First? then CloseCanceled(t, stream) else Finally(t, stream, Canceled)
                   else if phase.Last? then Finally(t, stream, phase.exit)
                   else if choice.NextChunk? then ReadFlag(t, stream, Chunk)
                   else ReadFlag(t, stream, Last(choice.exit)))
    case CloseCanceled(t, stream) =>
      CloseCalled(s, stream, choice.Go?).(
         worker := if choice.Go? then RecordTransport(t, stream) else Finally(t, stream, Canceled))
    case RecordTransport(t, stream) => RecordOutcome(s, t).(worker := Finally(t, stream, Canceled))
    case Finally(t, stream, exit) => CloseCalled(s, stream, choice.Go?).(worker := Pop(t, stream, exit))
    case Pop(t, stream, exit) =>
      s.(streams := s.streams - {t},
         worker := if exit.Returned? || choice.Retry? then Calling(t)
                   else if exit.Canceled? then Unwinding(t) else Leave(t, exit))
    case Leave(t, exit) =>
      s.(worker := Idle, streams := s.streams - {t}, flagged := s.flagged - {t},
         active := if s.active == Some(t) then None else s.active)
    case ResetClear =>
      s.(worker := ResetStats, active := None, streams := map[], flagged := {}, outcomes := {}, cursors := map[],
         pretransport := {})
    case ResetStats => s.(worker := Idle, cancellations := 0, requests := 0, responses := 0)
  }

  /** One step of `cancel_realtime_turn`. */
  function CancelStep(s: State, id: nat, closes: bool): State
    requires id in s.cancelers && !s.cancelers[id].Finished?
  {
    match s.cancelers[id]
    case Requesting(t) =>
      if s.active != Some(t) then s.(cancelers := s.cancelers[id := Finished(false)])
      else s.(flagged := s.flagged + {t}, accepted := true,
              cancelers := s.cancelers[id := if t in s.streams then Closing(t, s.streams[t]) else Finished(false)])
    case Closing(t, stream) =>
      CloseCalled(s, stream, closes).(
         cancelers := s.cancelers[id := if closes then Recording(t, stream) else Finished(false)])
    case Recording(t, stream) => RecordOutcome(s, t).(cancelers := s.cancelers[id := Finished(true)])
  }

  predicate Enabled(s: State, act: Act) {
    match act
    case WorkerAcquires => Locked(s.worker) && s.lock.Free?
    case WorkerRuns(choice) => Possible(s.worker, choice) && (Locked(s.worker) ==> s.lock.HeldByWorker?)
    case CancelStarts(id, _) => id !in s.cancelers
    case CancelAcquires(id) => id in s.cancelers && CancelLocked(s.cancelers[id]) && s.lock.Free?
    case CancelRuns(id, _) =>
      id in s.cancelers && !s.cancelers[id].Finished? && (CancelLocked(s.cancelers[id]) ==> s.lock == HeldBy(id))
  }

  /** The history the worker's step leaves: requests per turn, and turns begun although already recorded. */
  function AppendedAfter(s: State, choice: Choice): map<Turn, nat> {
    match s.worker
    case Begin(t) => s.appended[t := 0]
    case Calling(t) => if choice.AppendRequest? then s.appended[t := Appended(s, t) + 1] else s.appended
    case AppendCanceled(t) => s.appended[t := Appended(s, t) + 1]
    case ResetClear => map[]
    case _ => s.appended
  }

  function AnsweredAfter(s: State, choice: Choice): nat {
    match s.worker
    case Begin(_) => 0
    case Calling(_) => if choice.AppendResponse? then s.answered + 1 else s.answered
    case Unwinding(_) => if choice.AppendResponse? then s.answered + 1 else s.answered
    case _ => s.answered
  }

  function ReusedAfter(s: State): set<Turn> {
    match s.worker
    case Begin(t) => if t in s.pretransport then s.reused + {t} else s.reused
    case ResetClear => {}
    case _ => s.reused
  }

  function Do(s: State, act: Act): State
    requires Enabled(s, act)
  {
    match act
    case WorkerAcquires => s.(lock := HeldByWorker)
    case WorkerRuns(choice) =>
      WorkerStep(s, choice).(
        lock := if Locked(s.worker) then Free else s.lock,
        accepted := !s.worker.Begin? && s.accepted,
        readSince := !s.worker.Begin? && if Reads(s.worker) then s.accepted else s.readSince,
        appended := AppendedAfter(s, choice), answered := AnsweredAfter(s, choice), reused := ReusedAfter(s),
        missed := if s.worker.ResetClear? then 0 else s.missed)
    case CancelStarts(id, turn) => s.(cancelers := s.cancelers[id := Requesting(turn)])
    case CancelAcquires(id) => s.(lock := HeldBy(id))
    case CancelRuns(id, closes) =>
      CancelStep(s, id, closes).(lock := if CancelLocked(s.cancelers[id]) then Free else s.lock)
  }

  /** Where the interleaving `acts` leads from the initial state, if every act is enabled in turn. */
  function After(acts: seq<Act>): Option<State> {
    if acts == [] then Some(START)
    else
      var before, act := After(acts[..|acts| - 1]), acts[|acts| - 1];
      if before.Some? && Enabled(before.value, act) then Some(Do(before.value, act)) else None
  }

  // ---- The invariant ----

  predicate InTurn(pc: Pc) {
    !pc.Idle? && !pc.Begin? && !pc.ResetClear? && !pc.ResetStats?
  }

  predicate HoldsStream(pc: Pc) {
    pc.ReadFlag? || pc.CloseCanceled? || pc.RecordTransport? || pc.Finally? || pc.Pop?
  }

  /** The worker has seen the flag and is on its way to raising the canceled error. */
  predicate Canceling(pc: Pc) {
    || pc.RecordPretransport? || pc.AppendCanceled? || pc.Unwinding? || pc.CloseCanceled? || pc.RecordTransport?
    || ((pc.Finally? || pc.Pop? || pc.Leave?) && pc.exit.Canceled?)
  }

  ghost predicate LockInv(s: State) {
    && (s.lock.HeldByWorker? ==> Locked(s.worker))
    && (s.lock.HeldBy? ==> s.lock.canceler in s.cancelers && CancelLocked(s.cancelers[s.lock.canceler]))
  }

  ghost predicate TurnInv(s: State) {
    && s.active == (if InTurn(s.worker) then Some(s.worker.turn) else None)
    && s.flagged == (if InTurn(s.worker) && s.accepted then {s.worker.turn} else {})
  }

  ghost predicate FlagInv(s: State) {
    && (s.readSince ==> s.accepted)
    && (InTurn(s.worker) ==> (Canceling(s.worker) <==> s.readSince))
    && (s.worker.ReadFlag? && s.worker.phase.Last? ==> !s.worker.phase.exit.Canceled?)
  }

  ghost predicate StreamInv(s: State) {
    && s.streams == (if HoldsStream(s.worker) then map[s.worker.turn := s.worker.stream] else map[])
    && (HoldsStream(s.worker) ==> s.worker.stream in s.owner && s.owner[s.worker.stream] == s.worker.turn)
    && (forall x :: x in s.owner ==> x in s.closeCalled || (HoldsStream(s.worker) && x == s.worker.stream))
    && (s.worker.Pop? ==> s.worker.stream in s.closeCalled)
    && (s.worker.RecordTransport? ==> s.worker.stream in s.closed)
    && (forall x :: x in s.owner ==> x < s.nextStream)
    && (s.worker.Register? ==> s.worker.stream < s.nextStream && s.worker.stream !in s.owner)
  }

  /** A canceler only ever closes a stream registered under the turn it was asked to cancel, and records after
      closing. */
  ghost predicate CancelerSound(s: State, pc: CancelPc) {
    match pc
    case Closing(t, stream) => stream in s.owner && s.owner[stream] == t
    case Recording(t, stream) => stream in s.owner && s.owner[stream] == t && stream in s.closed
    case _ => true
  }

  ghost predicate CancelerInv(s: State) {
    forall id :: id in s.cancelers ==> CancelerSound(s, s.cancelers[id])
  }

  ghost predicate OutcomeInv(s: State) {
    && (forall t :: t in s.outcomes ==> exists x :: x in s.owner && s.owner[x] == t && x in s.closed)
    && |s.outcomes| == s.missed + (if s.worker.ResetStats? then 0 else s.cancellations)
  }

  ghost predicate PretransportInv(s: State) {
    && (InTurn(s.worker) ==>
        var t := s.worker.turn;
        && t in s.cursors && t in s.appended && s.cursors[t].0 + s.appended[t] == s.requests
        && s.cursors[t].1 + s.answered == s.responses
        && (t in s.pretransport && t !in s.reused ==>
              s.worker.Unwinding? || (s.worker.Leave? && s.worker.exit.Canceled?)))
    && (forall t :: t in s.pretransport && t !in s.reused ==> t in s.appended && s.appended[t] == 0)
    && s.reused <= s.pretransport
  }

  ghost predicate Inv(s: State) {
    && LockInv(s) && TurnInv(s) && FlagInv(s) && StreamInv(s) && CancelerInv(s) && OutcomeInv(s) && PretransportInv(s)
  }

  lemma IdleKeeps(s: State, choice: Choice)
    requires Inv(s) && s.worker.Idle? && Enabled(s, WorkerRuns(choice))
    ensures Inv(Do(s, WorkerRuns(choice)))
  {
  }

  lemma BeginKeeps(s: State, choice: Choice)
    requires Inv(s) && s.worker.Begin? && Enabled(s, WorkerRuns(choice))
    ensures Inv(Do(s, WorkerRuns(choice)))
  {
  }

  lemma CallingAppendsKeeps(s: State, choice: Choice)
    requires Inv(s) && s.worker.Calling? && (choice.AppendRequest? || choice.AppendResponse?)
    requires Enabled(s, WorkerRuns(choice))
    ensures Inv(Do(s, WorkerRuns(choice)))
  {
  }

  lemma CallingMovesKeeps(s: State, choice: Choice)
    requires Inv(s) && s.worker.Calling? && (choice.Check? || choice.OpenStream?)
    requires Enabled(s, WorkerRuns(choice))
    ensures Inv(Do(s, WorkerRuns(choice)))
  {
    var t := Do(s, WorkerRuns(choice));
    assert t == s.(worker := t.worker, nextStream := t.nextStream);
    assert OutcomeInv(t) && CancelerInv(t);
  }

  lemma CallingLeavesKeeps(s: State, choice: Choice)
    requires Inv(s) && s.worker.Calling? && (choice.ReturnAction? || choice.Fail?)
    requires Enabled(s, WorkerRuns(choice))
    ensures Inv(Do(s, WorkerRuns(choice)))
  {
    var t := Do(s, WorkerRuns(choice));
    assert t == s.(worker := t.worker, nextStream := t.nextStream);
    assert OutcomeInv(t) && CancelerInv(t);
  }

  lemma CheckFlagKeeps(s: State, choice: Choice)
    requires Inv(s) && s.worker.CheckFlag? && Enabled(s, WorkerRuns(choice))
    ensures Inv(Do(s, WorkerRuns(choice)))
  {
  }

  lemma AppendCanceledKeeps(s: State, choice: Choice)
    requires Inv(s) && s.worker.AppendCanceled? && Enabled(s, WorkerRuns(choice))
    ensures Inv(Do(s, WorkerRuns(choice)))
  {
  }

  lemma UnwindingKeeps(s: State, choice: Choice)
    requires Inv(s) && s.worker.Unwinding? && Enabled(s, WorkerRuns(choice))
    ensures Inv(Do(s, WorkerRuns(choice)))
  {
  }

  lemma RecordPretransportKeeps(s: State, choice: Choice)
    requires Inv(s) && s.worker.RecordPretransport? && Enabled(s, WorkerRuns(choice))
    ensures Inv(Do(s, WorkerRuns(choice)))
  {
  }

  lemma RegisterKeeps(s: State, choice: Choice)
    requires Inv(s) && s.worker.Register? && Enabled(s, WorkerRuns(choice))
    ensures Inv(Do(s, WorkerRuns(choice)))
  {
  }

  lemma ReadFlagKeeps(s: State, choice: Choice)
    requires Inv(s) && s.worker.ReadFlag? && Enabled(s, WorkerRuns(choice))
    ensures Inv(Do(s, WorkerRuns(choice)))
  {
  }

  lemma CloseCanceledKeeps(s: State, choice: Choice)
    requires Inv(s) && s.worker.CloseCanceled? && Enabled(s, WorkerRuns(choice))
    ensures Inv(Do(s, WorkerRuns(choice)))
  {
  }

  lemma RecordTransportKeeps(s: State, choice: Choice)
    requires Inv(s) && s.worker.RecordTransport? && Enabled(s, WorkerRuns(choice))
    ensures Inv(Do(s, WorkerRuns(choice)))
  {
    var t, turn := Do(s, WorkerRuns(choice)), s.worker.turn;
    assert t == s.(lock := Free, worker := t.worker, outcomes := t.outcomes, cancellations := t.cancellations);
    if turn !in s.outcomes {
      assert t.outcomes == s.outcomes + {turn} && |t.outcomes| == |s.outcomes| + 1;
    }
  }

  lemma FinallyKeeps(s: State, choice: Choice)
    requires Inv(s) && s.worker.Finally? && Enabled(s, WorkerRuns(choice))
    ensures Inv(Do(s, WorkerRuns(choice)))
  {
  }

  lemma PopKeeps(s: State, choice: Choice)
    requires Inv(s) && s.worker.Pop? && Enabled(s, WorkerRuns(choice))
    ensures Inv(Do(s, WorkerRuns(choice)))
  {
  }

  lemma LeaveKeeps(s: State, choice: Choice)
    requires Inv(s) && s.worker.Leave? && Enabled(s, WorkerRuns(choice))
    ensures Inv(Do(s, WorkerRuns(choice)))
  {
    var t := Do(s, WorkerRuns(choice));
    assert t == s.(lock := Free, worker := Idle, active := t.active, flagged := t.flagged, streams := t.streams);
    assert t.active.None? && t.flagged == {} && t.streams == map[];
    forall k | k in t.cancelers ensures CancelerSound(t, t.cancelers[k]) {
      assert CancelerSound(s, s.cancelers[k]);
    }
  }

  lemma ResetClearKeeps(s: State, choice: Choice)
    requires Inv(s) && s.worker.ResetClear? && Enabled(s, WorkerRuns(choice))
    ensures Inv(Do(s, WorkerRuns(choice)))
  {
  }

  lemma ResetStatsKeeps(s: State, choice: Choice)
    requires Inv(s) && s.worker.ResetStats? && Enabled(s, WorkerRuns(choice))
    ensures Inv(Do(s, WorkerRuns(choice)))
  {
  }

  /** A canceler may move on, giving up the lock, to any place that fits the streams it knows. */
  lemma CancelerMoves(s: State, id: nat, pc: CancelPc, lock: Lock)
    requires Inv(s) && id in s.cancelers && CancelerSound(s, pc)
    requires lock.Free? || (lock == s.lock && lock != HeldBy(id))
    ensures Inv(s.(lock := lock, cancelers := s.cancelers[id := pc]))
  {
    var t := s.(lock := lock, cancelers := s.cancelers[id := pc]);
    forall k | k in t.cancelers ensures CancelerSound(t, t.cancelers[k]) {
      assert k != id ==> CancelerSound(s, s.cancelers[k]);
    }
  }

  lemma RaiseFlagKeeps(s: State, turn: Turn)
    requires Inv(s) && s.active == Some(turn)
    ensures Inv(s.(flagged := s.flagged + {turn}, accepted := true))
  {
    var t := s.(flagged := s.flagged + {turn}, accepted := true);
    assert InTurn(s.worker) && s.worker.turn == turn && t.flagged == {turn};
    forall k | k in t.cancelers ensures CancelerSound(t, t.cancelers[k]) {
      assert CancelerSound(s, s.cancelers[k]);
    }
  }

  lemma CloseStreamKeeps(s: State, stream: Stream, closes: bool)
    requires Inv(s)
    ensures Inv(CloseCalled(s, stream, closes))
  {
    var t := CloseCalled(s, stream, closes);
    forall k | k in t.cancelers ensures CancelerSound(t, t.cancelers[k]) {
      assert CancelerSound(s, s.cancelers[k]);
    }
  }

  lemma RecordOutcomeKeeps(s: State, turn: Turn, stream: Stream)
    requires Inv(s) && stream in s.owner && s.owner[stream] == turn && stream in s.closed
    ensures Inv(RecordOutcome(s, turn))
  {
    var t := RecordOutcome(s, turn);
    if turn !in s.outcomes {
      assert t == s.(outcomes := t.outcomes, cancellations := t.cancellations, missed := t.missed);
      assert |t.outcomes| == |s.outcomes| + 1;
      forall k | k in t.cancelers ensures CancelerSound(t, t.cancelers[k]) {
        assert CancelerSound(s, s.cancelers[k]);
      }
    }
  }

  lemma RequestingKeeps(s: State, id: nat, closes: bool)
    requires Inv(s) && Enabled(s, CancelRuns(id, closes)) && s.cancelers[id].Requesting?
    ensures Inv(Do(s, CancelRuns(id, closes)))
  {
    if s.active != Some(s.cancelers[id].turn) {
      CancelerMoves(s, id, Finished(false), Free);
    } else {
      AcceptingKeeps(s, id, closes);
    }
  }

  lemma AcceptingKeeps(s: State, id: nat, closes: bool)
    requires Inv(s) && Enabled(s, CancelRuns(id, closes)) && s.cancelers[id].Requesting?
    requires s.active == Some(s.cancelers[id].turn)
    ensures Inv(Do(s, CancelRuns(id, closes)))
  {
    var turn := s.cancelers[id].turn;
    var flagged := s.(flagged := s.flagged + {turn}, accepted := true);
    RaiseFlagKeeps(s, turn);
    CancelerMoves(flagged, id, if turn in s.streams then Closing(turn, s.streams[turn]) else Finished(false), Free);
  }

  lemma ClosingKeeps(s: State, id: nat, closes: bool)
    requires Inv(s) && Enabled(s, CancelRuns(id, closes)) && s.cancelers[id].Closing?
    ensures Inv(Do(s, CancelRuns(id, closes)))
  {
    var turn, stream := s.cancelers[id].turn, s.cancelers[id].stream;
    assert CancelerSound(s, s.cancelers[id]);
    CloseStreamKeeps(s, stream, closes);
    var next := if closes then Recording(turn, stream) else Finished(false);
    CancelerMoves(CloseCalled(s, stream, closes), id, next, s.lock);
  }

  lemma RecordingKeeps(s: State, id: nat, closes: bool)
    requires Inv(s) && Enabled(s, CancelRuns(id, closes)) && s.cancelers[id].Recording?
    ensures Inv(Do(s, CancelRuns(id, closes)))
  {
    assert CancelerSound(s, s.cancelers[id]);
    RecordOutcomeKeeps(s, s.cancelers[id].turn, s.cancelers[id].stream);
    CancelerMoves(RecordOutcome(s, s.cancelers[id].turn), id, Finished(true), Free);
  }

  lemma AcquiringKeeps(s: State, act: Act)
    requires Inv(s) && Enabled(s, act) && !act.WorkerRuns? && !act.CancelRuns?
    ensures Inv(Do(s, act))
  {
    var t := Do(s, act);
    forall k | k in t.cancelers ensures CancelerSound(t, t.cancelers[k]) {
      assert k in s.cancelers ==> CancelerSound(s, s.cancelers[k]);
    }
  }

  lemma StepKeepsInv(s: State, act: Act)
    requires Inv(s) && Enabled(s, act)
    ensures Inv(Do(s, act))
  {
    match act
    case WorkerAcquires => AcquiringKeeps(s, act);
    case CancelStarts(_, _) => AcquiringKeeps(s, act);
    case CancelAcquires(_) => AcquiringKeeps(s, act);
    case WorkerRuns(choice) => {
      match s.worker {
      case Idle => IdleKeeps(s, choice);
      case Begin(_) => BeginKeeps(s, choice);
      case Calling(_) =>
        if choice.AppendRequest? || choice.AppendResponse? {
          CallingAppendsKeeps(s, choice);
        } else if choice.Check? || choice.OpenStream? {
          CallingMovesKeeps(s, choice);
        } else {
          CallingLeavesKeeps(s, choice);
        }
      case CheckFlag(_, _) => CheckFlagKeeps(s, choice);
      case RecordPretransport(_) => RecordPretransportKeeps(s, choice);
      case AppendCanceled(_) => AppendCanceledKeeps(s, choice);
      case Unwinding(_) => UnwindingKeeps(s, choice);
      case Register(_, _) => RegisterKeeps(s, choice);
      case ReadFlag(_, _, _) => ReadFlagKeeps(s, choice);
      case CloseCanceled(_, _) => CloseCanceledKeeps(s, choice);
      case RecordTransport(_, _) => RecordTransportKeeps(s, choice);
      case Finally(_, _, _) => FinallyKeeps(s, choice);
      case Pop(_, _, _) => PopKeeps(s, choice);
      case Leave(_, _) => LeaveKeeps(s, choice);
      case ResetClear => ResetClearKeeps(s, choice);
      case ResetStats => ResetStatsKeeps(s, choice);
      }
    }
    case CancelRuns(id, closes) => {
      match s.cancelers[id] {
      case Requesting(_) => RequestingKeeps(s, id, closes);
      case Closing(_, _) => ClosingKeeps(s, id, closes);
      case Recording(_, _) => RecordingKeeps(s, id, closes);
      case Finished(_) =>
      }
    }
  }

  lemma {:induction false} ReachableInv(acts: seq<Act>)
    requires After(acts).Some?
    ensures Inv(After(acts).value)
    decreases |acts|
  {
    if acts != [] {
      ReachableInv(acts[..|acts| - 1]);
      StepKeepsInv(After(acts[..|acts| - 1]).value, acts[|acts| - 1]);
    }
  }

  // ---- What the invariant gives ----

  /** No thread waits for a lock it already holds, and a held lock is released by its holder's very next step. */
  lemma HeldLockIsReleased(acts: seq<Act>)
    requires After(acts).Some? && !After(acts).value.lock.Free?
    ensures var s := After(acts).value;
      exists act: Act :: Enabled(s, act) && Do(s, act).lock.Free?
        && !Enabled(s, WorkerAcquires) && forall id :: !Enabled(s, CancelAcquires(id))
  {
    ReachableInv(acts);
    var s := After(acts).value;
    var act := if s.lock.HeldByWorker? then WorkerRuns(if s.worker.ReadFlag? then NextChunk else Go)
               else CancelRuns(s.lock.canceler, true);
    assert Enabled(s, act) && Do(s, act).lock.Free?;
  }

  /** Whenever the worker is outside the stream code, `close` has been called on every stream it ever registered. */
  lemma EveryStreamIsClosed(acts: seq<Act>, stream: Stream)
    requires After(acts).Some? && stream in After(acts).value.owner
    ensures var s := After(acts).value; !HoldsStream(s.worker) ==> stream in s.closeCalled
  {
    ReachableInv(acts);
  }

  // ---- No lost cancellation, read off the interleaving ----

  lemma {:induction false} PrefixesRun(acts: seq<Act>, n: nat)
    requires After(acts).Some? && n <= |acts|
    ensures After(acts[..n]).Some?
    ensures n < |acts| ==> Enabled(After(acts[..n]).value, acts[n])
    decreases |acts| - n
  {
    if n == |acts| {
      assert acts[..n] == acts;
    } else {
      PrefixesRun(acts, n + 1);
      assert acts[..n + 1][..n] == acts[..n];
    }
  }

  /** The locked section of `cancel_realtime_turn` that finds its turn active and flags it. */
  ghost predicate AcceptsAt(acts: seq<Act>, n: nat) {
    && n < |acts| && After(acts[..n]).Some?
    && var s := After(acts[..n]).value;
      && acts[n].CancelRuns? && acts[n].id in s.cancelers && s.cancelers[acts[n].id].Requesting?
      && s.active == Some(s.cancelers[acts[n].id].turn)
  }

  /** The worker reads the cancellation flag. */
  ghost predicate ReadsAt(acts: seq<Act>, n: nat) {
    && n < |acts| && After(acts[..n]).Some? && acts[n].WorkerRuns?
    && (After(acts[..n]).value.worker.CheckFlag? || After(acts[..n]).value.worker.ReadFlag?)
  }

  ghost predicate BeginsAt(acts: seq<Act>, n: nat) {
    n < |acts| && After(acts[..n]).Some? && acts[n].WorkerRuns? && After(acts[..n]).value.worker.Begin?
  }

  ghost predicate SameTurnSince(acts: seq<Act>, n: nat) {
    forall m :: n <= m < |acts| ==> !BeginsAt(acts, m)
  }

  /** A cancel was accepted during the turn still running. */
  ghost predicate CancelAccepted(acts: seq<Act>) {
    exists i: nat :: AcceptsAt(acts, i) && SameTurnSince(acts, i)
  }

  /** A cancel was accepted during the turn still running, and the worker has read the flag since. */
  ghost predicate CancelAcceptedThenRead(acts: seq<Act>) {
    exists i: nat, j: nat :: AcceptsAt(acts, i) && SameTurnSince(acts, i) && i < j && ReadsAt(acts, j)
  }

  lemma EventsOfPrefix(acts: seq<Act>, n: nat, m: nat)
    requires m < n <= |acts|
    ensures AcceptsAt(acts[..n], m) <==> AcceptsAt(acts, m)
    ensures ReadsAt(acts[..n], m) <==> ReadsAt(acts, m)
    ensures BeginsAt(acts[..n], m) <==> BeginsAt(acts, m)
  {
    assert acts[..n][..m] == acts[..m];
  }

  lemma AcceptedStays(acts: seq<Act>)
    requires acts != [] && !BeginsAt(acts, |acts| - 1)
    requires AcceptsAt(acts, |acts| - 1) || CancelAccepted(acts[..|acts| - 1])
    ensures CancelAccepted(acts)
  {
    var n := |acts| - 1;
    if AcceptsAt(acts, n) {
      assert SameTurnSince(acts, n);
    } else {
      var i: nat :| AcceptsAt(acts[..n], i) && SameTurnSince(acts[..n], i);
      EventsOfPrefix(acts, n, i);
      forall m | i <= m < |acts| ensures !BeginsAt(acts, m) {
        if m < n {
          EventsOfPrefix(acts, n, m);
        }
      }
      assert SameTurnSince(acts, i);
    }
  }

  lemma AcceptedBefore(acts: seq<Act>)
    requires acts != [] && CancelAccepted(acts)
    ensures !BeginsAt(acts, |acts| - 1)
    ensures AcceptsAt(acts, |acts| - 1) || CancelAccepted(acts[..|acts| - 1])
  {
    var n := |acts| - 1;
    var i: nat :| AcceptsAt(acts, i) && SameTurnSince(acts, i);
    if i < n {
      EventsOfPrefix(acts, n, i);
      forall m | i <= m < n ensures !BeginsAt(acts[..n], m) {
        EventsOfPrefix(acts, n, m);
      }
      assert SameTurnSince(acts[..n], i);
    }
  }

  lemma AcceptedAfterStep(acts: seq<Act>)
    requires acts != []
    ensures var n := |acts| - 1;
      CancelAccepted(acts) <==> !BeginsAt(acts, n) && (AcceptsAt(acts, n) || CancelAccepted(acts[..n]))
  {
    if CancelAccepted(acts) {
      AcceptedBefore(acts);
    } else if !BeginsAt(acts, |acts| - 1) && (AcceptsAt(acts, |acts| - 1) || CancelAccepted(acts[..|acts| - 1])) {
      AcceptedStays(acts);
    }
  }

  lemma ReadSurvivesStep(acts: seq<Act>)
    requires acts != [] && !BeginsAt(acts, |acts| - 1)
    requires var n := |acts| - 1;
      (ReadsAt(acts, n) && CancelAccepted(acts[..n])) || CancelAcceptedThenRead(acts[..n])
    ensures CancelAcceptedThenRead(acts)
  {
    var n := |acts| - 1;
    forall m | 0 <= m < n ensures BeginsAt(acts[..n], m) <==> BeginsAt(acts, m) {
      EventsOfPrefix(acts, n, m);
    }
    if CancelAcceptedThenRead(acts[..n]) {
      var i: nat, j: nat :| AcceptsAt(acts[..n], i) && SameTurnSince(acts[..n], i) && i < j && ReadsAt(acts[..n], j);
      EventsOfPrefix(acts, n, i);
      EventsOfPrefix(acts, n, j);
      assert AcceptsAt(acts, i) && SameTurnSince(acts, i) && ReadsAt(acts, j);
    } else {
      var i: nat :| AcceptsAt(acts[..n], i) && SameTurnSince(acts[..n], i);
      EventsOfPrefix(acts, n, i);
      assert AcceptsAt(acts, i) && SameTurnSince(acts, i);
    }
  }

  lemma ReadComesFromStep(acts: seq<Act>)
    requires acts != [] && CancelAcceptedThenRead(acts)
    ensures var n := |acts| - 1;
      !BeginsAt(acts, n) && ((ReadsAt(acts, n) && CancelAccepted(acts[..n])) || CancelAcceptedThenRead(acts[..n]))
  {
    var n := |acts| - 1;
    forall m | 0 <= m < n ensures BeginsAt(acts[..n], m) <==> BeginsAt(acts, m) {
      EventsOfPrefix(acts, n, m);
    }
    var i: nat, j: nat :| AcceptsAt(acts, i) && SameTurnSince(acts, i) && i < j && ReadsAt(acts, j);
    EventsOfPrefix(acts, n, i);
    assert AcceptsAt(acts[..n], i) && SameTurnSince(acts[..n], i);
    if j < n {
      EventsOfPrefix(acts, n, j);
      assert ReadsAt(acts[..n], j);
    }
  }

  lemma ReadAfterStep(acts: seq<Act>)
    requires acts != []
    ensures var n := |acts| - 1;
      CancelAcceptedThenRead(acts) <==>
        !BeginsAt(acts, n) && ((ReadsAt(acts, n) && CancelAccepted(acts[..n])) || CancelAcceptedThenRead(acts[..n]))
  {
    if CancelAcceptedThenRead(acts) {
      ReadComesFromStep(acts);
    } else if !BeginsAt(acts, |acts| - 1) &&
              ((ReadsAt(acts, |acts| - 1) && CancelAccepted(acts[..|acts| - 1]))
               || CancelAcceptedThenRead(acts[..|acts| - 1])) {
      ReadSurvivesStep(acts);
    }
  }

  lemma CancelerHistory(s: State, id: nat, closes: bool)
    requires id in s.cancelers && !s.cancelers[id].Finished?
    ensures CancelStep(s, id, closes).readSince == s.readSince
    ensures CancelStep(s, id, closes).accepted ==
      (s.accepted || (s.cancelers[id].Requesting? && s.active == Some(s.cancelers[id].turn)))
  {
    var t := CancelStep(s, id, closes);
    match s.cancelers[id]
    case Requesting(turn) =>
      if s.active == Some(turn) {
        assert t.accepted && t.readSince == s.readSince;
      } else {
        assert t.accepted == s.accepted && t.readSince == s.readSince;
      }
    case Closing(_, _) => assert t.accepted == s.accepted && t.readSince == s.readSince;
    case Recording(_, _) => assert t.accepted == s.accepted && t.readSince == s.readSince;
  }

  lemma HistoryOfStep(s: State, acts: seq<Act>)
    requires acts != [] && After(acts[..|acts| - 1]) == Some(s) && Inv(s) && Enabled(s, acts[|acts| - 1])
    ensures var n, t := |acts| - 1, Do(s, acts[|acts| - 1]);
      && (t.accepted <==> !BeginsAt(acts, n) && (AcceptsAt(acts, n) || s.accepted))
      && (t.readSince <==> !BeginsAt(acts, n) && ((ReadsAt(acts, n) && s.accepted) || s.readSince))
  {
    match acts[|acts| - 1]
    case CancelRuns(id, closes) => CancelerHistory(s, id, closes);
    case _ =>
  }

  /** The history variables say what they should about the interleaving. */
  lemma {:induction false} HistoryIsFaithful(acts: seq<Act>)
    requires After(acts).Some?
    ensures After(acts).value.accepted <==> CancelAccepted(acts)
    ensures After(acts).value.readSince <==> CancelAcceptedThenRead(acts)
    decreases |acts|
  {
    if acts != [] {
      var n := |acts| - 1;
      HistoryIsFaithful(acts[..n]);
      ReachableInv(acts[..n]);
      HistoryOfStep(After(acts[..n]).value, acts);
      AcceptedAfterStep(acts);
      ReadAfterStep(acts);
    }
  }

  /** Under every interleaving, a turn ends with the canceled error exactly when some cancel of it was accepted before
      one of its later flag reads: no cancel that precedes the last read is lost, and none is invented. */
  lemma NoLostCancellation(acts: seq<Act>)
    requires After(acts).Some? && After(acts).value.worker.Leave?
    ensures After(acts).value.worker.exit.Canceled? <==> CancelAcceptedThenRead(acts)
  {
    ReachableInv(acts);
    HistoryIsFaithful(acts);
  }

  // ---- Outcomes and records, read off the interleaving ----

  /** Some hit has no later undoing. */
  ghost predicate Live(hits: set<nat>, undos: set<nat>) {
    exists i :: i in hits && forall m :: m in undos ==> m < i
  }

  function OneMore(events: set<nat>, n: nat, now: bool): set<nat> {
    if now then events + {n} else events
  }

  lemma LiveAfterStep(hits: set<nat>, undos: set<nat>, n: nat, hit: bool, undo: bool)
    requires (forall i :: i in hits ==> i < n) && (forall i :: i in undos ==> i < n) && !(hit && undo)
    ensures Live(OneMore(hits, n, hit), OneMore(undos, n, undo)) <==> hit || (!undo && Live(hits, undos))
  {
    var h, u := OneMore(hits, n, hit), OneMore(undos, n, undo);
    if hit {
      assert n in h;
    } else if !undo && Live(hits, undos) {
      var i :| i in hits && forall m :: m in undos ==> m < i;
      assert i in h;
    }
    if Live(h, u) {
      var i :| i in h && forall m :: m in u ==> m < i;
      if !hit {
        assert undo ==> n in u;
        assert i in hits && forall m :: m in undos ==> m in u;
      }
    }
  }

  /** The worker clears the shared fields of the previous episode. */
  ghost predicate ClearsAt(acts: seq<Act>, n: nat) {
    n < |acts| && After(acts[..n]).Some? && acts[n].WorkerRuns? && After(acts[..n]).value.worker.ResetClear?
  }

  /** A canceler records a new outcome after the fields are cleared and before the statistics are replaced. */
  ghost predicate MissesAt(acts: seq<Act>, n: nat) {
    && n < |acts| && After(acts[..n]).Some?
    && var s := After(acts[..n]).value;
      && s.worker.ResetStats? && acts[n].CancelRuns? && acts[n].id in s.cancelers
      && s.cancelers[acts[n].id].Recording? && s.cancelers[acts[n].id].turn !in s.outcomes
  }

  /** A turn is begun under the id `turn`. */
  ghost predicate BeginsTurnAt(acts: seq<Act>, turn: Turn, n: nat) {
    n < |acts| && After(acts[..n]).Some? && acts[n].WorkerRuns? && After(acts[..n]).value.worker == Begin(turn)
  }

  /** A turn is begun under an id that is on record as canceled before its first request. */
  ghost predicate ReusesAt(acts: seq<Act>, turn: Turn, n: nat) {
    BeginsTurnAt(acts, turn, n) && turn in After(acts[..n]).value.pretransport
  }

  /** The turn `turn` appends a request record. */
  ghost predicate AppendsAt(acts: seq<Act>, turn: Turn, n: nat) {
    && n < |acts| && After(acts[..n]).Some? && acts[n].WorkerRuns?
    && AppendsFrom(After(acts[..n]).value.worker, acts[n].choice, turn)
  }

  predicate AppendsFrom(pc: Pc, choice: Choice, turn: Turn) {
    pc == AppendCanceled(turn) || (pc == Calling(turn) && choice.AppendRequest?)
  }

  ghost predicate RestartsAt(acts: seq<Act>, turn: Turn, n: nat) {
    BeginsTurnAt(acts, turn, n) || ClearsAt(acts, n)
  }

  ghost function Clears(acts: seq<Act>): set<nat> {
    set n | 0 <= n < |acts| && ClearsAt(acts, n)
  }

  ghost function Misses(acts: seq<Act>): set<nat> {
    set n | 0 <= n < |acts| && MissesAt(acts, n)
  }

  ghost function Reuses(acts: seq<Act>, turn: Turn): set<nat> {
    set n | 0 <= n < |acts| && ReusesAt(acts, turn, n)
  }

  ghost function Appends(acts: seq<Act>, turn: Turn): set<nat> {
    set n | 0 <= n < |acts| && AppendsAt(acts, turn, n)
  }

  ghost function Restarts(acts: seq<Act>, turn: Turn): set<nat> {
    set n | 0 <= n < |acts| && RestartsAt(acts, turn, n)
  }

  /** An outcome was recorded between the two halves of the last reset. */
  ghost predicate MissedAnOutcome(acts: seq<Act>) {
    Live(Misses(acts), Clears(acts))
  }

  /** Since the last reset, `turn` was begun again after being recorded. */
  ghost predicate BegunAgain(acts: seq<Act>, turn: Turn) {
    Live(Reuses(acts, turn), Clears(acts))
  }

  /** A request was appended since `turn` was last begun. */
  ghost predicate AppendedSinceBegun(acts: seq<Act>, turn: Turn) {
    Live(Appends(acts, turn), Restarts(acts, turn))
  }

  lemma RecordsOfPrefix(acts: seq<Act>, turn: Turn, n: nat, m: nat)
    requires m < n <= |acts|
    ensures ClearsAt(acts[..n], m) <==> ClearsAt(acts, m)
    ensures MissesAt(acts[..n], m) <==> MissesAt(acts, m)
    ensures ReusesAt(acts[..n], turn, m) <==> ReusesAt(acts, turn, m)
    ensures BeginsTurnAt(acts[..n], turn, m) <==> BeginsTurnAt(acts, turn, m)
    ensures AppendsAt(acts[..n], turn, m) <==> AppendsAt(acts, turn, m)
  {
    assert acts[..n][..m] == acts[..m];
  }

  lemma ClearsAfterStep(acts: seq<Act>)
    requires acts != []
    ensures var n := |acts| - 1; Clears(acts) == OneMore(Clears(acts[..n]), n, ClearsAt(acts, n))
  {
    var n := |acts| - 1;
    forall m | 0 <= m < n ensures ClearsAt(acts[..n], m) <==> ClearsAt(acts, m) {
      RecordsOfPrefix(acts, "", n, m);
    }
  }

  lemma MissesAfterStep(acts: seq<Act>)
    requires acts != []
    ensures var n := |acts| - 1; Misses(acts) == OneMore(Misses(acts[..n]), n, MissesAt(acts, n))
  {
    var n := |acts| - 1;
    forall m | 0 <= m < n ensures MissesAt(acts[..n], m) <==> MissesAt(acts, m) {
      RecordsOfPrefix(acts, "", n, m);
    }
  }

  lemma ReusesAfterStep(acts: seq<Act>, turn: Turn)
    requires acts != []
    ensures var n := |acts| - 1; Reuses(acts, turn) == OneMore(Reuses(acts[..n], turn), n, ReusesAt(acts, turn, n))
  {
    var n := |acts| - 1;
    forall m | 0 <= m < n ensures ReusesAt(acts[..n], turn, m) <==> ReusesAt(acts, turn, m) {
      RecordsOfPrefix(acts, turn, n, m);
    }
  }

  lemma AppendsAfterStep(acts: seq<Act>, turn: Turn)
    requires acts != []
    ensures var n := |acts| - 1; Appends(acts, turn) == OneMore(Appends(acts[..n], turn), n, AppendsAt(acts, turn, n))
  {
    var n := |acts| - 1;
    forall m | 0 <= m < n ensures AppendsAt(acts[..n], turn, m) <==> AppendsAt(acts, turn, m) {
      RecordsOfPrefix(acts, turn, n, m);
    }
  }

  lemma RestartsAfterStep(acts: seq<Act>, turn: Turn)
    requires acts != []
    ensures var n := |acts| - 1;
      Restarts(acts, turn) == OneMore(Restarts(acts[..n], turn), n, RestartsAt(acts, turn, n))
  {
    var n := |acts| - 1;
    forall m | 0 <= m < n ensures RestartsAt(acts[..n], turn, m) <==> RestartsAt(acts, turn, m) {
      RecordsOfPrefix(acts, turn, n, m);
    }
  }

  lemma MissedAfterStep(s: State, acts: seq<Act>)
    requires acts != [] && After(acts[..|acts| - 1]) == Some(s) && Enabled(s, acts[|acts| - 1])
    ensures var n, t := |acts| - 1, Do(s, acts[|acts| - 1]);
      t.missed > 0 <==> MissesAt(acts, n) || (!ClearsAt(acts, n) && s.missed > 0)
  {
    match acts[|acts| - 1]
    case CancelRuns(id, closes) => CancelerMisses(s, id, closes);
    case _ =>
  }

  lemma ReusedAfterStep(s: State, acts: seq<Act>, turn: Turn)
    requires acts != [] && After(acts[..|acts| - 1]) == Some(s) && Enabled(s, acts[|acts| - 1])
    ensures var n, t := |acts| - 1, Do(s, acts[|acts| - 1]);
      turn in t.reused <==> ReusesAt(acts, turn, n) || (!ClearsAt(acts, n) && turn in s.reused)
  {
    StepReuses(s, acts[|acts| - 1], turn);
  }

  lemma StepReuses(s: State, act: Act, turn: Turn)
    requires Enabled(s, act)
    ensures turn in Do(s, act).reused <==>
      || (act.WorkerRuns? && s.worker == Begin(turn) && turn in s.pretransport)
      || (!(act.WorkerRuns? && s.worker.ResetClear?) && turn in s.reused)
  {
    match act
    case CancelRuns(id, closes) => CancelerKeepsReused(s, id, closes);
    case _ =>
  }

  lemma AppendedAfterStep(s: State, acts: seq<Act>, turn: Turn)
    requires acts != [] && After(acts[..|acts| - 1]) == Some(s) && Enabled(s, acts[|acts| - 1])
    ensures var n, t := |acts| - 1, Do(s, acts[|acts| - 1]);
      Appended(t, turn) > 0 <==>
      AppendsAt(acts, turn, n) || (!RestartsAt(acts, turn, n) && Appended(s, turn) > 0)
  {
    StepAppends(s, acts[|acts| - 1], turn);
  }

  lemma StepAppends(s: State, act: Act, turn: Turn)
    requires Enabled(s, act)
    ensures Appended(Do(s, act), turn) > 0 <==>
      || (act.WorkerRuns? && AppendsFrom(s.worker, act.choice, turn))
      || (!(act.WorkerRuns? && (s.worker == Begin(turn) || s.worker.ResetClear?)) && Appended(s, turn) > 0)
  {
    match act
    case WorkerRuns(choice) => WorkerAppends(s, choice, turn);
    case CancelRuns(id, closes) => CancelerKeepsAppended(s, id, closes);
    case _ =>
  }

  lemma WorkerAppends(s: State, choice: Choice, turn: Turn)
    requires Enabled(s, WorkerRuns(choice))
    ensures Appended(Do(s, WorkerRuns(choice)), turn) > 0 <==>
      || AppendsFrom(s.worker, choice, turn)
      || (s.worker != Begin(turn) && !s.worker.ResetClear? && Appended(s, turn) > 0)
  {
    assert Do(s, WorkerRuns(choice)).appended == AppendedAfter(s, choice);
  }

  lemma CancelerKeepsReused(s: State, id: nat, closes: bool)
    requires id in s.cancelers && !s.cancelers[id].Finished?
    ensures CancelStep(s, id, closes).reused == s.reused
  {
    match s.cancelers[id]
    case Requesting(_) =>
    case Closing(_, _) =>
    case Recording(_, _) =>
  }

  lemma CancelerKeepsAppended(s: State, id: nat, closes: bool)
    requires id in s.cancelers && !s.cancelers[id].Finished?
    ensures CancelStep(s, id, closes).appended == s.appended
  {
    match s.cancelers[id]
    case Requesting(_) =>
    case Closing(_, _) =>
    case Recording(_, _) =>
  }

  lemma CancelerMisses(s: State, id: nat, closes: bool)
    requires id in s.cancelers && !s.cancelers[id].Finished?
    ensures var t, pc := CancelStep(s, id, closes), s.cancelers[id];
      t.missed == if pc.Recording? && pc.turn !in s.outcomes && s.worker.ResetStats? then s.missed + 1 else s.missed
  {
    match s.cancelers[id]
    case Requesting(_) =>
    case Closing(_, _) =>
    case Recording(_, _) =>
  }

  /** The counts and sets kept beside the protocol say what they should about the interleaving. */
  lemma {:induction false} RecordsAreFaithful(acts: seq<Act>, turn: Turn)
    requires After(acts).Some?
    ensures var s := After(acts).value;
      && (s.missed > 0 <==> MissedAnOutcome(acts))
      && (turn in s.reused <==> BegunAgain(acts, turn))
      && (Appended(s, turn) > 0 <==> AppendedSinceBegun(acts, turn))
    decreases |acts|
  {
    if acts != [] {
      var n := |acts| - 1;
      var before, s := acts[..n], After(acts[..n]).value;
      RecordsAreFaithful(before, turn);
      ClearsAfterStep(acts);
      MissesAfterStep(acts);
      ReusesAfterStep(acts, turn);
      AppendsAfterStep(acts, turn);
      RestartsAfterStep(acts, turn);
      MissedAfterStep(s, acts);
      ReusedAfterStep(s, acts, turn);
      AppendedAfterStep(s, acts, turn);
      LiveAfterStep(Misses(before), Clears(before), n, MissesAt(acts, n), ClearsAt(acts, n));
      LiveAfterStep(Reuses(before, turn), Clears(before), n, ReusesAt(acts, turn, n), ClearsAt(acts, n));
      LiveAfterStep(Appends(before, turn), Restarts(before, turn), n, AppendsAt(acts, turn, n), RestartsAt(acts,
          turn, n));
    }
  }

  /** A transport cancel is on record only for a turn one of whose streams really was closed, and the counter equals
      the number of such turns exactly when no outcome was recorded between the two halves of the last reset. */
  lemma CounterMatchesOutcomes(acts: seq<Act>)
    requires After(acts).Some?
    ensures var s := After(acts).value;
      && (forall t :: t in s.outcomes ==> exists x :: x in s.owner && s.owner[x] == t && x in s.closed)
      && (!s.worker.ResetStats? ==> (s.cancellations == |s.outcomes| <==> !MissedAnOutcome(acts)))
  {
    ReachableInv(acts);
    RecordsAreFaithful(acts, "");
  }

  /** A recorded pre-transport cancellation means no request was appended since the turn began, as long as the turn
      id was not begun again after being recorded. */
  lemma RecordedMeansNothingAppended(acts: seq<Act>, turn: Turn)
    requires After(acts).Some? && turn in After(acts).value.pretransport && !BegunAgain(acts, turn)
    ensures !AppendedSinceBegun(acts, turn)
  {
    ReachableInv(acts);
    RecordsAreFaithful(acts, turn);
  }

  /** A request appended by the running turn contradicts its record exactly when that turn id was begun again. */
  lemma AppendContradictsRecordExactlyOnReuse(acts: seq<Act>)
    requires After(acts).Some? && After(acts).value.worker.Calling?
    ensures var turn, longer := After(acts).value.worker.turn, acts + [WorkerRuns(AppendRequest)];
      && After(longer).Some?
      && (turn in After(longer).value.pretransport && AppendedSinceBegun(longer, turn) <==> BegunAgain(acts, turn))
  {
    var s := After(acts).value;
    var turn, longer := s.worker.turn, acts + [WorkerRuns(AppendRequest)];
    assert longer[..|longer| - 1] == acts;
    ReachableInv(acts);
    RecordsAreFaithful(acts, turn);
    RecordsAreFaithful(longer, turn);
  }

  // ---- What a cancel returns, and what it leaves on record ----

  /** Canceler `id` closes a stream, and the close does not raise. */
  ghost predicate ClosesAt(acts: seq<Act>, id: nat, n: nat) {
    && n < |acts| && After(acts[..n]).Some? && acts[n] == CancelRuns(id, true)
    && id in After(acts[..n]).value.cancelers && After(acts[..n]).value.cancelers[id].Closing?
  }

  ghost predicate HasClosed(acts: seq<Act>, id: nat) {
    exists n: nat :: ClosesAt(acts, id, n)
  }

  /** The canceler is about to return true, or has. */
  predicate Succeeds(s: State, id: nat) {
    id in s.cancelers && (s.cancelers[id].Recording? || s.cancelers[id] == Finished(true))
  }

  lemma HasClosedStep(acts: seq<Act>, id: nat)
    requires acts != []
    ensures var n := |acts| - 1; HasClosed(acts, id) <==> HasClosed(acts[..n], id) || ClosesAt(acts, id, n)
  {
    var n := |acts| - 1;
    forall m: nat | m < n ensures ClosesAt(acts[..n], id, m) <==> ClosesAt(acts, id, m) {
      assert acts[..n][..m] == acts[..m];
    }
    if HasClosed(acts[..n], id) {
      var m: nat :| ClosesAt(acts[..n], id, m);
      assert ClosesAt(acts, id, m);
    }
    if HasClosed(acts, id) {
      var m: nat :| ClosesAt(acts, id, m);
      assert m < n ==> ClosesAt(acts[..n], id, m);
    }
  }

  lemma SucceedsStep(s: State, act: Act, id: nat)
    requires Enabled(s, act)
    ensures Succeeds(Do(s, act), id) <==>
      Succeeds(s, id) || (act == CancelRuns(id, true) && id in s.cancelers && s.cancelers[id].Closing?)
  {
    match act
    case CancelRuns(other, closes) => CancelerReturns(s, other, closes);
    case WorkerRuns(choice) => WorkerTouches(s, choice);
    case _ =>
  }

  lemma CancelerReturns(s: State, id: nat, closes: bool)
    requires id in s.cancelers && !s.cancelers[id].Finished?
    ensures var t, pc := CancelStep(s, id, closes), s.cancelers[id];
      && t.cancelers == s.cancelers[id := t.cancelers[id]]
      && (Succeeds(t, id) <==> pc.Recording? || (pc.Closing? && closes))
  {
    match s.cancelers[id]
    case Requesting(_) =>
    case Closing(_, _) =>
    case Recording(_, _) =>
  }

  /** A cancel returns true exactly when it has closed the stream of its turn, without the close raising. */
  lemma {:induction false} CancelReturnsWhatItClosed(acts: seq<Act>, id: nat)
    requires After(acts).Some?
    ensures Succeeds(After(acts).value, id) <==> HasClosed(acts, id)
    decreases |acts|
  {
    if acts != [] {
      var n := |acts| - 1;
      CancelReturnsWhatItClosed(acts[..n], id);
      HasClosedStep(acts, id);
      SucceedsStep(After(acts[..n]).value, acts[n], id);
    }
  }

  /** An outcome of `turn` is recorded: by the worker that closed the stream, or by a canceler that did. */
  ghost predicate RecordsAt(acts: seq<Act>, turn: Turn, n: nat) {
    && n < |acts| && After(acts[..n]).Some? && RecordsFrom(After(acts[..n]).value, acts[n], turn)
  }

  predicate RecordsFrom(s: State, act: Act, turn: Turn) {
    match act
    case WorkerRuns(_) => s.worker.RecordTransport? && s.worker.turn == turn
    case CancelRuns(id, _) => id in s.cancelers && s.cancelers[id].Recording? && s.cancelers[id].turn == turn
    case _ => false
  }

  ghost function Records(acts: seq<Act>, turn: Turn): set<nat> {
    set n | 0 <= n < |acts| && RecordsAt(acts, turn, n)
  }

  lemma RecordsAfterStep(acts: seq<Act>, turn: Turn)
    requires acts != []
    ensures var n := |acts| - 1; Records(acts, turn) == OneMore(Records(acts[..n], turn), n, RecordsAt(acts, turn, n))
  {
    var n := |acts| - 1;
    forall m | 0 <= m < n ensures RecordsAt(acts[..n], turn, m) <==> RecordsAt(acts, turn, m) {
      assert acts[..n][..m] == acts[..m];
    }
  }

  lemma OutcomesStep(s: State, act: Act, turn: Turn)
    requires Enabled(s, act)
    ensures turn in Do(s, act).outcomes <==>
      RecordsFrom(s, act, turn) || (!(act.WorkerRuns? && s.worker.ResetClear?) && turn in s.outcomes)
  {
    match act
    case CancelRuns(id, closes) => CancelerOutcomes(s, id, closes);
    case WorkerRuns(choice) => WorkerTouches(s, choice);
    case _ =>
  }

  lemma CancelerOutcomes(s: State, id: nat, closes: bool)
    requires id in s.cancelers && !s.cancelers[id].Finished?
    ensures CancelStep(s, id, closes).outcomes ==
            s.outcomes + if s.cancelers[id].Recording? then {s.cancelers[id].turn} else {}
  {
    match s.cancelers[id]
    case Requesting(_) =>
    case Closing(_, _) =>
    case Recording(_, _) =>
  }

  /** A worker step leaves the cancelers alone, and the outcomes too unless it records one or clears them. */
  lemma WorkerTouches(s: State, choice: Choice)
    requires Possible(s.worker, choice)
    ensures WorkerStep(s, choice).cancelers == s.cancelers
    ensures WorkerStep(s, choice).outcomes ==
            if s.worker.ResetClear? then {}
            else if s.worker.RecordTransport? then s.outcomes + {s.worker.turn} else s.outcomes
  {
    var pc := s.worker;
    if pc.Idle? || pc.Begin? || pc.Calling? || pc.CheckFlag? {
      StartingTouchesNeither(s, choice);
    } else if pc.RecordPretransport? || pc.AppendCanceled? || pc.Unwinding? || pc.Register? || pc.Leave? {
      LeavingTouchesNeither(s, choice);
    } else if pc.ReadFlag? || pc.CloseCanceled? || pc.Finally? || pc.Pop? {
      StreamingTouchesNeither(s, choice);
    } else if pc.RecordTransport? {
      RecordingTouches(s, choice);
    }
  }

  lemma RecordingTouches(s: State, choice: Choice)
    requires Possible(s.worker, choice) && s.worker.RecordTransport?
    ensures WorkerStep(s, choice).cancelers == s.cancelers
    ensures WorkerStep(s, choice).outcomes == s.outcomes + {s.worker.turn}
  {
  }

  lemma StartingTouchesNeither(s: State, choice: Choice)
    requires Possible(s.worker, choice)
    requires s.worker.Idle? || s.worker.Begin? || s.worker.Calling? || s.worker.CheckFlag?
    ensures WorkerStep(s, choice).cancelers == s.cancelers && WorkerStep(s, choice).outcomes == s.outcomes
    ensures !s.worker.RecordPretransport? ==> WorkerStep(s, choice).pretransport == s.pretransport
  {
    match s.worker
    case Idle =>
    case Begin(_) =>
    case Calling(_) =>
    case _ =>
  }

  lemma LeavingTouchesNeither(s: State, choice: Choice)
    requires Possible(s.worker, choice)
    requires s.worker.RecordPretransport? || s.worker.AppendCanceled? || s.worker.Unwinding? || s.worker.Register?
             || s.worker.Leave?
    ensures WorkerStep(s, choice).cancelers == s.cancelers && WorkerStep(s, choice).outcomes == s.outcomes
    ensures !s.worker.RecordPretransport? ==> WorkerStep(s, choice).pretransport == s.pretransport
  {
    match s.worker
    case RecordPretransport(_) =>
    case AppendCanceled(_) =>
    case Unwinding(_) =>
    case Register(_, _) =>
    case _ =>
  }

  lemma StreamingTouchesNeither(s: State, choice: Choice)
    requires Possible(s.worker, choice)
    requires s.worker.ReadFlag? || s.worker.CloseCanceled? || s.worker.Finally? || s.worker.Pop?
    ensures WorkerStep(s, choice).cancelers == s.cancelers && WorkerStep(s, choice).outcomes == s.outcomes
    ensures !s.worker.RecordPretransport? ==> WorkerStep(s, choice).pretransport == s.pretransport
  {
    match s.worker
    case ReadFlag(_, _, _) =>
    case CloseCanceled(_, _) =>
    case Finally(_, _, _) =>
    case _ =>
  }

  /** A turn has a recorded outcome exactly when one was recorded since the fields were last cleared. */
  lemma {:induction false} OutcomesAreRecorded(acts: seq<Act>, turn: Turn)
    requires After(acts).Some?
    ensures turn in After(acts).value.outcomes <==> Live(Records(acts, turn), Clears(acts))
    decreases |acts|
  {
    if acts != [] {
      var n := |acts| - 1;
      var s := After(acts[..n]).value;
      OutcomesAreRecorded(acts[..n], turn);
      RecordsAfterStep(acts, turn);
      ClearsAfterStep(acts);
      OutcomesStep(s, acts[n], turn);
      LiveAfterStep(Records(acts[..n], turn), Clears(acts[..n]), n, RecordsAt(acts, turn, n), ClearsAt(acts, n));
    }
  }

  ghost predicate RespondsAt(acts: seq<Act>, n: nat) {
    && n < |acts| && After(acts[..n]).Some? && acts[n] == WorkerRuns(AppendResponse)
    && var pc := After(acts[..n]).value.worker; pc.Calling? || pc.Unwinding?
  }

  ghost function Responds(acts: seq<Act>): set<nat> {
    set n | 0 <= n < |acts| && RespondsAt(acts, n)
  }

  ghost function Begins(acts: seq<Act>): set<nat> {
    set n | 0 <= n < |acts| && BeginsAt(acts, n)
  }

  /** A response was appended since the turn now running began. */
  ghost predicate AnsweredSinceBegun(acts: seq<Act>) {
    Live(Responds(acts), Begins(acts))
  }

  lemma RespondsAfterStep(acts: seq<Act>)
    requires acts != []
    ensures var n := |acts| - 1;
      Responds(acts) == OneMore(Responds(acts[..n]), n, RespondsAt(acts, n))
      && Begins(acts) == OneMore(Begins(acts[..n]), n, BeginsAt(acts, n))
  {
    var n := |acts| - 1;
    forall m | 0 <= m < n
      ensures (RespondsAt(acts[..n], m) <==> RespondsAt(acts, m)) && (BeginsAt(acts[..n], m) <==> BeginsAt(acts, m))
    {
      assert acts[..n][..m] == acts[..m];
    }
  }

  lemma AnsweredStep(s: State, act: Act)
    requires Enabled(s, act)
    ensures Do(s, act).answered > 0 <==>
      || (act == WorkerRuns(AppendResponse) && (s.worker.Calling? || s.worker.Unwinding?))
      || (!(act.WorkerRuns? && s.worker.Begin?) && s.answered > 0)
  {
    match act
    case CancelRuns(id, closes) => CancelerKeepsAnswered(s, id, closes);
    case _ =>
  }

  lemma CancelerKeepsAnswered(s: State, id: nat, closes: bool)
    requires id in s.cancelers && !s.cancelers[id].Finished?
    ensures CancelStep(s, id, closes).answered == s.answered
    ensures CancelStep(s, id, closes).pretransport == s.pretransport
  {
    match s.cancelers[id]
    case Requesting(_) =>
    case Closing(_, _) =>
    case Recording(_, _) =>
  }

  lemma {:induction false} AnsweredIsFaithful(acts: seq<Act>)
    requires After(acts).Some?
    ensures After(acts).value.answered > 0 <==> AnsweredSinceBegun(acts)
    decreases |acts|
  {
    if acts != [] {
      var n := |acts| - 1;
      AnsweredIsFaithful(acts[..n]);
      RespondsAfterStep(acts);
      AnsweredStep(After(acts[..n]).value, acts[n]);
      LiveAfterStep(Responds(acts[..n]), Begins(acts[..n]), n, RespondsAt(acts, n), BeginsAt(acts, n));
    }
  }

  /** The check that sees the cancel of `turn` looks for a request or response of the turn and finds none. */
  ghost predicate FindsNothingAt(acts: seq<Act>, turn: Turn, n: nat) {
    && n < |acts| && After(acts[..n]).Some? && acts[n].WorkerRuns?
    && After(acts[..n]).value.worker == RecordPretransport(turn)
    && !AppendedSinceBegun(acts[..n], turn) && !AnsweredSinceBegun(acts[..n])
  }

  ghost function FindsNothing(acts: seq<Act>, turn: Turn): set<nat> {
    set n | 0 <= n < |acts| && FindsNothingAt(acts, turn, n)
  }

  lemma FindsNothingAfterStep(acts: seq<Act>, turn: Turn)
    requires acts != []
    ensures var n := |acts| - 1;
      FindsNothing(acts, turn) == OneMore(FindsNothing(acts[..n], turn), n, FindsNothingAt(acts, turn, n))
  {
    var n := |acts| - 1;
    forall m | 0 <= m < n ensures FindsNothingAt(acts[..n], turn, m) <==> FindsNothingAt(acts, turn, m) {
      assert acts[..n][..m] == acts[..m];
    }
  }

  lemma PretransportStep(s: State, act: Act, turn: Turn)
    requires Inv(s) && Enabled(s, act)
    ensures turn in Do(s, act).pretransport <==>
      || (act.WorkerRuns? && s.worker == RecordPretransport(turn) && Appended(s, turn) == 0 && s.answered == 0)
      || (!(act.WorkerRuns? && s.worker.ResetClear?) && turn in s.pretransport)
  {
    match act
    case CancelRuns(id, closes) => CancelerKeepsAnswered(s, id, closes);
    case WorkerRuns(choice) => WorkerPretransport(s, choice, turn);
    case _ =>
  }

  lemma WorkerPretransport(s: State, choice: Choice, turn: Turn)
    requires Inv(s) && Possible(s.worker, choice)
    ensures turn in WorkerStep(s, choice).pretransport <==>
      || (s.worker == RecordPretransport(turn) && Appended(s, turn) == 0 && s.answered == 0)
      || (!s.worker.ResetClear? && turn in s.pretransport)
  {
    if s.worker.RecordPretransport? {
      RecordingPretransport(s, choice);
    } else if !s.worker.ResetClear? {
      OthersKeepPretransport(s, choice);
    }
  }

  lemma RecordingPretransport(s: State, choice: Choice)
    requires Inv(s) && Possible(s.worker, choice) && s.worker.RecordPretransport?
    ensures WorkerStep(s, choice).pretransport == s.pretransport +
      if Appended(s, s.worker.turn) == 0 && s.answered == 0 then {s.worker.turn} else {}
  {
  }

  lemma OthersKeepPretransport(s: State, choice: Choice)
    requires Possible(s.worker, choice) && !s.worker.RecordPretransport? && !s.worker.ResetClear?
    ensures WorkerStep(s, choice).pretransport == s.pretransport
  {
    var pc := s.worker;
    if pc.Idle? || pc.Begin? || pc.Calling? || pc.CheckFlag? {
      StartingTouchesNeither(s, choice);
    } else if pc.AppendCanceled? || pc.Unwinding? || pc.Register? || pc.Leave? {
      LeavingTouchesNeither(s, choice);
    } else if pc.ReadFlag? || pc.CloseCanceled? || pc.Finally? || pc.Pop? {
      StreamingTouchesNeither(s, choice);
    }
  }

  /** A turn is on record as canceled before its first request exactly when, since the fields were last cleared, a check
      that saw its cancel found neither a request nor a response appended since the turn began. */
  lemma {:induction false} PretransportIsExact(acts: seq<Act>, turn: Turn)
    requires After(acts).Some?
    ensures turn in After(acts).value.pretransport <==> Live(FindsNothing(acts, turn), Clears(acts))
    decreases |acts|
  {
    if acts != [] {
      var n := |acts| - 1;
      var before, s := acts[..n], After(acts[..n]).value;
      PretransportIsExact(before, turn);
      ReachableInv(before);
      RecordsAreFaithful(before, turn);
      AnsweredIsFaithful(before);
      FindsNothingAfterStep(acts, turn);
      ClearsAfterStep(acts);
      PretransportStep(s, acts[n], turn);
      LiveAfterStep(FindsNothing(before, turn), Clears(before), n, FindsNothingAt(acts, turn, n), ClearsAt(acts, n));
    }
  }

  /** The worker closes the stream of a canceled turn, and the close does not raise. */
  ghost predicate WorkerClosesAt(acts: seq<Act>, turn: Turn, n: nat) {
    && n < |acts| && After(acts[..n]).Some? && acts[n] == WorkerRuns(Go)
    && After(acts[..n]).value.worker.CloseCanceled? && After(acts[..n]).value.worker.turn == turn
  }

  ghost predicate RecordedSince(acts: seq<Act>, turn: Turn, n: nat) {
    exists m: nat :: n < m && RecordsAt(acts, turn, m)
  }

  lemma RecordedStays(acts: seq<Act>, turn: Turn, n: nat)
    requires acts != []
    requires RecordedSince(acts[..|acts| - 1], turn, n) || (n < |acts| - 1 && RecordsAt(acts, turn, |acts| - 1))
    ensures RecordedSince(acts, turn, n)
  {
    var last := |acts| - 1;
    if m: nat :| n < m && RecordsAt(acts[..last], turn, m) {
      assert acts[..last][..m] == acts[..m];
      assert RecordsAt(acts, turn, m);
    }
  }

  /** A stream the worker closes because of a cancel is on record before the worker does anything else. */
  lemma {:induction false} WorkerCloseIsRecorded(acts: seq<Act>, turn: Turn, n: nat)
    requires After(acts).Some? && WorkerClosesAt(acts, turn, n)
    ensures var pc := After(acts).value.worker;
      (pc.RecordTransport? && pc.turn == turn) || RecordedSince(acts, turn, n)
    decreases |acts|
  {
    var last := |acts| - 1;
    var before := acts[..last];
    if n < last {
      assert before[..n] == acts[..n];
      WorkerCloseIsRecorded(before, turn, n);
      var s := After(before).value;
      if !acts[last].WorkerRuns? {
        WorkerStaysPut(s, acts[last]);
      }
      if RecordedSince(before, turn, n) || (acts[last].WorkerRuns? && s.worker.RecordTransport?) {
        RecordedStays(acts, turn, n);
      }
    }
  }

  lemma WorkerStaysPut(s: State, act: Act)
    requires Enabled(s, act) && !act.WorkerRuns?
    ensures Do(s, act).worker == s.worker
  {
    match act
    case CancelRuns(id, closes) => CancelerLeavesWorker(s, id, closes);
    case _ =>
  }

  lemma CancelerLeavesWorker(s: State, id: nat, closes: bool)
    requires id in s.cancelers && !s.cancelers[id].Finished?
    ensures CancelStep(s, id, closes).worker == s.worker
  {
    match s.cancelers[id]
    case Requesting(_) =>
    case Closing(_, _) =>
    case Recording(_, _) =>
  }

  // ---- Interleavings that show where the stronger claims fail ----

  lemma Extend(acts: seq<Act>, s: State, act: Act) returns (longer: seq<Act>, t: State)
    requires After(acts) == Some(s) && Enabled(s, act)
    ensures longer == acts + [act] && t == Do(s, act) && After(longer) == Some(t)
  {
    longer, t := acts + [act], Do(s, act);
    assert longer[..|longer| - 1] == acts;
  }

  /** Perform a locked worker step: acquire, then run the block. */
  lemma ExtendLocked(acts: seq<Act>, s: State, choice: Choice) returns (longer: seq<Act>, t: State)
    requires After(acts) == Some(s) && Locked(s.worker) && s.lock.Free? && Possible(s.worker, choice)
    ensures t == Do(s.(lock := HeldByWorker), WorkerRuns(choice)) && After(longer) == Some(t)
  {
    var held;
    longer, held := Extend(acts, s, WorkerAcquires);
    longer, t := Extend(longer, held, WorkerRuns(choice));
  }

  lemma BeginsTurn(turn: Turn) returns (acts: seq<Act>, s: State)
    ensures After(acts) == Some(s)
    ensures s == START.(worker := Calling(turn), active := Some(turn), cursors := map[turn := (0, 0)],
                        appended := map[turn := 0])
  {
    acts, s := Extend([], START, WorkerRuns(BeginTurn(turn)));
    acts, s := ExtendLocked(acts, s, Go);
  }

  lemma CanceledBeforeItsRequest(turn: Turn) returns (acts: seq<Act>, s: State)
    ensures After(acts) == Some(s) && s.worker == RecordPretransport(turn) && s.lock.Free?
    ensures turn in s.cursors && s.cursors[turn] == (s.requests, s.responses)
  {
    acts, s := BeginsTurn(turn);
    acts, s := Extend(acts, s, CancelStarts(0, turn));
    acts, s := Extend(acts, s, CancelAcquires(0));
    acts, s := Extend(acts, s, CancelRuns(0, true));
    acts, s := Extend(acts, s, WorkerRuns(Check(Checked)));
    acts, s := ExtendLocked(acts, s, Go);
  }

  /** A turn canceled before its first request is recorded as such and the worker becomes idle. */
  lemma RecordedTurnIsReachable(turn: Turn) returns (acts: seq<Act>, s: State)
    ensures After(acts) == Some(s) && s.worker.Idle? && s.lock.Free? && turn in s.pretransport
  {
    acts, s := CanceledBeforeItsRequest(turn);
    acts, s := ExtendLocked(acts, s, Go);
    acts, s := Extend(acts, s, WorkerRuns(Go));
    acts, s := ExtendLocked(acts, s, Go);
  }

  /** Beginning a recorded turn id again and sending a request leaves a record that is no longer true. */
  lemma ReusedTurnContradictsRecord(turn: Turn)
    ensures exists acts: seq<Act> ::
      && After(acts).Some?
      && turn in After(acts).value.pretransport && Appended(After(acts).value, turn) == 1
  {
    var acts, s := RecordedTurnIsReachable(turn);
    acts, s := Extend(acts, s, WorkerRuns(BeginTurn(turn)));
    acts, s := ExtendLocked(acts, s, Go);
    acts, s := Extend(acts, s, WorkerRuns(AppendRequest));
    assert Appended(s, turn) == 1;
  }

  lemma StreamFinishes(turn: Turn) returns (acts: seq<Act>, s: State)
    ensures After(acts) == Some(s)
    ensures s == START.(worker := Finally(turn, 0, Returned), active := Some(turn), cursors := map[turn := (0, 0)],
                        appended := map[turn := 0], streams := map[turn := 0], owner := map[0 := turn], nextStream := 1)
  {
    acts, s := BeginsTurn(turn);
    acts, s := Extend(acts, s, WorkerRuns(OpenStream));
    acts, s := ExtendLocked(acts, s, Go);
    acts, s := ExtendLocked(acts, s, Conclude(Returned));
    acts, s := ExtendLocked(acts, s, NextChunk);
  }

  lemma LateCancelCloses(turn: Turn) returns (acts: seq<Act>, s: State)
    ensures After(acts) == Some(s) && s.worker == Finally(turn, 0, Returned) && s.lock.Free?
    ensures s.cancelers == map[0 := Recording(turn, 0)] && s.outcomes == {} && s.active == Some(turn)
  {
    acts, s := StreamFinishes(turn);
    acts, s := Extend(acts, s, CancelStarts(0, turn));
    acts, s := Extend(acts, s, CancelAcquires(0));
    acts, s := Extend(acts, s, CancelRuns(0, true));
    assert s.cancelers == map[0 := Closing(turn, 0)];
    acts, s := Extend(acts, s, CancelRuns(0, true));
  }

  lemma LateCancelReturns(turn: Turn) returns (acts: seq<Act>, s: State)
    ensures After(acts) == Some(s) && s.worker == Leave(turn, Returned) && s.lock.Free?
    ensures s.cancelers == map[0 := Recording(turn, 0)] && s.outcomes == {}
  {
    acts, s := LateCancelCloses(turn);
    acts, s := Extend(acts, s, WorkerRuns(Go));
    acts, s := ExtendLocked(acts, s, Go);
    acts, s := Extend(acts, s, WorkerRuns(ReturnAction));
  }

  /** A cancel accepted after the last flag read still closes the stream: the turn returns its action although its
      transport is recorded as canceled. */
  lemma ReturnedTurnWithCanceledTransport(turn: Turn)
    ensures exists acts: seq<Act> ::
      && After(acts).Some?
      && After(acts).value.worker == Leave(turn, Returned) && After(acts).value.outcomes == {turn}
  {
    var acts, s := LateCancelReturns(turn);
    acts, s := Extend(acts, s, CancelAcquires(0));
    acts, s := Extend(acts, s, CancelRuns(0, true));
    assert s.worker == Leave(turn, Returned) && s.outcomes == {turn};
  }

  lemma LateCancelOutlivesClear(turn: Turn) returns (acts: seq<Act>, s: State)
    ensures After(acts) == Some(s) && s.worker == ResetStats && s.lock.Free?
    ensures s.cancelers == map[0 := Recording(turn, 0)] && s.outcomes == {}
  {
    acts, s := LateCancelReturns(turn);
    acts, s := ExtendLocked(acts, s, Go);
    acts, s := Extend(acts, s, WorkerRuns(Reset));
    acts, s := ExtendLocked(acts, s, Go);
  }

  /** A late canceler that records between the two halves of a reset leaves the counter behind the outcomes. */
  lemma LateRecordingDesynchronisesCounter(turn: Turn)
    ensures exists acts: seq<Act> ::
      && After(acts).Some? && After(acts).value.worker.Idle?
      && After(acts).value.cancellations == 0 && After(acts).value.outcomes == {turn}
  {
    var acts, s := LateCancelOutlivesClear(turn);
    acts, s := Extend(acts, s, CancelAcquires(0));
    acts, s := Extend(acts, s, CancelRuns(0, true));
    assert s.outcomes == {turn} && s.worker == ResetStats;
    acts, s := Extend(acts, s, WorkerRuns(Go));
    assert s.worker.Idle?;
  }
}
