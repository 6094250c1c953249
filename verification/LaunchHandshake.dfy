/**
 * The launch handshake: the launcher's loop over worker messages, the supervisor's pending entry it
 * updates, and the promotion of a started session. Worker messages, control requests, supervisor
 * storage, verification verdicts and I/O results are arbitrary.
 */
module LaunchHandshake {
  import opened Text
  import opened PamProtocol
  import opened PamAuthority
  import PamRelay
  import opened ScopeIdentity

  const WORKER_PROTOCOL_VERSION := 14
  const MAX_NONCE_BYTES := 128

  predicate ValidNonce(nonce: string) {
    nonce != "" && Bytes(nonce) <= MAX_NONCE_BYTES
  }

  // ---------------------------------------------------------------- the supervisor's pending entry

  datatype EntryState =
    | WorkerSpawned
    | PayloadPrepared(identity: Identity, nonce: string, leaderPid: nat)
    | PayloadRegistered(identity: Identity, nonce: string, leaderPid: nat)
    | PayloadReleased(identity: Identity)
    | Quarantined

  datatype Release = NotRequested | Requested(nonce: string) | RecoveryRequired

  datatype Entry = Entry(state: EntryState, release: Release, terminal: bool)

  datatype Verdict = Released | NeedsRecovery

  function RecordPreparedScope(e: Entry, identity: Identity, nonce: string, sessionPid: nat, prepareOk: bool,
      persistOk: bool): (Entry, bool) {
    if e.terminal || e.release != NotRequested || !ValidNonce(nonce) || !e.state.WorkerSpawned? then (e, false)
    else if !prepareOk then (e.(state := Quarantined, terminal := true), false)
    else if !persistOk then (e.(state := Quarantined), false)
    else (e.(state := PayloadPrepared(identity, nonce, sessionPid)), true)
  }

  function MarkPayloadRegistered(e: Entry, persistOk: bool): (Entry, bool) {
    match e.state
    case PayloadPrepared(identity, nonce, pid) => (e.(state := PayloadRegistered(identity, nonce, pid)), persistOk)
    case _ => (e, false)
  }

  predicate Holds(e: Entry, identity: Identity, nonce: string) {
    && (e.state.PayloadPrepared? || e.state.PayloadRegistered?)
    && e.state.identity == identity && e.state.nonce == nonce
  }

  function BeginRelease(e: Entry, identity: Identity, nonce: string, releaseNonce: string): (Entry, bool) {
    if e.terminal || !Holds(e, identity, nonce) ||
      (e.release != NotRequested && e.release != Requested(releaseNonce)) then (e, false)
    else (e.(release := Requested(releaseNonce)), true)
  }

  function CompleteRelease(e: Entry, identity: Identity, nonce: string, releaseNonce: string, verdict: Verdict,
      persistOk: bool): (Entry, bool) {
    if !Holds(e, identity, nonce) || e.release != Requested(releaseNonce) then (e, false)
    else if verdict.Released? then (e.(state := PayloadReleased(identity)), persistOk)
    else (e.(release := RecoveryRequired, terminal := true), true)
  }

  /** Whether the running registration finds this entry. */
  predicate Registrable(e: Entry, identity: Identity, logindSessionId: string, sessionPid: nat) {
    && e.state.PayloadRegistered? && e.state.identity == identity && e.release.NotRequested? && !e.terminal
    && e.state.identity.logindSessionId == logindSessionId && e.state.leaderPid == sessionPid
  }

  // ---------------------------------------------------------------- messages and answers

  datatype StartedSession = StartedSession(id: string, username: string)

  datatype WorkerMessage =
    | PreparingMsg(workerId: string, transaction: WorkerTransaction)
    | ScopePreparedMsg(
        workerId: string, transaction: WorkerTransaction, workerPid: nat, sessionPid: nat, nonce: string,
        identity: Identity)
    | PromptMsg(prompt: PamRelay.PromptMessage)
    | ReleaseReadyMsg(workerId: string)
    | StartedMsg(
        session: StartedSession, sessionPid: nat, sessionPgid: nat, fixtureVersion: nat, workerId: string,
        logindSessionId: string, transaction: WorkerTransaction)
    | OtherTerminal

  datatype Incoming = ReadFailed | Envelope(version: nat, message: WorkerMessage)

  datatype ControlRequest =
    | ReleaseRequested(
        transaction: ControlTransaction, workerId: string, workerPid: nat, registrationNonce: string,
        releaseNonce: string, identity: Identity)
    | OtherRequest

  /** What the surroundings answer while one message is handled. */
  datatype Answers = Answers(
    prepareOk: bool, persistOk: bool, ackOk: bool, markOk: bool, relay: PamRelay.Env,
    control: Option<ControlRequest>, verdict: Verdict, completeOk: bool, replyOk: bool)

  // ---------------------------------------------------------------- the loop

  datatype Phase = Spawned | Preparing | ScopeRegistered(identity: Identity, nonce: string)

  datatype Event =
    | PreparingSeen
    | PromptRelayed(prompt: Prompt)
    | ScopeRecorded(identity: Identity, nonce: string)
    | ScopeAcknowledged(nonce: string, transaction: ControlTransaction)
    | RegistrationMarked
    | ReleaseBegun(identity: Identity, nonce: string, releaseNonce: string)
    | ReleaseCompleted(verdict: Verdict)
    | ReleaseAnswered(verdict: Verdict, releaseNonce: string, transaction: ControlTransaction)

  /** The loop's variables and the state it drives. */
  datatype Launch = Launch(phase: Phase, control: Option<WorkerTransaction>, relay: PamRelay.Launcher, entry: Entry)

  datatype Flow = Continue | Break(response: Option<WorkerMessage>) | Abort

  /** What a stretch of the loop leaves behind, with its effects in order. */
  datatype Outcome = Outcome(launch: Launch, flow: Flow, effects: seq<Event>)

  predicate ForThisLaunch(l: Launch, transaction: WorkerTransaction, stage: string) {
    ValidTransaction(transaction, l.relay.workerId, l.relay.generation, l.relay.attemptId, stage)
  }

  function OnPreparing(l: Launch, m: WorkerMessage): Outcome
    requires m.PreparingMsg?
  {
    if !l.phase.Spawned? || m.workerId != l.relay.workerId || !ForThisLaunch(l, m.transaction, "preparing") then
      Outcome(l, Break(None), [])
    else Outcome(l.(phase := Preparing), Continue, [PreparingSeen])
  }

  predicate ScopeAdmissible(l: Launch, m: WorkerMessage)
    requires m.ScopePreparedMsg?
  {
    && l.phase.Preparing? && m.workerId == l.relay.workerId && m.workerPid == l.relay.workerPid && m.sessionPid != 0
    && ValidNonce(m.nonce) && Valid(m.identity) && ForThisLaunch(l, m.transaction, "scope_prepared")
  }

  function OnScopePrepared(l: Launch, m: WorkerMessage, a: Answers): Outcome
    requires m.ScopePreparedMsg?
  {
    if !ScopeAdmissible(l, m) then Outcome(l, Break(None), [])
    else
      var (recorded, ok) := RecordPreparedScope(l.entry, m.identity, m.nonce, m.sessionPid, a.prepareOk, a.persistOk);
      if !ok then Outcome(l.(entry := recorded), Abort, [])
      else
        var registered := Launch(ScopeRegistered(m.identity, m.nonce), Some(m.transaction), l.relay, recorded);
        var record, ack := ScopeRecorded(m.identity, m.nonce),
          ScopeAcknowledged(m.nonce, FromWorker(m.transaction, "scope_registered", 1));
        if !a.ackOk then Outcome(registered, Break(None), [record, ack])
        else
          var (marked, markOk) := MarkPayloadRegistered(recorded, a.markOk);
          if !markOk then Outcome(registered.(entry := marked), Abort, [record, ack])
          else Outcome(registered.(entry := marked), Continue, [record, ack, RegistrationMarked])
  }

  function OnPrompt(l: Launch, m: WorkerMessage, a: Answers): Outcome
    requires m.PromptMsg?
  {
    if !l.phase.Preparing? then Outcome(l, Break(None), [])
    else
      var (relay, sent) := PamRelay.Forward(l.relay, m.prompt, a.relay);
      Outcome(l.(relay := relay), if sent.None? then Break(None) else Continue, [PromptRelayed(m.prompt.prompt)])
  }

  /** A release request that names exactly the registered scope of this launch. */
  predicate ReleaseAdmissible(l: Launch, r: ControlRequest) {
    && l.phase.ScopeRegistered? && l.control.Some? && r.ReleaseRequested?
    && r.workerId == l.relay.workerId && r.workerPid == l.relay.workerPid
    && r.registrationNonce == l.phase.nonce && r.identity == l.phase.identity
    && MatchesWorker(r.transaction, l.control.value, "scope_release_requested", 2) && ValidNonce(r.releaseNonce)
  }

  /** Begin, verify and complete the release of the registered scope, then tell the worker. */
  function ReleaseRound(l: Launch, r: ControlRequest, a: Answers): Outcome
    requires ReleaseAdmissible(l, r)
  {
    var (begun, ok) := BeginRelease(l.entry, r.identity, r.registrationNonce, r.releaseNonce);
    if !ok then Outcome(l, Abort, [])
    else
      var (completed, completeOk) := CompleteRelease(begun, r.identity, r.registrationNonce, r.releaseNonce, a.verdict,
        a.completeOk);
      var begin, complete := ReleaseBegun(r.identity, r.registrationNonce, r.releaseNonce), ReleaseCompleted(a.verdict);
      if !completeOk then Outcome(l.(entry := completed), Abort, [begin, complete])
      else
        var stage := if a.verdict.Released? then "scope_released" else "scope_recovery_required";
        var answer := ReleaseAnswered(a.verdict, r.releaseNonce, FromWorker(l.control.value, stage, 3));
        Outcome(l.(entry := completed), if a.replyOk then Continue else Break(None), [begin, complete, answer])
  }

  function OnReleaseReady(l: Launch, m: WorkerMessage, a: Answers): Outcome
    requires m.ReleaseReadyMsg?
  {
    if m.workerId != l.relay.workerId || a.control.None? || !ReleaseAdmissible(l, a.control.value) then
      Outcome(l, Break(None), [])
    else ReleaseRound(l, a.control.value, a)
  }

  /** One turn of the loop. */
  function Turn(l: Launch, incoming: Incoming, a: Answers): Outcome {
    match incoming
    case ReadFailed => Outcome(l, Break(None), [])
    case Envelope(version, m) =>
      if version != WORKER_PROTOCOL_VERSION then Outcome(l, Break(None), [])
      else match m
        case PreparingMsg(_, _) => OnPreparing(l, m)
        case ScopePreparedMsg(_, _, _, _, _, _) => OnScopePrepared(l, m, a)
        case PromptMsg(_) => OnPrompt(l, m, a)
        case ReleaseReadyMsg(_) => OnReleaseReady(l, m, a)
        case _ => Outcome(l, Break(Some(m)), [])
  }

  datatype Input = Input(incoming: Incoming, answers: Answers)

  /** The loop over a stream of messages, adding to a log; a stream that ends is a read that fails. */
  function Wait(l: Launch, inputs: seq<Input>, log: seq<Event>): (o: Outcome)
    ensures !o.flow.Continue?
    decreases |inputs|
  {
    if inputs == [] then Outcome(l, Break(None), log)
    else
      var o := Turn(l, inputs[0].incoming, inputs[0].answers);
      if o.flow.Continue? then Wait(o.launch, inputs[1..], log + o.effects)
      else o.(effects := log + o.effects)
  }

  /** A launch whose worker was just spawned and is pending at the supervisor. */
  function Begin(relay: PamRelay.Launcher): Launch {
    Launch(Spawned, None, relay, Entry(WorkerSpawned, NotRequested, false))
  }

  function Launched(relay: PamRelay.Launcher, inputs: seq<Input>): Outcome {
    Wait(Begin(relay), inputs, [])
  }

  /** The loop of the source, with the phase and the control transaction as its variables. */
  method WaitLaunchResponse(relay: PamRelay.Launcher, inputs: seq<Input>) returns (o: Outcome)
    ensures o == Launched(relay, inputs)
  {
    var phase: Phase := Spawned;
    var controlTransaction: Option<WorkerTransaction> := None;
    var currentRelay, entry := relay, Entry(WorkerSpawned, NotRequested, false);
    var log: seq<Event> := [];
    var i := 0;
    while i < |inputs|
      invariant 0 <= i <= |inputs|
      invariant Launched(relay, inputs) ==
        Wait(Launch(phase, controlTransaction, currentRelay, entry), inputs[i..], log)
    {
      var turn := Turn(Launch(phase, controlTransaction, currentRelay, entry), inputs[i].incoming, inputs[i].answers);
      assert inputs[i..][1..] == inputs[i + 1..];
      log := log + turn.effects;
      if turn.flow != Continue {
        return turn.(effects := log);
      }
      phase, controlTransaction := turn.launch.phase, turn.launch.control;
      currentRelay, entry := turn.launch.relay, turn.launch.entry;
      i := i + 1;
    }
    return Outcome(Launch(phase, controlTransaction, currentRelay, entry), Break(None), log);
  }

  // ---------------------------------------------------------------- the order of effects

  /** How far a launch has come, as an automaton over its effects. */
  datatype Stage =
    | Fresh
    | Prepared
    | Recorded(identity: Identity, nonce: string)
    | Acknowledged(identity: Identity, nonce: string)
    | Marked(identity: Identity, nonce: string)
    | Begun(identity: Identity, nonce: string, releaseNonce: string)
    | Completed(verdict: Verdict, releaseNonce: string)
    | Answered
    | Illegal

  function Advance(s: Stage, e: Event): Stage {
    match (s, e)
    case (Fresh, PreparingSeen) => Prepared
    case (Prepared, PromptRelayed(_)) => Prepared
    case (Prepared, ScopeRecorded(identity, nonce)) => Recorded(identity, nonce)
    case (Recorded(identity, nonce), ScopeAcknowledged(acked, _)) => if acked == nonce then
      Acknowledged(identity, nonce) else Illegal
    case (Acknowledged(identity, nonce), RegistrationMarked) => Marked(identity, nonce)
    case (Marked(identity, nonce), ReleaseBegun(i, n, r)) => if i == identity && n == nonce then Begun(i, n, r)
      else Illegal
    case (Begun(_, _, r), ReleaseCompleted(v)) => Completed(v, r)
    case (Completed(v, r), ReleaseAnswered(w, q, _)) => if w == v && q == r then Answered else Illegal
    case (_, _) => Illegal
  }

  function After(s: Stage, effects: seq<Event>): Stage
    decreases |effects|
  {
    if effects == [] then s else After(Advance(s, effects[0]), effects[1..])
  }

  lemma {:induction false} AfterAppend(s: Stage, a: seq<Event>, b: seq<Event>)
    ensures After(s, a + b) == After(After(s, a), b)
    decreases |a|
  {
    if a == [] {
      assert a + b == b;
    } else {
      assert (a + b)[1..] == a[1..] + b;
      AfterAppend(Advance(s, a[0]), a[1..], b);
    }
  }

  lemma AfterFew(s: Stage, e: Event, f: Event, g: Event)
    ensures After(s, [e]) == Advance(s, e)
    ensures After(s, [e, f]) == Advance(Advance(s, e), f)
    ensures After(s, [e, f, g]) == Advance(Advance(Advance(s, e), f), g)
  {
    AfterAppend(s, [e], [f]);
    AfterAppend(s, [e, f], [g]);
    assert [e] + [f] == [e, f] && [e, f] + [g] == [e, f, g];
  }

  /** What holds at the top of the loop, at a given stage. */
  predicate Inv(l: Launch, stage: Stage) {
    && l.relay.authority.pending.None?
    && match l.phase
       case Spawned => stage == Fresh && l.entry == Entry(WorkerSpawned, NotRequested, false)
       case Preparing => stage == Prepared && l.entry == Entry(WorkerSpawned, NotRequested, false)
       case ScopeRegistered(identity, nonce) =>
         || (stage == Marked(identity, nonce) && l.entry.state.PayloadRegistered? && Holds(l.entry, identity, nonce) &&
              l.entry.release.NotRequested? && !l.entry.terminal)
         || (stage == Answered && (l.entry.state.PayloadReleased? || l.entry.terminal) &&
              !l.entry.release.NotRequested?)
  }

  /** A stretch of the loop in order: nothing illegal, and a loop that continues is back in its invariant. */
  predicate InOrder(o: Outcome, stage: Stage) {
    After(stage, o.effects) != Illegal && (o.flow.Continue? ==> Inv(o.launch, After(stage, o.effects)))
  }

  lemma ScopePreparedKeepsOrder(l: Launch, m: WorkerMessage, a: Answers, stage: Stage)
    requires Inv(l, stage) && m.ScopePreparedMsg?
    ensures InOrder(OnScopePrepared(l, m, a), stage)
  {
    AfterFew(stage, ScopeRecorded(m.identity, m.nonce),
        ScopeAcknowledged(m.nonce, FromWorker(m.transaction, "scope_registered", 1)), RegistrationMarked);
  }

  lemma PromptKeepsOrder(l: Launch, m: WorkerMessage, a: Answers, stage: Stage)
    requires Inv(l, stage) && m.PromptMsg?
    ensures InOrder(OnPrompt(l, m, a), stage)
  {
    AfterFew(stage, PromptRelayed(m.prompt.prompt), PreparingSeen, PreparingSeen);
  }

  /** A release begins only once: after it the entry never again holds an unreleased, unrequested scope. */
  lemma ReleaseRoundOnce(e: Entry, identity: Identity, nonce: string, releaseNonce: string, verdict: Verdict,
      persistOk: bool)
    ensures var (begun, ok) := BeginRelease(e, identity, nonce, releaseNonce);
      ok ==> var completed := CompleteRelease(begun, identity, nonce, releaseNonce, verdict, persistOk).0;
        && Holds(e, identity, nonce) && !e.terminal
        && (completed.state.PayloadReleased? || completed.terminal) && !completed.release.NotRequested?
  {
  }

  lemma ReleaseStages(identity: Identity, nonce: string, releaseNonce: string, verdict: Verdict,
      transaction: ControlTransaction)
    ensures var begin, complete := ReleaseBegun(identity, nonce, releaseNonce), ReleaseCompleted(verdict);
      && After(Marked(identity, nonce), [begin, complete]) == Completed(verdict, releaseNonce)
      && After(Marked(identity, nonce), [begin, complete, ReleaseAnswered(verdict, releaseNonce, transaction)]) ==
           Answered
  {
    AfterFew(Marked(identity, nonce), ReleaseBegun(identity, nonce, releaseNonce), ReleaseCompleted(verdict),
             ReleaseAnswered(verdict, releaseNonce, transaction));
  }

  lemma ReleaseRoundKeepsOrder(l: Launch, r: ControlRequest, a: Answers, stage: Stage)
    requires Inv(l, stage) && ReleaseAdmissible(l, r)
    ensures InOrder(ReleaseRound(l, r, a), stage)
  {
    ReleaseRoundOnce(l.entry, r.identity, r.registrationNonce, r.releaseNonce, a.verdict, a.completeOk);
    if BeginRelease(l.entry, r.identity, r.registrationNonce, r.releaseNonce).1 {
      assert stage == Marked(r.identity, r.registrationNonce);
      var name := if a.verdict.Released? then "scope_released" else "scope_recovery_required";
      ReleaseStages(r.identity, r.registrationNonce, r.releaseNonce, a.verdict, FromWorker(l.control.value, name, 3));
    }
  }

  /** Every turn keeps the effects in order, whether it continues, breaks or aborts. */
  lemma TurnKeepsOrder(l: Launch, incoming: Incoming, a: Answers, stage: Stage)
    requires Inv(l, stage)
    ensures InOrder(Turn(l, incoming, a), stage)
    ensures var o := Turn(l, incoming, a); o.flow.Break? && o.flow.response.Some? ==> o.launch == l && o.effects == []
  {
    if incoming.Envelope? {
      var m := incoming.message;
      match m
      case PreparingMsg(_, _) => AfterFew(stage, PreparingSeen, PreparingSeen, PreparingSeen);
      case ScopePreparedMsg(_, _, _, _, _, _) => ScopePreparedKeepsOrder(l, m, a, stage);
      case PromptMsg(_) => PromptKeepsOrder(l, m, a, stage);
      case ReleaseReadyMsg(_) =>
        if a.control.Some? && ReleaseAdmissible(l, a.control.value) {
          ReleaseRoundKeepsOrder(l, a.control.value, a, stage);
        }
      case _ =>
    }
  }

  /** For every stream of messages the effects stay in order; a terminal response leaves a loop-top state. */
  lemma {:induction false} WaitKeepsOrder(l: Launch, inputs: seq<Input>, log: seq<Event>)
    requires Inv(l, After(Fresh, log)) && After(Fresh, log) != Illegal
    ensures var o := Wait(l, inputs, log);
      After(Fresh, o.effects) != Illegal &&
          (o.flow.Break? && o.flow.response.Some? ==> Inv(o.launch, After(Fresh, o.effects)))
    decreases |inputs|
  {
    if inputs != [] {
      TurnKeepsOrder(l, inputs[0].incoming, inputs[0].answers, After(Fresh, log));
      var o := Turn(l, inputs[0].incoming, inputs[0].answers);
      AfterAppend(Fresh, log, o.effects);
      if o.flow.Continue? {
        WaitKeepsOrder(o.launch, inputs[1..], log + o.effects);
      }
    }
  }

  // ---------------------------------------------------------------- what the order means

  function Records(log: seq<Event>): nat {
    if log == [] then 0 else (if log[0].ScopeRecorded? then 1 else 0) + Records(log[1..])
  }

  function Acknowledgements(log: seq<Event>): nat {
    if log == [] then 0 else (if log[0].ScopeAcknowledged? then 1 else 0) + Acknowledgements(log[1..])
  }

  predicate PastRecord(s: Stage) {
    !s.Fresh? && !s.Prepared?
  }

  predicate PastAcknowledgement(s: Stage) {
    PastRecord(s) && !s.Recorded?
  }

  lemma {:induction false} IllegalIsFinal(log: seq<Event>)
    ensures After(Illegal, log) == Illegal
  {
    if log != [] {
      IllegalIsFinal(log[1..]);
    }
  }

  /** Each acknowledgement directly follows the record of its nonce; prompts lie between Preparing and the record. */
  ghost predicate Ordered(log: seq<Event>, s: Stage) {
    && (log != [] && log[0].ScopeAcknowledged? ==> s.Recorded? && s.nonce == log[0].nonce)
    && (forall j | 0 < j < |log| && log[j].ScopeAcknowledged? :: log[j - 1].ScopeRecorded? &&
         log[j - 1].nonce == log[j].nonce)
    && (forall j | 0 <= j < |log| && log[j].PromptRelayed? :: After(s, log[..j]) == Prepared)
  }

  lemma {:induction false} LegalLog(log: seq<Event>, s: Stage)
    requires After(s, log) != Illegal
    ensures Records(log) <= if PastRecord(s) then 0 else 1
    ensures Acknowledgements(log) <= if PastAcknowledgement(s) then 0 else 1
    ensures Ordered(log, s)
  {
    if log != [] {
      var next := Advance(s, log[0]);
      if next == Illegal {
        IllegalIsFinal(log[1..]);
      }
      LegalLog(log[1..], next);
      forall j | 0 <= j < |log| && log[j].PromptRelayed? ensures After(s, log[..j]) == Prepared {
        if j > 0 {
          assert log[..j][1..] == log[1..][..j - 1] && log[1..][j - 1] == log[j];
        }
      }
      forall j | 0 < j < |log| && log[j].ScopeAcknowledged? ensures log[j - 1].ScopeRecorded? &&
        log[j - 1].nonce == log[j].nonce {
        assert log[1..][j - 1] == log[j];
        if j > 1 {
          assert log[1..][j - 2] == log[j - 1];
        }
      }
    }
  }

  /** For every stream: one record and one acknowledgement at most, recorded first; prompts only while preparing. */
  lemma LaunchRecordsBeforeAcknowledging(relay: PamRelay.Launcher, inputs: seq<Input>)
    requires relay.authority.pending.None?
    ensures var log := Launched(relay, inputs).effects;
      Records(log) <= 1 && Acknowledgements(log) <= 1 && Ordered(log, Fresh)
  {
    WaitKeepsOrder(Begin(relay), inputs, []);
    LegalLog(Launched(relay, inputs).effects, Fresh);
  }

  // ---------------------------------------------------------------- promotion

  datatype Promotion = Promotion(identity: Identity, nonce: string, sessionPid: nat, authority: Authority)

  /** What completion answers: the writer's result, whether the worker still lives, and the clock. */
  datatype Completion = Completion(writerOk: bool, workerAlive: bool, now: nat, commitOk: bool)

  /** The Started branch: every guard on the way to a registered runtime session. */
  function Promote(o: Outcome, expected: StartedSession, c: Completion): (r: Option<Promotion>) {
    var l := o.launch;
    if !o.flow.Break? || o.flow.response.None? || !o.flow.response.value.StartedMsg? || !c.writerOk then None
    else
      var m := o.flow.response.value;
      if m.session != expected || (m.fixtureVersion != 1 && m.fixtureVersion != 2)
        || (m.workerId != l.relay.workerId && m.workerId != "") || m.sessionPgid != m.sessionPid
        || !ForThisLaunch(l, m.transaction, "started") || !l.phase.ScopeRegistered?
        || l.phase.identity.logindSessionId != m.logindSessionId || !c.workerAlive then None
      else
        var (authority, authenticated) := AfterAuthenticated(l.relay.authority, c.now);
        if authenticated.Err? || !Registrable(l.entry, l.phase.identity, m.logindSessionId, m.sessionPid) ||
          !c.commitOk then None
        else Some(Promotion(l.phase.identity, l.phase.nonce, m.sessionPid, authority))
  }

  /**
   * For every stream: a promoted session carries the identity and nonce that were recorded,
   * acknowledged and marked, nothing was released, no PAM prompt is pending, and the conversation
   * was consumed before its deadline.
   */
  lemma PromotionIsTheRecordedScope(relay: PamRelay.Launcher, inputs: seq<Input>, expected: StartedSession,
      c: Completion)
    requires relay.authority.pending.None?
    ensures var o := Launched(relay, inputs);
      var p := Promote(o, expected, c);
      p.Some? ==>
        && After(Fresh, o.effects) == Marked(p.value.identity, p.value.nonce)
        && o.launch.entry.state == PayloadRegistered(p.value.identity, p.value.nonce, p.value.sessionPid)
        && p.value.authority.pending.None? && p.value.authority.consumed
        && !o.launch.relay.authority.consumed && c.now < p.value.authority.deadline
  {
    WaitKeepsOrder(Begin(relay), inputs, []);
  }

  lemma {:induction false} MarkedLogHasNoRelease(log: seq<Event>, s: Stage)
    requires After(s, log).Marked?
    ensures forall j | 0 <= j < |log| :: !log[j].ReleaseBegun?
    ensures !(s.Begun? || s.Completed? || s.Answered? || s.Illegal?)
  {
    if log != [] {
      MarkedLogHasNoRelease(log[1..], Advance(s, log[0]));
      assert forall j | 0 < j < |log| :: log[j] == log[1..][j - 1];
    }
  }

  /** A launch that asked for a release is never promoted afterwards. */
  lemma ReleasedLaunchIsNeverPromoted(relay: PamRelay.Launcher, inputs: seq<Input>, expected: StartedSession,
      c: Completion)
    requires relay.authority.pending.None?
    ensures var o := Launched(relay, inputs);
      (exists j | 0 <= j < |o.effects| :: o.effects[j].ReleaseBegun?) ==> Promote(o, expected, c).None?
  {
    PromotionIsTheRecordedScope(relay, inputs, expected, c);
    var o := Launched(relay, inputs);
    if Promote(o, expected, c).Some? {
      MarkedLogHasNoRelease(o.effects, Fresh);
    }
  }
}
