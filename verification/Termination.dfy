/**
 * Ending a payload boundary: the forced coordinator (SIGKILL, then wait for the empty proof) and the
 * graceful one (SIGTERM). Every answer of the scope, the child and the poll is arbitrary.
 */
module Termination {
  import opened Text
  import opened ScopeWorld

  datatype LeaderExit = ExitedZero | ExitedNonZero(code: int) | KilledBySignal(signal: int) | Other(raw: int)

  datatype Cause =
    | InternalTerminateRequest
    | WorkerSignal(signal: int)
    | SupervisorDisconnected
    | LeaderExited(exit: LeaderExit)
    | RuntimeFailure

  datatype Stage =
    | Eligibility | PreKillValidation | BoundaryObservation | Kill | PostKillValidation | LeaderReap
    | EmptyProof

  datatype Failure = ScopeOperation(error: ScopeError) | Timer | Poll | Reap | Signal | Control | BoundaryObserver

  datatype RecoveryReason = BoundaryIdentityChanged | BoundaryIdentityUnproven

  datatype Outcome =
    | BoundaryEmpty(exit: LeaderExit)
    | DeadlineExpired(cause: Cause, leaderExit: Option<LeaderExit>)
    | InfrastructureFailure(cause: Cause, leaderExit: Option<LeaderExit>, stage: Stage, failure: Failure)
    | RecoveryRequired(cause: Cause, leaderExit: Option<LeaderExit>, reason: RecoveryReason)

  /** What the run did and was told, in order. */
  datatype Event =
    | Eligible
    | Signalled(signal: nat, ok: bool)
    | Reported(error: ScopeError)
    | Reaped(exit: LeaderExit)
    | Proved(exit: LeaderExit, at: nat)

  const SIGTERM: nat := 15
  const SIGKILL: nat := 9

  // ---------------------------------------------------------------- forced coordinator

  datatype Coordinator = Coordinator(cause: Cause, leaderExit: Option<LeaderExit>, killAttempted: bool, finished: bool)

  /** The state after a step, the outcome when the step ended the run, and the events of the step. */
  datatype Step = Step(after: Coordinator, outcome: Option<Outcome>, events: seq<Event>)

  /** What the scope answers during one begin; the request checks eligibility and the unit again before it signals. */
  datatype BeginAnswers = BeginAnswers(
    eligible: Result<(), ScopeError>, observer: Result<(), ScopeError>, again: Result<(), ScopeError>,
    signal: Result<(), ScopeError>, kill: Result<(), BackendError>, afterKill: Result<(), ScopeError>,
    timerOk: bool)

  function Infrastructure(c: Coordinator, stage: Stage, failure: Failure): Outcome {
    InfrastructureFailure(c.cause, c.leaderExit, stage, failure)
  }

  function ScopeOutcome(c: Coordinator, stage: Stage, e: ScopeError): Outcome {
    if e == UnitReplaced then RecoveryRequired(c.cause, c.leaderExit, BoundaryIdentityChanged)
    else if e == WorkerInsideBoundary || e == InvalidIdentity || e == CgroupMismatch || e == InvalidMembership then
      RecoveryRequired(c.cause, c.leaderExit, BoundaryIdentityUnproven)
    else Infrastructure(c, stage, ScopeOperation(e))
  }

  function Ended(c: Coordinator, o: Outcome, events: seq<Event>): Step {
    Step(c.(finished := true), Some(o), events)
  }

  function Refused(c: Coordinator, stage: Stage, e: ScopeError, events: seq<Event>): Step {
    Ended(c, ScopeOutcome(c, stage, e), events + [Reported(e)])
  }

  function Begin(c: Coordinator, a: BeginAnswers): Step {
    if c.killAttempted then Ended(c, Infrastructure(c, Kill, ScopeOperation(InvalidIdentity)), [])
    else if a.eligible.Err? then Refused(c, PreKillValidation, a.eligible.error, [])
    else if a.observer.Err? then Refused(c, BoundaryObservation, a.observer.error, [Eligible])
    else Strike(c.(killAttempted := true), a)
  }

  /** The part of a begin after the attempt was marked. */
  function Strike(c: Coordinator, a: BeginAnswers): Step {
    if a.again.Err? then Refused(c, Kill, a.again.error, [Eligible])
    else if a.signal.Err? then Refused(c, Kill, a.signal.error, [Eligible, Eligible])
    else if a.kill.Err? then Refused(c, Kill, MapError(a.kill.error),
      [Eligible, Eligible, Eligible, Signalled(SIGKILL, false)])
    else if a.afterKill.Err? then
      Refused(c, PostKillValidation, a.afterKill.error, [Eligible, Eligible, Eligible, Signalled(SIGKILL, true)])
    else if !a.timerOk then Ended(c, Infrastructure(c, Kill, Timer),
      [Eligible, Eligible, Eligible, Signalled(SIGKILL, true)])
    else Step(c, None, [Eligible, Eligible, Eligible, Signalled(SIGKILL, true)])
  }

  function RecordExit(c: Coordinator, exit: LeaderExit): Coordinator {
    if c.leaderExit.None? then c.(leaderExit := Some(exit)) else c
  }

  /** One attempt at the proof: the instant it starts and what the scope answers. */
  datatype ProofAnswers = ProofAnswers(at: nat, appears: Result<bool, ScopeError>, proof: Result<(), ScopeError>)

  function TryProof(c: Coordinator, a: ProofAnswers): Step {
    var appears := a.appears;
    if appears.Err? && appears.error != InvocationUnavailable then Refused(c, BoundaryObservation, appears.error, [])
    else
      var told := if appears.Err? then [Reported(appears.error)] else [];
      if (appears.Ok? && !appears.value) || c.leaderExit.None? then Step(c, None, told)
      else if a.proof.Ok? then Ended(c, BoundaryEmpty(c.leaderExit.value), told + [Proved(c.leaderExit.value, a.at)])
      else if a.proof.error == BoundaryNotEmpty || a.proof.error == UnitNotTerminal then
        Step(c, None, told + [Reported(a.proof.error)])
      else Refused(c, EmptyProof, a.proof.error, told)
  }

  class ForcedTerminationCoordinator {
    var cause: Cause
    var leaderExit: Option<LeaderExit>
    var killAttempted: bool
    var finished: bool

    function Value(): Coordinator
      reads this
    {
      Coordinator(cause, leaderExit, killAttempted, finished)
    }

    constructor (cause: Cause, leaderExit: Option<LeaderExit>)
      ensures Value() == Coordinator(cause, leaderExit, false, false)
    {
      this.cause, this.leaderExit, killAttempted, finished := cause, leaderExit, false, false;
    }

    method RecordLeaderExit(exit: LeaderExit)
      modifies this`leaderExit
      ensures Value() == RecordExit(old(Value()), exit)
    {
      if leaderExit.None? {
        leaderExit := Some(exit);
      }
    }

    method Fail(stage: Stage, failure: Failure) returns (o: Outcome)
      modifies this`finished
      ensures finished && o == Infrastructure(old(Value()), stage, failure)
    {
      finished := true;
      return InfrastructureFailure(cause, leaderExit, stage, failure);
    }

    method Expire() returns (o: Outcome)
      modifies this`finished
      ensures finished && o == DeadlineExpired(cause, leaderExit)
    {
      finished := true;
      return DeadlineExpired(cause, leaderExit);
    }

    method RefuseScope(stage: Stage, e: ScopeError) returns (o: Outcome)
      modifies this`finished
      ensures finished && o == ScopeOutcome(old(Value()), stage, e)
    {
      finished := true;
      if e == UnitReplaced {
        return RecoveryRequired(cause, leaderExit, BoundaryIdentityChanged);
      } else if e == WorkerInsideBoundary || e == InvalidIdentity || e == CgroupMismatch || e == InvalidMembership {
        return RecoveryRequired(cause, leaderExit, BoundaryIdentityUnproven);
      } else {
        return InfrastructureFailure(cause, leaderExit, stage, ScopeOperation(e));
      }
    }

    method BeginForced(a: BeginAnswers) returns (o: Option<Outcome>, ghost events: seq<Event>)
      modifies this
      ensures Step(Value(), o, events) == Begin(old(Value()), a)
    {
      events := [];
      if killAttempted {
        var failed := Fail(Kill, ScopeOperation(InvalidIdentity));
        return Some(failed), [];
      }
      if a.eligible.Err? {
        var refused := RefuseScope(PreKillValidation, a.eligible.error);
        return Some(refused), [Reported(a.eligible.error)];
      }
      if a.observer.Err? {
        var refused := RefuseScope(BoundaryObservation, a.observer.error);
        return Some(refused), [Eligible, Reported(a.observer.error)];
      }
      killAttempted := true;
      o, events := RequestKill(a);
      if o.Some? {
        return;
      }
      if a.afterKill.Err? {
        var refused := RefuseScope(PostKillValidation, a.afterKill.error);
        return Some(refused), events + [Reported(a.afterKill.error)];
      }
      if !a.timerOk {
        var failed := Fail(Kill, Timer);
        return Some(failed), events;
      }
    }

    /** The kill request: both eligibility checks again, then the signal. */
    method RequestKill(a: BeginAnswers) returns (o: Option<Outcome>, ghost events: seq<Event>)
      modifies this`finished
      ensures if a.again.Ok? && a.signal.Ok? && a.kill.Ok?
        then o == None && finished == old(finished) &&
            events == [Eligible, Eligible, Eligible, Signalled(SIGKILL, true)]
        else Step(Value(), o, events) == Strike(old(Value()), a)
    {
      if a.again.Err? {
        var refused := RefuseScope(Kill, a.again.error);
        return Some(refused), [Eligible, Reported(a.again.error)];
      }
      if a.signal.Err? {
        var refused := RefuseScope(Kill, a.signal.error);
        return Some(refused), [Eligible, Eligible, Reported(a.signal.error)];
      }
      if a.kill.Err? {
        var refused := RefuseScope(Kill, MapError(a.kill.error));
        return Some(refused),
            [Eligible, Eligible, Eligible, Signalled(SIGKILL, false), Reported(MapError(a.kill.error))];
      }
      return None, [Eligible, Eligible, Eligible, Signalled(SIGKILL, true)];
    }

    method TryForcedEmptyProof(a: ProofAnswers) returns (o: Option<Outcome>, ghost events: seq<Event>)
      modifies this`finished
      ensures Step(Value(), o, events) == TryProof(old(Value()), a)
    {
      events := [];
      match a.appears {
        case Ok(terminal) =>
          if !terminal {
            return None, [];
          }
        case Err(e) =>
          events := [Reported(e)];
          if e != InvocationUnavailable {
            var refused := RefuseScope(BoundaryObservation, e);
            return Some(refused), events;
          }
      }
      if leaderExit.None? {
        return None, events;
      }
      if a.proof.Ok? {
        finished := true;
        return Some(BoundaryEmpty(leaderExit.value)), events + [Proved(leaderExit.value, a.at)];
      }
      if a.proof.error == BoundaryNotEmpty || a.proof.error == UnitNotTerminal {
        return None, events + [Reported(a.proof.error)];
      }
      var refused := RefuseScope(EmptyProof, a.proof.error);
      return Some(refused), events + [Reported(a.proof.error)];
    }
  }

  // ---------------------------------------------------------------- any sequence of coordinator calls

  datatype Call =
    | CallBegin(answers: BeginAnswers)
    | CallRecord(exit: LeaderExit)
    | CallProof(proof: ProofAnswers)
    | CallExpire
    | CallFail(stage: Stage, failure: Failure)

  function Apply(c: Coordinator, call: Call): Step {
    match call
    case CallBegin(a) => Begin(c, a)
    case CallRecord(exit) => Step(RecordExit(c, exit), None, [])
    case CallProof(p) => TryProof(c, p)
    case CallExpire => Ended(c, DeadlineExpired(c.cause, c.leaderExit), [])
    case CallFail(stage, failure) => Ended(c, Infrastructure(c, stage, failure), [])
  }

  predicate SignalsKill(events: seq<Event>) {
    Signalled(SIGKILL, true) in events || Signalled(SIGKILL, false) in events
  }

  /** The events of a begin that signals: the boundary passed every check, then one SIGKILL. */
  predicate ChecksThenKill(events: seq<Event>) {
    && 4 <= |events| && events[0] == Eligible && events[1] == Eligible && events[2] == Eligible
    && events[3].Signalled? && events[3].signal == SIGKILL
    && forall i | 4 <= i < |events| :: events[i].Reported?
  }

  /** A begin signals only after every check passed in it, only once, and only when no earlier one marked an attempt. */
  lemma BeginKillsOnce(c: Coordinator, a: BeginAnswers)
    ensures var step := Begin(c, a);
      SignalsKill(step.events) ==>
        && !c.killAttempted && step.after.killAttempted
        && a.eligible.Ok? && a.again.Ok? && a.signal.Ok?
        && ChecksThenKill(step.events)
  {
  }

  /** How many calls of a run signal. */
  function KillingCalls(c: Coordinator, calls: seq<Call>): nat
    decreases |calls|
  {
    if calls == [] then 0
    else
      var step := Apply(c, calls[0]);
      (if SignalsKill(step.events) then 1 else 0) + KillingCalls(step.after, calls[1..])
  }

  lemma ApplyKeepsMark(c: Coordinator, call: Call)
    ensures var step := Apply(c, call);
      && (c.killAttempted ==> step.after.killAttempted && !SignalsKill(step.events))
      && (SignalsKill(step.events) ==> step.after.killAttempted)
  {
  }

  /** Over any sequence of calls with any answers, at most one call signals. */
  lemma {:induction false} AtMostOneKill(c: Coordinator, calls: seq<Call>)
    ensures KillingCalls(c, calls) <= if c.killAttempted then 0 else 1
    decreases |calls|
  {
    if calls != [] {
      ApplyKeepsMark(c, calls[0]);
      AtMostOneKill(Apply(c, calls[0]).after, calls[1..]);
    }
  }

  /** The first exit a run records, counting one it started with. */
  function FirstExit(exit: Option<LeaderExit>, calls: seq<Call>): Option<LeaderExit>
    decreases |calls|
  {
    if exit.Some? || calls == [] then exit
    else FirstExit(if calls[0].CallRecord? then Some(calls[0].exit) else None, calls[1..])
  }

  function AfterCalls(c: Coordinator, calls: seq<Call>): Coordinator
    decreases |calls|
  {
    if calls == [] then c else AfterCalls(Apply(c, calls[0]).after, calls[1..])
  }

  lemma {:induction false} KeepsFirstExit(c: Coordinator, calls: seq<Call>)
    ensures AfterCalls(c, calls).leaderExit == FirstExit(c.leaderExit, calls)
    decreases |calls|
  {
    if calls != [] {
      var next := Apply(c, calls[0]).after;
      KeepsFirstExit(next, calls[1..]);
    }
  }

  lemma EmptyCarriesOwnExit(c: Coordinator, call: Call)
    ensures var o := Apply(c, call).outcome; o.Some? && o.value.BoundaryEmpty? ==> c.leaderExit == Some(o.value.exit)
  {
  }

  /** Whatever calls came before, an empty boundary is answered with the first recorded exit. */
  lemma EmptyCarriesFirstExit(c: Coordinator, calls: seq<Call>, last: Call)
    requires var o := Apply(AfterCalls(c, calls), last).outcome; o.Some? && o.value.BoundaryEmpty?
    ensures FirstExit(c.leaderExit, calls) == Some(Apply(AfterCalls(c, calls), last).outcome.value.exit)
  {
    KeepsFirstExit(c, calls);
    EmptyCarriesOwnExit(AfterCalls(c, calls), last);
  }

  predicate Changed(o: Option<Outcome>) {
    o.Some? && o.value.RecoveryRequired? && o.value.reason == BoundaryIdentityChanged
  }

  /** A step ends in recovery for a changed identity exactly when it was told that the unit was replaced. */
  predicate Heeds(step: Step) {
    Reported(UnitReplaced) in step.events <==> Changed(step.outcome)
  }

  lemma BeginHeeds(c: Coordinator, a: BeginAnswers)
    ensures Heeds(Begin(c, a))
  {
  }

  lemma ProofHeeds(c: Coordinator, a: ProofAnswers)
    ensures Heeds(TryProof(c, a))
  {
  }

  // ---------------------------------------------------------------- the wait for an empty boundary

  datatype PollAnswer = Interrupted | PollFailed | Ready

  /** One read from the signal descriptor, until it has no more. */
  datatype SignalRead = SignalFailed | SignalNumber(number: int)

  /** The signals that ask for termination: SIGTERM, SIGINT and SIGHUP. */
  predicate AsksToTerminate(read: SignalRead) {
    read == SignalNumber(15) || read == SignalNumber(2) || read == SignalNumber(1)
  }

  predicate AllAskToTerminate(signals: seq<SignalRead>) {
    forall i | 0 <= i < |signals| :: AsksToTerminate(signals[i])
  }

  const CONTROL_VERSION := 7

  datatype Terminate = Terminate(version: nat, workerId: string, workerPid: nat, sessionPid: nat, sessionPgid: nat)

  datatype Request = Unreadable | OtherRequest | TerminateRequest(terminate: Terminate)

  /** What the control listener holds; a peer's request is compared with the worker's own identity. */
  datatype Visitor =
    | NoVisitor
    | NoListener
    | WouldBlock
    | AcceptFailed
    | Stranger
    | Peer(request: Request, own: Terminate)

  /** A visit that a cleanup may ignore: none, a stranger, or a repeated request for this very session. */
  predicate Ignorable(v: Visitor) {
    match v
    case NoListener => false
    case AcceptFailed => false
    case Peer(request, own) => request == TerminateRequest(own.(version := CONTROL_VERSION))
    case _ => true
  }

  datatype TimerAnswer = Quiet | TimerBroken | Spurious | Elapsed

  /** What one round of the poll loop finds; the leader is polled only while no exit is known. */
  datatype Round = Round(
    poll: PollAnswer, leaderReady: bool, child: Option<LeaderExit>, reapProof: ProofAnswers,
    observerReady: bool, wakeupOk: bool, wakeProof: ProofAnswers, signals: seq<SignalRead>, visitor: Visitor,
    timer: TimerAnswer, lastProof: ProofAnswers)

  function Then(first: Step, second: Step): Step {
    if first.outcome.Some? then first else Step(second.after, second.outcome, first.events + second.events)
  }

  function ReapPhase(c: Coordinator, r: Round): Step {
    if !r.leaderReady || c.leaderExit.Some? then Step(c, None, [])
    else if r.child.None? then Ended(c, Infrastructure(c, LeaderReap, Reap), [])
    else
      var reaped := RecordExit(c, r.child.value);
      Then(Step(reaped, None, [Reaped(r.child.value)]), TryProof(reaped, r.reapProof))
  }

  function WakePhase(c: Coordinator, r: Round): Step {
    if !r.observerReady then Step(c, None, [])
    else if !r.wakeupOk then Ended(c, Infrastructure(c, BoundaryObservation, BoundaryObserver), [])
    else TryProof(c, r.wakeProof)
  }

  function TriggerPhase(c: Coordinator, r: Round): Step {
    if !AllAskToTerminate(r.signals) then Ended(c, Infrastructure(c, BoundaryObservation, Signal), [])
    else if !Ignorable(r.visitor) then Ended(c, Infrastructure(c, BoundaryObservation, Control), [])
    else Step(c, None, [])
  }

  function DeadlinePhase(c: Coordinator, r: Round): Step {
    match r.timer
    case Quiet => Step(c, None, [])
    case Spurious => Step(c, None, [])
    case TimerBroken => Ended(c, Infrastructure(c, BoundaryObservation, Timer), [])
    case Elapsed => Then(TryProof(c, r.lastProof), Ended(c, DeadlineExpired(c.cause, c.leaderExit), []))
  }

  function TriggerOnward(c: Coordinator, r: Round): Step {
    var trigger := TriggerPhase(c, r);
    Then(trigger, DeadlinePhase(trigger.after, r))
  }

  function WakeOnward(c: Coordinator, r: Round): Step {
    var wake := WakePhase(c, r);
    Then(wake, TriggerOnward(wake.after, r))
  }

  /** One round: reap and prove before the deadline is looked at. */
  function PollRound(c: Coordinator, r: Round): Step {
    if r.poll.Interrupted? then Step(c, None, [])
    else if r.poll.PollFailed? then Ended(c, Infrastructure(c, BoundaryObservation, Poll), [])
    else
      var reap := ReapPhase(c, r);
      Then(reap, WakeOnward(reap.after, r))
  }

  /** The rounds until one ends the wait. */
  function Rounds(c: Coordinator, rounds: seq<Round>): Step
    decreases |rounds|
  {
    if rounds == [] then Step(c, None, [])
    else
      var round := PollRound(c, rounds[0]);
      Then(round, Rounds(round.after, rounds[1..]))
  }

  /** One proof at once, then the rounds. */
  function Waiting(c: Coordinator, first: ProofAnswers, rounds: seq<Round>): Step {
    var tried := TryProof(c, first);
    Then(tried, Rounds(tried.after, rounds))
  }

  function Cleanup(c: Coordinator, fdsOk: bool, a: BeginAnswers, first: ProofAnswers, rounds: seq<Round>): Step {
    if !fdsOk then Ended(c, Infrastructure(c, Eligibility, Reap), [])
    else
      var begun := Begin(c, a);
      Then(begun, Waiting(begun.after, first, rounds))
  }

  method Reaping(c: ForcedTerminationCoordinator, r: Round) returns (o: Option<Outcome>, ghost events: seq<Event>)
    modifies c`leaderExit, c`finished
    ensures Step(c.Value(), o, events) == ReapPhase(old(c.Value()), r)
  {
    o, events := None, [];
    if r.leaderReady && c.leaderExit.None? {
      if r.child.None? {
        var failed := c.Fail(LeaderReap, Reap);
        return Some(failed), [];
      }
      c.RecordLeaderExit(r.child.value);
      o, events := c.TryForcedEmptyProof(r.reapProof);
      events := [Reaped(r.child.value)] + events;
    }
  }

  method Waking(c: ForcedTerminationCoordinator, r: Round) returns (o: Option<Outcome>, ghost events: seq<Event>)
    modifies c`finished
    ensures Step(c.Value(), o, events) == WakeOnward(old(c.Value()), r)
  {
    o, events := None, [];
    if r.observerReady {
      if !r.wakeupOk {
        var failed := c.Fail(BoundaryObservation, BoundaryObserver);
        return Some(failed), [];
      }
      o, events := c.TryForcedEmptyProof(r.wakeProof);
      if o.Some? {
        return;
      }
    }
    ghost var more;
    o, more := TriggersAndDeadline(c, r);
    events := events + more;
  }

  /** Reads signals until there are no more, or one that does not belong here. */
  method DrainSignals(signals: seq<SignalRead>) returns (duplicates: bool)
    ensures duplicates <==> AllAskToTerminate(signals)
  {
    for i := 0 to |signals|
      invariant forall k | 0 <= k < i :: AsksToTerminate(signals[k])
    {
      if signals[i].SignalFailed? || !(signals[i].number == 15 || signals[i].number == 2 || signals[i].number == 1) {
        return false;
      }
    }
    return true;
  }

  method TriggersAndDeadline(c: ForcedTerminationCoordinator, r: Round)
      returns (o: Option<Outcome>, ghost events: seq<Event>)
    modifies c`finished
    ensures Step(c.Value(), o, events) == TriggerOnward(old(c.Value()), r)
  {
    o, events := None, [];
    var duplicates := DrainSignals(r.signals);
    if !duplicates {
      var failed := c.Fail(BoundaryObservation, Signal);
      return Some(failed), [];
    }
    if !Ignorable(r.visitor) {
      var failed := c.Fail(BoundaryObservation, Control);
      return Some(failed), [];
    }
    if r.timer.TimerBroken? {
      var failed := c.Fail(BoundaryObservation, Timer);
      return Some(failed), [];
    }
    if r.timer.Elapsed? {
      o, events := c.TryForcedEmptyProof(r.lastProof);
      if o.None? {
        var expired := c.Expire();
        return Some(expired), events;
      }
    }
  }

  method PollOnce(c: ForcedTerminationCoordinator, r: Round) returns (o: Option<Outcome>, ghost events: seq<Event>)
    modifies c`leaderExit, c`finished
    ensures Step(c.Value(), o, events) == PollRound(old(c.Value()), r)
  {
    if r.poll.Interrupted? {
      return None, [];
    }
    if r.poll.PollFailed? {
      var failed := c.Fail(BoundaryObservation, Poll);
      return Some(failed), [];
    }
    o, events := Reaping(c, r);
    if o.Some? {
      return;
    }
    ghost var more;
    o, more := Waking(c, r);
    events := events + more;
  }

  /** The poll loop over the rounds given; None when they run out first. */
  method WaitForForcedCleanup(c: ForcedTerminationCoordinator, fdsOk: bool, a: BeginAnswers, first: ProofAnswers,
      rounds: seq<Round>)
    returns (o: Option<Outcome>, ghost events: seq<Event>)
    modifies c
    ensures Step(c.Value(), o, events) == Cleanup(old(c.Value()), fdsOk, a, first, rounds)
  {
    if !fdsOk {
      var failed := c.Fail(Eligibility, Reap);
      return Some(failed), [];
    }
    o, events := c.BeginForced(a);
    if o.Some? {
      return;
    }
    ghost var more;
    o, more := WaitAfterBegin(c, first, rounds);
    events := events + more;
  }

  method WaitAfterBegin(c: ForcedTerminationCoordinator, first: ProofAnswers, rounds: seq<Round>)
    returns (o: Option<Outcome>, ghost events: seq<Event>)
    modifies c`leaderExit, c`finished
    ensures Step(c.Value(), o, events) == Waiting(old(c.Value()), first, rounds)
  {
    o, events := c.TryForcedEmptyProof(first);
    if o.Some? {
      return;
    }
    ghost var more;
    o, more := PollUntilEnded(c, rounds);
    events := events + more;
  }

  method PollUntilEnded(c: ForcedTerminationCoordinator, rounds: seq<Round>)
      returns (o: Option<Outcome>, ghost events: seq<Event>)
    modifies c`leaderExit, c`finished
    ensures Step(c.Value(), o, events) == Rounds(old(c.Value()), rounds)
  {
    o, events := None, [];
    var rest := rounds;
    while rest != []
      invariant var all, todo := Rounds(old(c.Value()), rounds), Rounds(c.Value(), rest);
        all == Step(todo.after, todo.outcome, events + todo.events)
      invariant o.None?
      decreases |rest|
    {
      ghost var before := c.Value();
      ghost var more;
      o, more := PollOnce(c, rest[0]);
      Unroll(before, rest);
      Peel(Rounds(old(c.Value()), rounds), events, Rounds(before, rest), Step(c.Value(), o, more),
          Rounds(c.Value(), rest[1..]));
      events := events + more;
      if o.Some? {
        return;
      }
      rest := rest[1..];
    }
  }

  lemma Unroll(c: Coordinator, rest: seq<Round>)
    requires rest != []
    ensures var round := PollRound(c, rest[0]); Rounds(c, rest) == Then(round, Rounds(round.after, rest[1..]))
  {
  }

  /** What a loop over the rounds knows after one more round. */
  lemma Peel(all: Step, events: seq<Event>, todo: Step, round: Step, next: Step)
    requires todo == Then(round, next) && all == Step(todo.after, todo.outcome, events + todo.events)
    ensures round.outcome.Some? ==> all == Step(round.after, round.outcome, events + round.events)
    ensures round.outcome.None? ==> all == Step(next.after, next.outcome, events + round.events + next.events)
  {
    assert events + (round.events + next.events) == events + round.events + next.events;
  }

  // ---------------------------------------------------------------- what a whole cleanup keeps

  predicate NoReap(events: seq<Event>) {
    forall i | 0 <= i < |events| :: !events[i].Reaped?
  }

  /** The last event is an accepted proof, for this exit. */
  predicate EndsProved(events: seq<Event>, exit: LeaderExit) {
    events != [] && events[|events| - 1].Proved? && events[|events| - 1].exit == exit
  }

  /** What every step after the begin keeps: it heeds a replaced unit, sends no signal and never loses a known exit. */
  predicate Sound(c: Coordinator, step: Step) {
    && Heeds(step)
    && !SignalsKill(step.events)
    && (c.leaderExit.Some? ==> step.after.leaderExit == c.leaderExit && NoReap(step.events))
    && (c.leaderExit.None? && step.after.leaderExit.Some? ==> Reaped(step.after.leaderExit.value) in step.events)
    && (step.outcome.Some? && step.outcome.value.BoundaryEmpty? ==>
          step.after.leaderExit == Some(step.outcome.value.exit) && EndsProved(step.events, step.outcome.value.exit))
  }

  lemma ThenSound(c: Coordinator, first: Step, second: Step)
    requires Sound(c, first) && (first.outcome.None? ==> Sound(first.after, second))
    ensures Sound(c, Then(first, second))
  {
  }

  lemma ProofIsQuiet(c: Coordinator, a: ProofAnswers)
    ensures var step := TryProof(c, a);
      && !SignalsKill(step.events) && NoReap(step.events) && step.after.leaderExit == c.leaderExit
      && (step.outcome.Some? && step.outcome.value.BoundaryEmpty? ==>
            c.leaderExit == Some(step.outcome.value.exit) && EndsProved(step.events, step.outcome.value.exit))
  {
  }

  lemma ProofSound(c: Coordinator, a: ProofAnswers)
    ensures Sound(c, TryProof(c, a))
  {
    ProofHeeds(c, a);
    ProofIsQuiet(c, a);
  }

  lemma ReapSound(c: Coordinator, r: Round)
    ensures Sound(c, ReapPhase(c, r))
  {
    if r.leaderReady && c.leaderExit.None? && r.child.Some? {
      var reaped := RecordExit(c, r.child.value);
      ProofSound(reaped, r.reapProof);
      ThenSound(c, Step(reaped, None, [Reaped(r.child.value)]), TryProof(reaped, r.reapProof));
    }
  }

  lemma DeadlineSound(c: Coordinator, r: Round)
    ensures Sound(c, DeadlinePhase(c, r))
  {
    ProofSound(c, r.lastProof);
    if r.timer.Elapsed? {
      ThenSound(c, TryProof(c, r.lastProof), Ended(c, DeadlineExpired(c.cause, c.leaderExit), []));
    }
  }

  lemma TriggerOnwardSound(c: Coordinator, r: Round)
    ensures Sound(c, TriggerOnward(c, r))
  {
    var trigger := TriggerPhase(c, r);
    DeadlineSound(trigger.after, r);
    ThenSound(c, trigger, DeadlinePhase(trigger.after, r));
  }

  lemma WakeOnwardSound(c: Coordinator, r: Round)
    ensures Sound(c, WakeOnward(c, r))
  {
    var wake := WakePhase(c, r);
    ProofSound(c, r.wakeProof);
    TriggerOnwardSound(wake.after, r);
    ThenSound(c, wake, TriggerOnward(wake.after, r));
  }

  lemma RoundSound(c: Coordinator, r: Round)
    ensures Sound(c, PollRound(c, r))
  {
    if r.poll.Ready? {
      var reap := ReapPhase(c, r);
      ReapSound(c, r);
      WakeOnwardSound(reap.after, r);
      ThenSound(c, reap, WakeOnward(reap.after, r));
    }
  }

  lemma {:induction false} RoundsSound(c: Coordinator, rounds: seq<Round>)
    ensures Sound(c, Rounds(c, rounds))
    decreases |rounds|
  {
    if rounds != [] {
      var round := PollRound(c, rounds[0]);
      RoundSound(c, rounds[0]);
      RoundsSound(round.after, rounds[1..]);
      ThenSound(c, round, Rounds(round.after, rounds[1..]));
    }
  }

  lemma WaitingSound(c: Coordinator, first: ProofAnswers, rounds: seq<Round>)
    ensures Sound(c, Waiting(c, first, rounds))
  {
    var tried := TryProof(c, first);
    ProofSound(c, first);
    RoundsSound(tried.after, rounds);
    ThenSound(c, tried, Rounds(tried.after, rounds));
  }

  /** The exit an empty boundary may be answered with: the one known at the start, or else one reaped since. */
  predicate FirstKnown(start: Option<LeaderExit>, events: seq<Event>, exit: LeaderExit) {
    if start.Some? then start == Some(exit) && NoReap(events) else Reaped(exit) in events
  }

  /** What a begin keeps, besides sending its signal. */
  predicate BegunSoundly(c: Coordinator, begun: Step) {
    && Heeds(begun) && NoReap(begun.events) && begun.after.leaderExit == c.leaderExit
    && (SignalsKill(begun.events) ==> ChecksThenKill(begun.events))
    && (begun.outcome.None? ==> Signalled(SIGKILL, true) in begun.events)
    && (begun.outcome.Some? ==> !begun.outcome.value.BoundaryEmpty?)
  }

  lemma BeginSound(c: Coordinator, a: BeginAnswers)
    ensures BegunSoundly(c, Begin(c, a))
  {
    BeginHeeds(c, a);
    BeginKillsOnce(c, a);
  }

  /** What a cleanup promises: the only SIGKILL is the begin's, and an empty boundary is answered honestly. */
  predicate Promised(c: Coordinator, begun: seq<Event>, step: Step) {
    && Heeds(step)
    && (SignalsKill(step.events) ==>
         begun <= step.events && ChecksThenKill(begun) && !SignalsKill(step.events[|begun|..]))
    && (step.outcome.Some? && step.outcome.value.BoundaryEmpty? ==>
          && Signalled(SIGKILL, true) in step.events && EndsProved(step.events, step.outcome.value.exit)
          && FirstKnown(c.leaderExit, step.events, step.outcome.value.exit))
  }

  lemma PromisedThen(c: Coordinator, begun: Step, rest: Step)
    requires BegunSoundly(c, begun) && Sound(begun.after, rest)
    ensures Promised(c, begun.events, Then(begun, rest))
  {
    assert (begun.events + rest.events)[|begun.events|..] == rest.events;
    assert begun.events[|begun.events|..] == [];
  }

  /**
   * A whole forced cleanup, however long and whatever it is told: a replaced unit ends it in
   * recovery, and nothing else does for that reason; the only SIGKILL is the one its begin sent
   * after all checks; an empty boundary is answered only after a confirmed SIGKILL and an accepted
   * proof, with the first exit known.
   */
  lemma ForcedCleanup(c: Coordinator, fdsOk: bool, a: BeginAnswers, first: ProofAnswers, rounds: seq<Round>)
    ensures Promised(c, Begin(c, a).events, Cleanup(c, fdsOk, a, first, rounds))
  {
    BeginSound(c, a);
    WaitingSound(Begin(c, a).after, first, rounds);
    PromisedThen(c, Begin(c, a), Waiting(Begin(c, a).after, first, rounds));
  }
}
