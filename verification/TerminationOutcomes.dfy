/**
 * When a forced cleanup gives which answer: the exact condition of every ending of an attempt, a
 * round and a whole cleanup, over what the scope, the child, the clock and the visitors say.
 */
module TerminationOutcomes {
  import opened Text
  import opened ScopeWorld
  import opened Termination

  // ---------------------------------------------------------------- one attempt at the proof

  /** The unit was seen terminal, or is not there to be looked at any more. */
  predicate ProofIsDue(a: ProofAnswers) {
    a.appears == Ok(true) || a.appears == Err(InvocationUnavailable)
  }

  /** The attempt establishes the empty boundary. */
  predicate Finds(exit: Option<LeaderExit>, a: ProofAnswers, e: LeaderExit) {
    exit == Some(e) && a.proof.Ok? && ProofIsDue(a)
  }

  /** The attempt decides nothing: not terminal yet, no exit yet, or not empty yet. */
  predicate GoesOn(exit: Option<LeaderExit>, a: ProofAnswers) {
    || a.appears == Ok(false)
    || (ProofIsDue(a) && (exit == None || a.proof == Err(BoundaryNotEmpty) || a.proof == Err(UnitNotTerminal)))
  }

  /** The error an attempt ends with otherwise, and the stage it is laid to. */
  function Trouble(a: ProofAnswers): (ScopeError, Stage)
    requires !ProofIsDue(a) ==> a.appears.Err?
    requires ProofIsDue(a) ==> a.proof.Err?
  {
    if ProofIsDue(a) then (a.proof.error, EmptyProof) else (a.appears.error, BoundaryObservation)
  }

  /** How an error of the scope is answered. */
  predicate AnswersTrouble(c: Coordinator, e: ScopeError, stage: Stage, o: Outcome) {
    match e
    case UnitReplaced => o == RecoveryRequired(c.cause, c.leaderExit, BoundaryIdentityChanged)
    case WorkerInsideBoundary => o == RecoveryRequired(c.cause, c.leaderExit, BoundaryIdentityUnproven)
    case InvalidIdentity => o == RecoveryRequired(c.cause, c.leaderExit, BoundaryIdentityUnproven)
    case CgroupMismatch => o == RecoveryRequired(c.cause, c.leaderExit, BoundaryIdentityUnproven)
    case InvalidMembership => o == RecoveryRequired(c.cause, c.leaderExit, BoundaryIdentityUnproven)
    case _ => o == InfrastructureFailure(c.cause, c.leaderExit, stage, ScopeOperation(e))
  }

  lemma AttemptFinds(c: Coordinator, a: ProofAnswers, e: LeaderExit)
    ensures TryProof(c, a).outcome == Some(BoundaryEmpty(e)) <==> Finds(c.leaderExit, a, e)
  {
  }

  /** An attempt finds the boundary empty, goes on, or fails, each exactly under its own condition. */
  lemma AttemptExactly(c: Coordinator, a: ProofAnswers)
    ensures forall e: LeaderExit :: TryProof(c, a).outcome == Some(BoundaryEmpty(e)) <==> Finds(c.leaderExit, a, e)
    ensures TryProof(c, a).outcome == None <==> GoesOn(c.leaderExit, a)
    ensures TryProof(c, a).after.leaderExit == c.leaderExit && TryProof(c, a).after.cause == c.cause
    ensures !GoesOn(c.leaderExit, a) && (ProofIsDue(a) ==> a.proof.Err?) ==>
      AnswersTrouble(c, Trouble(a).0, Trouble(a).1, TryProof(c, a).outcome.value)
  {
    forall e: LeaderExit ensures TryProof(c, a).outcome == Some(BoundaryEmpty(e)) <==> Finds(c.leaderExit, a, e) {
      AttemptFinds(c, a, e);
    }
  }

  // ---------------------------------------------------------------- the begin

  predicate AllPassed(a: BeginAnswers) {
    a.eligible.Ok? && a.observer.Ok? && a.again.Ok? && a.signal.Ok?
  }

  /** A begin signals exactly when it is the first and every check passes; the wait starts when all else does too. */
  lemma BeginExactly(c: Coordinator, a: BeginAnswers)
    ensures SignalsKill(Begin(c, a).events) <==> !c.killAttempted && AllPassed(a)
    ensures Begin(c, a).outcome == None <==>
      !c.killAttempted && AllPassed(a) && a.kill.Ok? && a.afterKill.Ok? && a.timerOk
    ensures Begin(c, a).after.leaderExit == c.leaderExit && Begin(c, a).after.cause == c.cause
  {
  }

  /** The first check of a begin that fails: its error and the stage it is laid to. */
  function FirstTrouble(a: BeginAnswers): Option<(ScopeError, Stage)> {
    if a.eligible.Err? then Some((a.eligible.error, PreKillValidation))
    else if a.observer.Err? then Some((a.observer.error, BoundaryObservation))
    else if a.again.Err? then Some((a.again.error, Kill))
    else if a.signal.Err? then Some((a.signal.error, Kill))
    else if a.kill.Err? then Some((MapError(a.kill.error), Kill))
    else if a.afterKill.Err? then Some((a.afterKill.error, PostKillValidation))
    else None
  }

  lemma RefusalAnswers(c: Coordinator, stage: Stage, e: ScopeError, events: seq<Event>)
    ensures Refused(c, stage, e, events).outcome.Some?
    ensures AnswersTrouble(c, e, stage, Refused(c, stage, e, events).outcome.value)
    ensures AnswersTrouble(c, e, stage, Refused(c.(killAttempted := true), stage, e, events).outcome.value)
  {
  }

  /** How a begin that does not get through ends: by its first trouble, by the timer, or as a second attempt. */
  lemma BeginFailsExactly(c: Coordinator, a: BeginAnswers)
    requires Begin(c, a).outcome.Some?
    ensures var o := Begin(c, a).outcome.value;
      if c.killAttempted then o == InfrastructureFailure(c.cause, c.leaderExit, Kill, ScopeOperation(InvalidIdentity))
      else if FirstTrouble(a).Some? then AnswersTrouble(c, FirstTrouble(a).value.0, FirstTrouble(a).value.1, o)
      else o == InfrastructureFailure(c.cause, c.leaderExit, Kill, Timer)
  {
    hide Refused, AnswersTrouble;
    forall stage: Stage, e: ScopeError, events: seq<Event> {
      RefusalAnswers(c, stage, e, events);
    }
  }

  // ---------------------------------------------------------------- one round

  /** The exit known after the leader was looked at. */
  function ExitAfter(exit: Option<LeaderExit>, r: Round): Option<LeaderExit> {
    if r.poll.Ready? && exit.None? && r.leaderReady then r.child else exit
  }

  predicate Reaps(exit: Option<LeaderExit>, r: Round) {
    exit == None && r.leaderReady
  }

  predicate ReapGoesOn(exit: Option<LeaderExit>, r: Round) {
    Reaps(exit, r) ==> r.child.Some? && GoesOn(r.child, r.reapProof)
  }

  predicate WakeGoesOn(exit: Option<LeaderExit>, r: Round) {
    r.observerReady ==> r.wakeupOk && GoesOn(exit, r.wakeProof)
  }

  /** Only duplicate requests to terminate came in. */
  predicate OnlyDuplicates(r: Round) {
    && (forall i | 0 <= i < |r.signals| :: r.signals[i] in [SignalNumber(15), SignalNumber(2), SignalNumber(1)])
    && r.visitor != NoListener && r.visitor != AcceptFailed
    && (r.visitor.Peer? ==>
          && r.visitor.request.TerminateRequest? && r.visitor.request.terminate.version == 7
          && r.visitor.request.terminate.workerId == r.visitor.own.workerId
          && r.visitor.request.terminate.workerPid == r.visitor.own.workerPid
          && r.visitor.request.terminate.sessionPid == r.visitor.own.sessionPid
          && r.visitor.request.terminate.sessionPgid == r.visitor.own.sessionPgid)
  }

  /** Nothing in the round up to the timer ends the wait. */
  predicate CalmUpToTimer(exit: Option<LeaderExit>, r: Round) {
    r.poll.Ready? && ReapGoesOn(exit, r) && WakeGoesOn(ExitAfter(exit, r), r) && OnlyDuplicates(r)
  }

  predicate Uneventful(exit: Option<LeaderExit>, r: Round) {
    r.poll.Interrupted? || (CalmUpToTimer(exit, r) && (r.timer.Quiet? || r.timer.Spurious?))
  }

  /** The round finds the boundary empty: at the reap, at the wake-up, or in the same cycle as the deadline. */
  predicate RoundFinds(exit: Option<LeaderExit>, r: Round, e: LeaderExit) {
    && r.poll.Ready?
    && var later := ExitAfter(exit, r);
      || (Reaps(exit, r) && r.child.Some? && Finds(r.child, r.reapProof, e))
      || (ReapGoesOn(exit, r) && r.observerReady && r.wakeupOk && Finds(later, r.wakeProof, e))
      || (CalmUpToTimer(exit, r) && r.timer.Elapsed? && Finds(later, r.lastProof, e))
  }

  /** The deadline passed and the last attempt still decided nothing. */
  predicate RoundExpires(exit: Option<LeaderExit>, r: Round) {
    CalmUpToTimer(exit, r) && r.timer.Elapsed? && GoesOn(ExitAfter(exit, r), r.lastProof)
  }

  lemma ReapExactly(c: Coordinator, r: Round)
    requires r.poll.Ready?
    ensures var step := ReapPhase(c, r);
      && (step.outcome == None <==> ReapGoesOn(c.leaderExit, r))
      && (forall e: LeaderExit :: step.outcome == Some(BoundaryEmpty(e)) <==>
            Reaps(c.leaderExit, r) && r.child.Some? && Finds(r.child, r.reapProof, e))
      && (step.outcome.Some? ==> !step.outcome.value.DeadlineExpired?)
      && (step.outcome == None ==> step.after.leaderExit == ExitAfter(c.leaderExit, r)) && step.after.cause == c.cause
  {
    if Reaps(c.leaderExit, r) && r.child.Some? {
      AttemptExactly(RecordExit(c, r.child.value), r.reapProof);
    }
  }

  lemma WakeExactly(c: Coordinator, r: Round)
    ensures var step := WakePhase(c, r);
      && (step.outcome == None <==> WakeGoesOn(c.leaderExit, r))
      && (forall e: LeaderExit :: step.outcome == Some(BoundaryEmpty(e)) <==>
            r.observerReady && r.wakeupOk && Finds(c.leaderExit, r.wakeProof, e))
      && (step.outcome.Some? ==> !step.outcome.value.DeadlineExpired?)
      && step.after.leaderExit == c.leaderExit && step.after.cause == c.cause
  {
    AttemptExactly(c, r.wakeProof);
  }

  lemma DuplicatesExactly(r: Round)
    ensures AllAskToTerminate(r.signals) && Ignorable(r.visitor) <==> OnlyDuplicates(r)
  {
    var termination := [SignalNumber(15), SignalNumber(2), SignalNumber(1)];
    assert forall s: SignalRead :: s in termination <==> AsksToTerminate(s);
  }

  lemma TriggerExactly(c: Coordinator, r: Round)
    ensures var step := TriggerOnward(c, r);
      && (step.outcome == None <==> OnlyDuplicates(r) && (r.timer.Quiet? || r.timer.Spurious?))
      && (forall e: LeaderExit :: step.outcome == Some(BoundaryEmpty(e)) <==>
            OnlyDuplicates(r) && r.timer.Elapsed? && Finds(c.leaderExit, r.lastProof, e))
      && (step.outcome == Some(DeadlineExpired(c.cause, c.leaderExit)) <==>
            OnlyDuplicates(r) && r.timer.Elapsed? && GoesOn(c.leaderExit, r.lastProof))
      && step.after.leaderExit == c.leaderExit && step.after.cause == c.cause
  {
    DuplicatesExactly(r);
    AttemptExactly(c, r.lastProof);
  }

  /** A round goes on, finds the boundary empty or expires, each exactly under its own condition. */
  lemma RoundExactly(c: Coordinator, r: Round)
    ensures var step, exit := PollRound(c, r), c.leaderExit;
      && (step.outcome == None <==> Uneventful(exit, r))
      && (forall e: LeaderExit :: step.outcome == Some(BoundaryEmpty(e)) <==> RoundFinds(exit, r, e))
      && (step.outcome == Some(DeadlineExpired(c.cause, ExitAfter(exit, r))) <==> RoundExpires(exit, r))
      && (step.outcome == None ==> step.after.leaderExit == ExitAfter(exit, r)) && step.after.cause == c.cause
  {
    hide TryProof, Finds, GoesOn, OnlyDuplicates, ReapPhase, WakePhase, TriggerOnward;
    if r.poll.Ready? {
      var reap := ReapPhase(c, r);
      var wake := WakePhase(reap.after, r);
      ReapExactly(c, r);
      WakeExactly(reap.after, r);
      TriggerExactly(wake.after, r);
    }
  }

  /** What the round's own sources fail with, when nothing before them ended the wait. */
  function Breakage(exit: Option<LeaderExit>, r: Round): Option<(Stage, Failure)> {
    if r.poll.PollFailed? then Some((BoundaryObservation, Poll))
    else if Reaps(exit, r) && r.child == None then Some((LeaderReap, Reap))
    else if !ReapGoesOn(exit, r) then None
    else if r.observerReady && !r.wakeupOk then Some((BoundaryObservation, BoundaryObserver))
    else if !WakeGoesOn(ExitAfter(exit, r), r) then None
    else if !AllAskToTerminate(r.signals) then Some((BoundaryObservation, Signal))
    else if !OnlyDuplicates(r) then Some((BoundaryObservation, Control))
    else if r.timer.TimerBroken? then Some((BoundaryObservation, Timer))
    else None
  }

  /** Such a failure ends the wait, laid to its own stage and with the exit known by then. */
  lemma RoundBreaks(c: Coordinator, r: Round)
    requires !r.poll.Interrupted? && Breakage(c.leaderExit, r).Some?
    ensures var (stage, failure) := Breakage(c.leaderExit, r).value;
      PollRound(c, r).outcome == Some(InfrastructureFailure(c.cause, ExitAfter(c.leaderExit, r), stage, failure))
  {
    hide TryProof, Finds, GoesOn, OnlyDuplicates;
    DuplicatesExactly(r);
    if r.poll.Ready? {
      var reap := ReapPhase(c, r);
      ReapExactly(c, r);
      WakeExactly(reap.after, r);
    }
  }

  // ---------------------------------------------------------------- whole cleanups

  /** Some round finds the boundary empty, and every round before it decides nothing. */
  predicate FoundIn(exit: Option<LeaderExit>, rounds: seq<Round>, e: LeaderExit)
    decreases |rounds|
  {
    rounds != [] &&
    (|| RoundFinds(exit, rounds[0], e)
     || (Uneventful(exit, rounds[0]) && FoundIn(ExitAfter(exit, rounds[0]), rounds[1..], e)))
  }

  lemma {:induction false} RoundsFindExactly(c: Coordinator, rounds: seq<Round>, e: LeaderExit)
    ensures Rounds(c, rounds).outcome == Some(BoundaryEmpty(e)) <==> FoundIn(c.leaderExit, rounds, e)
    decreases |rounds|
  {
    hide PollRound, RoundFinds, Uneventful;
    if rounds != [] {
      var round := PollRound(c, rounds[0]);
      RoundExactly(c, rounds[0]);
      Unroll(c, rounds);
      if round.outcome == None {
        RoundsFindExactly(round.after, rounds[1..], e);
      }
      BothNever(c.leaderExit, rounds[0], e, round);
    }
  }

  lemma BothNever(exit: Option<LeaderExit>, r: Round, e: LeaderExit, round: Step)
    requires round.outcome == None <==> Uneventful(exit, r)
    requires round.outcome == Some(BoundaryEmpty(e)) <==> RoundFinds(exit, r, e)
    ensures !(Uneventful(exit, r) && RoundFinds(exit, r, e))
  {
  }

  /**
   * A forced cleanup answers an empty boundary with exit e if and only if its begin got through and
   * either the first attempt found it, or that decided nothing and a later round did after rounds that
   * decided nothing.
   */
  lemma CleanupFindsExactly(c: Coordinator, fdsOk: bool, a: BeginAnswers, first: ProofAnswers, rounds: seq<Round>,
      e: LeaderExit)
    ensures Cleanup(c, fdsOk, a, first, rounds).outcome == Some(BoundaryEmpty(e)) <==>
      && fdsOk && !c.killAttempted && AllPassed(a) && a.kill.Ok? && a.afterKill.Ok? && a.timerOk
      && (Finds(c.leaderExit, first, e) || (GoesOn(c.leaderExit, first) && FoundIn(c.leaderExit, rounds, e)))
  {
    hide TryProof, Rounds, Begin, FoundIn;
    var begun := Begin(c, a);
    BeginExactly(c, a);
    BeginSound(c, a);
    AttemptExactly(begun.after, first);
    RoundsFindExactly(TryProof(begun.after, first).after, rounds, e);
  }

  /** The plain case: begun, exit known, unit seen terminal, proof accepted. */
  lemma TerminalUnitIsFound(cause: Cause, e: LeaderExit, at: nat, rounds: seq<Round>)
    ensures var done := BeginAnswers(Ok(()), Ok(()), Ok(()), Ok(()), Ok(()), Ok(()), true);
      Cleanup(Coordinator(cause, Some(e), false, false), true, done, ProofAnswers(at, Ok(true), Ok(())), rounds).outcome
        == Some(BoundaryEmpty(e))
  {
    var done := BeginAnswers(Ok(()), Ok(()), Ok(()), Ok(()), Ok(()), Ok(()), true);
    var seen := ProofAnswers(at, Ok(true), Ok(()));
    CleanupFindsExactly(Coordinator(cause, Some(e), false, false), true, done, seen, rounds, e);
  }
}
