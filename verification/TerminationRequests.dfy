/**
 * What a payload scope checks before it passes a signal on, the graceful coordinator, and what the
 * forced cleanup means when its answers come from a real environment.
 */
module TerminationRequests {
  import opened Text
  import opened ScopeIdentity
  import opened ScopeWorld
  import EmptyProof
  import opened Termination
  import ReleaseVerifier

  type Scope = EmptyProof.Scope

  /** A scope with the processes that must stay outside it. */
  datatype Boundary = Boundary(scope: Scope, workerPid: nat, launcherPid: nat)

  datatype UnitAnswers = UnitAnswers(
    resolved: Result<string, BackendError>, properties: Result<Properties, BackendError>)

  datatype BoundaryAnswers = BoundaryAnswers(
    members: Option<seq<nat>>, worker: Option<string>, launcher: Option<string>, pinned: UnitAnswers)

  function PinnedCheck(s: Scope, a: UnitAnswers, mode: EmptyProof.CgroupMode): Result<(), ScopeError> {
    if a.resolved.Err? then Err(MapError(a.resolved.error))
    else if a.resolved.value != s.pin.path then Err(UnitReplaced)
    else if a.properties.Err? then Err(MapError(a.properties.error))
    else if !EmptyProof.PinnedPropertiesMatch(s, a.properties.value, mode) then Err(UnitReplaced)
    else Ok(())
  }

  function OutsideCheck(b: Boundary, a: BoundaryAnswers): Result<(), ScopeError> {
    if a.members.None? then Err(InvalidMembership)
    else if a.worker.None? then Err(CgroupMismatch)
    else if EmptyProof.Inside(a.worker, b.scope.controlGroup) || b.workerPid in a.members.value then
      Err(WorkerInsideBoundary)
    else if a.launcher.None? then Err(CgroupMismatch)
    else if EmptyProof.Inside(a.launcher, b.scope.controlGroup) || b.launcherPid in a.members.value then
      Err(WorkerInsideBoundary)
    else Ok(())
  }

  function ForcedEligibility(b: Boundary, a: BoundaryAnswers): Result<(), ScopeError> {
    var s := b.scope;
    if !s.pin.held || !ValidPayloadCgroup(s.controlGroup, s.identity.expectedUid, s.identity.unitName) then
      Err(InvalidIdentity)
    else
      var outside := OutsideCheck(b, a);
      if outside.Err? then outside else PinnedCheck(s, a.pinned, EmptyProof.Exact)
  }

  predicate Gone(e: BackendError) {
    e == NoSuchUnit || e == UnknownObject
  }

  /** After the kill, a unit that is gone is as good as one that still matches. */
  function PostKillCheck(s: Scope, a: UnitAnswers): Result<(), ScopeError> {
    if a.resolved.Err? && Gone(a.resolved.error) then Ok(())
    else if a.resolved.Ok? && a.resolved.value == s.pin.path && a.properties.Err? && Gone(a.properties.error) then
      Ok(())
    else PinnedCheck(s, a, EmptyProof.AllowClearedWhenTerminal)
  }

  function AppearsTerminal(s: Scope, a: UnitAnswers): Result<bool, ScopeError> {
    var check := PinnedCheck(s, a, EmptyProof.AllowClearedWhenTerminal);
    if check.Err? then Err(check.error)
      else Ok(EmptyProof.TerminalState(a.properties.value.active, a.properties.value.sub))
  }

  // ---------------------------------------------------------------- forced termination of a scope

  datatype KillAnswers = KillAnswers(
    before: BoundaryAnswers, observer: Result<(), ScopeError>, again: BoundaryAnswers, signal: UnitAnswers,
    kill: Result<(), BackendError>, afterKill: UnitAnswers, timerOk: bool)

  /** What the coordinator is told when the scope meets these answers. */
  function Told(b: Boundary, a: KillAnswers): BeginAnswers {
    BeginAnswers(
      ForcedEligibility(b, a.before), a.observer, ForcedEligibility(b, a.again),
      PinnedCheck(b.scope, a.signal, EmptyProof.Exact), a.kill, PostKillCheck(b.scope, a.afterKill), a.timerOk)
  }

  /** The pinned object is still the unit the worker created, untouched. */
  predicate UnitIntact(s: Scope, a: UnitAnswers) {
    a.resolved == Ok(s.pin.path) && a.properties.Ok? && s.pin.held
      && a.properties.value.invocationId == s.identity.invocationId && a.properties.value.id == s.identity.unitName
      && a.properties.value.controlGroup == s.controlGroup ==
           ControlGroupOf(s.identity.expectedUid, s.identity.unitName)
  }

  /** Neither the worker nor the launcher would be hit. */
  predicate OthersOutside(b: Boundary, a: BoundaryAnswers) {
    && a.members.Some? && b.workerPid !in a.members.value && b.launcherPid !in a.members.value
    && a.worker.Some? && !EmptyProof.Inside(a.worker, b.scope.controlGroup)
    && a.launcher.Some? && !EmptyProof.Inside(a.launcher, b.scope.controlGroup)
  }

  /**
   * A SIGKILL is sent only when in the same begin the unit was seen intact three times and the
   * worker and the launcher were seen outside the boundary twice.
   */
  lemma KillOnlyTheOwnUnit(c: Coordinator, b: Boundary, a: KillAnswers)
    ensures SignalsKill(Begin(c, Told(b, a)).events) ==>
      && OthersOutside(b, a.before) && UnitIntact(b.scope, a.before.pinned)
      && OthersOutside(b, a.again) && UnitIntact(b.scope, a.again.pinned)
      && UnitIntact(b.scope, a.signal)
  {
    BeginKillsOnce(c, Told(b, a));
  }

  // ---------------------------------------------------------------- graceful termination

  datatype GracefulAnswers = GracefulAnswers(
    observer: Result<(), ScopeError>, boundary: BoundaryAnswers, kill: Result<(), BackendError>,
    afterKill: Result<Properties, BackendError>, timerOk: bool)

  predicate Running(p: Properties) {
    p.active == "active" && p.sub == "running"
  }

  /** The checks before SIGTERM. */
  function GracefulEligibility(b: Boundary, a: BoundaryAnswers): Result<(), ScopeError> {
    var outside := OutsideCheck(b, a);
    if outside.Err? then outside
    else if !b.scope.pin.held then Err(InvalidIdentity)
    else
      var pinned := PinnedCheck(b.scope, a.pinned, EmptyProof.Exact);
      if pinned.Err? then pinned
      else if !Running(a.pinned.properties.value) then Err(InvalidIdentity)
      else Ok(())
  }

  function AfterTerm(s: Scope, p: Result<Properties, BackendError>): Result<(), ScopeError> {
    if p.Err? then Err(MapError(p.error))
    else if !EmptyProof.PinnedPropertiesMatch(s, p.value, EmptyProof.AllowClearedWhenTerminal) then Err(UnitReplaced)
    else Ok(())
  }

  datatype Graceful = Graceful(cause: Option<Cause>, leaderExit: Option<LeaderExit>, requested: bool, finished: bool)

  datatype GracefulFailure = GracefulScope(error: ScopeError) | GracefulReplaced | GracefulTimer

  /** The state after a begin; `started` when an observer was handed out; the failure, if any; the signals sent. */
  datatype GracefulStep = GracefulStep(
    after: Graceful, started: bool, failure: Option<GracefulFailure>, events: seq<Event>)

  function ScopeFailure(e: ScopeError): GracefulFailure {
    if e == UnitReplaced then GracefulReplaced else GracefulScope(e)
  }

  function GracefulBegin(g: Graceful, cause: Cause, b: Boundary, a: GracefulAnswers): GracefulStep {
    if g.requested then GracefulStep(g, false, None, [])
    else
      var caused := g.(cause := Some(cause));
      var failed := caused.(finished := true);
      var eligible, after := GracefulEligibility(b, a.boundary), AfterTerm(b.scope, a.afterKill);
      if a.observer.Err? then GracefulStep(failed, false, Some(ScopeFailure(a.observer.error)), [])
      else if eligible.Err? then GracefulStep(failed, false, Some(ScopeFailure(eligible.error)), [])
      else if a.kill.Err? then GracefulStep(failed, false, Some(ScopeFailure(MapError(a.kill.error))),
        [Signalled(SIGTERM, false)])
      else if after.Err? then GracefulStep(failed, false, Some(ScopeFailure(after.error)), [Signalled(SIGTERM, true)])
      else if !a.timerOk then GracefulStep(failed, false, Some(GracefulTimer), [Signalled(SIGTERM, true)])
      else GracefulStep(caused.(requested := true), true, None, [Signalled(SIGTERM, true)])
  }

  class GracefulTerminationCoordinator {
    var cause: Option<Cause>
    var leaderExit: Option<LeaderExit>
    var requested: bool
    var finished: bool

    function Value(): Graceful
      reads this
    {
      Graceful(cause, leaderExit, requested, finished)
    }

    constructor ()
      ensures Value() == Graceful(None, None, false, false)
    {
      cause, leaderExit, requested, finished := None, None, false, false;
    }

    method BeginGraceful(reason: Cause, b: Boundary, a: GracefulAnswers)
      returns (started: bool, failure: Option<GracefulFailure>, ghost events: seq<Event>)
      modifies this
      ensures GracefulStep(Value(), started, failure, events) == GracefulBegin(old(Value()), reason, b, a)
    {
      events := [];
      if requested {
        return false, None, [];
      }
      cause := Some(reason);
      if a.observer.Err? {
        finished := true;
        return false, Some(ScopeFailure(a.observer.error)), [];
      }
      var eligible := GracefulEligibility(b, a.boundary);
      if eligible.Err? {
        finished := true;
        return false, Some(ScopeFailure(eligible.error)), [];
      }
      events := [Signalled(SIGTERM, a.kill.Ok?)];
      if a.kill.Err? {
        finished := true;
        return false, Some(ScopeFailure(MapError(a.kill.error))), events;
      }
      var after := AfterTerm(b.scope, a.afterKill);
      if after.Err? {
        finished := true;
        return false, Some(ScopeFailure(after.error)), events;
      }
      if !a.timerOk {
        finished := true;
        return false, Some(GracefulTimer), events;
      }
      requested := true;
      return true, None, events;
    }
  }

  datatype GracefulCall = GracefulCall(cause: Cause, answers: GracefulAnswers)

  /** A run of begins: the state after it and every signal it sent. */
  function GracefulRun(g: Graceful, b: Boundary, calls: seq<GracefulCall>): (Graceful, seq<Event>)
    decreases |calls|
  {
    if calls == [] then (g, [])
    else
      var step := GracefulBegin(g, calls[0].cause, b, calls[0].answers);
      var (after, events) := GracefulRun(step.after, b, calls[1..]);
      (after, step.events + events)
  }

  lemma {:induction false} RequestedIsSilent(g: Graceful, b: Boundary, calls: seq<GracefulCall>)
    requires g.requested
    ensures GracefulRun(g, b, calls).0 == g && GracefulRun(g, b, calls).1 == []
    decreases |calls|
  {
    if calls != [] {
      RequestedIsSilent(g, b, calls[1..]);
    }
  }

  /** After a begin that started, later begins send nothing and change nothing: the first cause stays. */
  lemma StartedOnce(g: Graceful, b: Boundary, first: GracefulCall, later: seq<GracefulCall>)
    requires GracefulBegin(g, first.cause, b, first.answers).started
    ensures var (after, events) := GracefulRun(g, b, [first] + later);
      events == [Signalled(SIGTERM, true)] && after.cause == Some(first.cause) && after.requested
  {
    var step := GracefulBegin(g, first.cause, b, first.answers);
    assert ([first] + later)[1..] == later;
    RequestedIsSilent(step.after, b, later);
  }

  /** A begin whose checks pass, so that it signals. */
  predicate Sends(b: Boundary, a: GracefulAnswers) {
    a.observer.Ok? && GracefulEligibility(b, a.boundary).Ok?
  }

  /** A begin that also gets through everything after its signal. */
  predicate Starts(b: Boundary, a: GracefulAnswers) {
    Sends(b, a) && a.kill.Ok? && AfterTerm(b.scope, a.afterKill).Ok? && a.timerOk
  }

  /** What a begin would do on a coordinator that has not started: signal, and start. */
  datatype Try = Try(sends: bool, starts: bool)

  function Attempts(b: Boundary, calls: seq<GracefulCall>): (r: seq<Try>)
    ensures |r| == |calls|
    ensures forall i | 0 <= i < |r| :: r[i] == Try(Sends(b, calls[i].answers), Starts(b, calls[i].answers))
  {
    if calls == [] then [] else [Try(Sends(b, calls[0].answers), Starts(b, calls[0].answers))] + Attempts(b, calls[1..])
  }

  /** The tries that signal, up to and including the first that starts. */
  function Tries(tries: seq<Try>): nat {
    if tries == [] then 0
    else if tries[0].starts then 1
    else (if tries[0].sends then 1 else 0) + Tries(tries[1..])
  }

  lemma BeginTries(g: Graceful, b: Boundary, call: GracefulCall)
    requires !g.requested
    ensures var step := GracefulBegin(g, call.cause, b, call.answers);
      && step.started == step.after.requested == Starts(b, call.answers)
      && |step.events| == if Sends(b, call.answers) then 1 else 0
  {
  }

  /** How many signals any run of begins sends: a begin that failed after its signal is not remembered. */
  lemma {:induction false} SignalsAreTries(g: Graceful, b: Boundary, calls: seq<GracefulCall>)
    requires !g.requested
    ensures |GracefulRun(g, b, calls).1| == Tries(Attempts(b, calls))
    decreases |calls|
  {
    if calls != [] {
      var step := GracefulBegin(g, calls[0].cause, b, calls[0].answers);
      BeginTries(g, b, calls[0]);
      assert Attempts(b, calls)[1..] == Attempts(b, calls[1..]);
      if step.after.requested {
        RequestedIsSilent(step.after, b, calls[1..]);
      } else {
        SignalsAreTries(step.after, b, calls[1..]);
      }
    }
  }

  predicate NoneStarts(tries: seq<Try>) {
    forall k | 0 <= k < |tries| :: !tries[k].starts
  }

  /** Some begin signals before any has started. */
  predicate Signals(tries: seq<Try>) {
    exists j | 0 <= j < |tries| :: tries[j].sends && NoneStarts(tries[..j])
  }

  /** Two begins signal before any has started. */
  predicate SignalsTwice(tries: seq<Try>) {
    exists i, j | 0 <= i < j < |tries| :: tries[i].sends && tries[j].sends && NoneStarts(tries[..j])
  }

  lemma NoneStartsAtFront(tries: seq<Try>, j: nat)
    requires 0 < j <= |tries|
    ensures NoneStarts(tries[..j]) <==> !tries[0].starts && NoneStarts(tries[1..][..j - 1])
  {
    assert tries[1..][..j - 1] == tries[1..j];
    assert NoneStarts(tries[..j]) ==>
      !tries[..j][0].starts && forall k | 0 <= k < j - 1 :: tries[1..j][k] == tries[..j][k + 1];
    assert forall k | 1 <= k < j :: tries[..j][k] == tries[1..j][k - 1];
  }

  lemma {:induction false} OneTry(tries: seq<Try>)
    requires forall k | 0 <= k < |tries| :: tries[k].starts ==> tries[k].sends
    ensures Tries(tries) >= 1 <==> Signals(tries)
  {
    if tries != [] {
      var rest := tries[1..];
      OneTry(rest);
      if tries[0].sends {
        assert NoneStarts(tries[..0]);
      } else {
        forall j | 0 < j < |tries| ensures NoneStarts(tries[..j]) <==> NoneStarts(rest[..j - 1]) {
          NoneStartsAtFront(tries, j);
        }
        if Signals(rest) {
          var j :| 0 <= j < |rest| && rest[j].sends && NoneStarts(rest[..j]);
          assert tries[j + 1].sends && NoneStarts(tries[..j + 1]);
        }
      }
    }
  }

  lemma {:induction false} TwoTries(tries: seq<Try>)
    requires forall k | 0 <= k < |tries| :: tries[k].starts ==> tries[k].sends
    ensures Tries(tries) >= 2 <==> SignalsTwice(tries)
  {
    if tries != [] {
      var rest := tries[1..];
      TwoTries(rest);
      OneTry(rest);
      forall j | 0 < j < |tries| ensures NoneStarts(tries[..j]) <==> !tries[0].starts && NoneStarts(rest[..j - 1]) {
        NoneStartsAtFront(tries, j);
      }
      if Tries(tries) >= 2 {
        if tries[0].sends {
          var j :| 0 <= j < |rest| && rest[j].sends && NoneStarts(rest[..j]);
          assert tries[0].sends && tries[j + 1].sends && NoneStarts(tries[..j + 1]);
        } else {
          var i, j :| 0 <= i < j < |rest| && rest[i].sends && rest[j].sends && NoneStarts(rest[..j]);
          assert tries[i + 1].sends && tries[j + 1].sends && NoneStarts(tries[..j + 1]);
        }
      }
      if SignalsTwice(tries) {
        var i, j :| 0 <= i < j < |tries| && tries[i].sends && tries[j].sends && NoneStarts(tries[..j]);
        assert rest[j - 1].sends && NoneStarts(rest[..j - 1]);
        assert i > 0 ==> rest[i - 1].sends;
      }
    }
  }

  /** Over every run from a coordinator that has not started: at most one SIGTERM exactly without such a pair. */
  lemma AtMostOneTerm(g: Graceful, b: Boundary, calls: seq<GracefulCall>)
    requires !g.requested
    ensures |GracefulRun(g, b, calls).1| <= 1 <==> !SignalsTwice(Attempts(b, calls))
  {
    SignalsAreTries(g, b, calls);
    TwoTries(Attempts(b, calls));
  }

  /** A boundary as it may stand, with a worker and a launcher elsewhere. */
  function ExampleBoundary(): Boundary {
    Boundary(EmptyProof.Scope(Example(), EmptyProof.Pin("/unit", true),
        ControlGroupOf(Example().expectedUid, Example().unitName)), 2, 3)
  }

  /** Checks that pass, a signal that is sent, and a unit that cannot be read afterwards. */
  function SignalledThenLost(): GracefulAnswers {
    var p := Properties(Example().unitName, Example().invocationId,
      ControlGroupOf(Example().expectedUid, Example().unitName),
                        SliceOf(Example().expectedUid), true, "active", "running");
    GracefulAnswers(Ok(()), BoundaryAnswers(Some([9]), Some("/w"), Some("/l"), UnitAnswers(Ok("/unit"), Ok(p))), Ok(()),
        Err(UnknownObject), true)
  }

  lemma ExampleSends()
    ensures Sends(ExampleBoundary(), SignalledThenLost()) && !Starts(ExampleBoundary(), SignalledThenLost())
  {
    ExampleIsValid();
    assert |ControlGroupOf(Example().expectedUid, Example().unitName)| > 12;
  }

  /** The failing input: two begins that each lose the unit after their signal send two. */
  lemma TwoSignals(cause: Cause)
    ensures var call := GracefulCall(cause, SignalledThenLost());
      |GracefulRun(Graceful(None, None, false, false), ExampleBoundary(), [call, call]).1| == 2
  {
    var call := GracefulCall(cause, SignalledThenLost());
    ExampleSends();
    SignalsAreTries(Graceful(None, None, false, false), ExampleBoundary(), [call, call]);
    var lost := Try(true, false);
    assert Attempts(ExampleBoundary(), [call, call]) == [lost, lost];
    assert [lost, lost][1..] == [lost] && Tries([lost]) == 1;
  }

  // ---------------------------------------------------------------- what an empty boundary means

  /** The lookup by invocation, with its error. */
  function Lookup(w: World): Result<string, BackendError> {
    if w.bus.Some? then Err(w.bus.value) else if w.resolved.None? then Err(NoSuchUnit) else Ok(w.resolved.value)
  }

  /** What the look at the unit before a proof reads, from instant `t`: the lookup, then its properties. */
  function UnitReadAt(env: Env, t: nat, s: Scope): UnitAnswers {
    UnitAnswers(Lookup(env(t)), ReadProperties(env, t + 1, s.pin.path))
  }

  /** The proof starts when that look is over. */
  const PROOF_START := 8

  /** An attempt made in this environment, at its own instant. */
  ghost predicate MadeIn(env: Env, s: Scope, p: ProofAnswers) {
    var proof := EmptyProof.ProveEmpty(env, p.at + PROOF_START, s);
    && p.appears == AppearsTerminal(s, UnitReadAt(env, p.at, s))
    && p.proof == if proof.Ok? then Ok(()) else Err(proof.error)
  }

  ghost predicate RoundMadeIn(env: Env, s: Scope, r: Round) {
    MadeIn(env, s, r.reapProof) && MadeIn(env, s, r.wakeProof) && MadeIn(env, s, r.lastProof)
  }

  predicate SaysEmpty(step: Step) {
    step.outcome.Some? && step.outcome.value.BoundaryEmpty?
  }

  /** An attempt succeeds only at an instant at which a proof succeeds. */
  predicate Backed(proved: nat -> bool, p: ProofAnswers) {
    p.proof.Ok? ==> proved(p.at + PROOF_START)
  }

  predicate RoundBacked(proved: nat -> bool, r: Round) {
    Backed(proved, r.reapProof) && Backed(proved, r.wakeProof) && Backed(proved, r.lastProof)
  }

  /** Every proof a step accepted succeeds at the instant the step recorded. */
  predicate Genuine(proved: nat -> bool, step: Step) {
    forall i | 0 <= i < |step.events| && step.events[i].Proved? :: proved(step.events[i].at + PROOF_START)
  }

  lemma ThenGenuine(proved: nat -> bool, first: Step, second: Step)
    requires Genuine(proved, first) && Genuine(proved, second)
    ensures Genuine(proved, Then(first, second))
  {
  }

  lemma ProofGenuine(proved: nat -> bool, c: Coordinator, p: ProofAnswers)
    requires Backed(proved, p)
    ensures Genuine(proved, TryProof(c, p))
  {
  }

  lemma ReapGenuine(proved: nat -> bool, c: Coordinator, r: Round)
    requires RoundBacked(proved, r)
    ensures Genuine(proved, ReapPhase(c, r))
  {
    if r.leaderReady && c.leaderExit.None? && r.child.Some? {
      var reaped := RecordExit(c, r.child.value);
      ProofGenuine(proved, reaped, r.reapProof);
      ThenGenuine(proved, Step(reaped, None, [Reaped(r.child.value)]), TryProof(reaped, r.reapProof));
    }
  }

  lemma DeadlineGenuine(proved: nat -> bool, c: Coordinator, r: Round)
    requires RoundBacked(proved, r)
    ensures Genuine(proved, DeadlinePhase(c, r))
  {
    ProofGenuine(proved, c, r.lastProof);
    if r.timer.Elapsed? {
      ThenGenuine(proved, TryProof(c, r.lastProof), Ended(c, DeadlineExpired(c.cause, c.leaderExit), []));
    }
  }

  lemma TriggerGenuine(proved: nat -> bool, c: Coordinator, r: Round)
    requires RoundBacked(proved, r)
    ensures Genuine(proved, TriggerOnward(c, r))
  {
    var trigger := TriggerPhase(c, r);
    DeadlineGenuine(proved, trigger.after, r);
    ThenGenuine(proved, trigger, DeadlinePhase(trigger.after, r));
  }

  lemma RoundGenuine(proved: nat -> bool, c: Coordinator, r: Round)
    requires RoundBacked(proved, r)
    ensures Genuine(proved, PollRound(c, r))
  {
    if r.poll.Ready? {
      var reap := ReapPhase(c, r);
      var wake := WakePhase(reap.after, r);
      ReapGenuine(proved, c, r);
      ProofGenuine(proved, reap.after, r.wakeProof);
      TriggerGenuine(proved, wake.after, r);
      ThenGenuine(proved, wake, TriggerOnward(wake.after, r));
      ThenGenuine(proved, reap, WakeOnward(reap.after, r));
    }
  }

  lemma {:induction false} RoundsGenuine(proved: nat -> bool, c: Coordinator, rounds: seq<Round>)
    requires forall i | 0 <= i < |rounds| :: RoundBacked(proved, rounds[i])
    ensures Genuine(proved, Rounds(c, rounds))
    decreases |rounds|
  {
    if rounds != [] {
      var round := PollRound(c, rounds[0]);
      RoundGenuine(proved, c, rounds[0]);
      RoundsGenuine(proved, round.after, rounds[1..]);
      ThenGenuine(proved, round, Rounds(round.after, rounds[1..]));
      Unroll(c, rounds);
    }
  }

  lemma BeginProvesNothing(proved: nat -> bool, c: Coordinator, a: BeginAnswers)
    ensures Genuine(proved, Begin(c, a))
  {
  }

  /** The instant at which a proof starts that was accepted last. */
  function AcceptedAt(events: seq<Event>): nat
    requires events != [] && events[|events| - 1].Proved?
  {
    events[|events| - 1].at + PROOF_START
  }

  /**
   * The step accepted a proof last; that very proof succeeded in the environment; by its cgroup read
   * the invocation had ended, and at every later instant the boundary is ended and empty.
   */
  ghost predicate FoundForGood(env: Env, s: Scope, step: Step) {
    && SaysEmpty(step) && EndsProved(step.events, step.outcome.value.exit)
    && EmptyProof.ProveEmpty(env, AcceptedAt(step.events), s).Ok?
    && EndedAndEmptyAfter(env, AcceptedAt(step.events) + EmptyProof.CGROUP_READ)
  }

  ghost predicate EndedAndEmptyAfter(env: Env, t: nat) {
    !env(t).live && forall j: nat | t < j :: !env(j).live && !env(j).populated
  }

  lemma GenuineForGood(env: Env, s: Scope, step: Step)
    requires EmptyProof.Lawful(env, s.pin.path) && Genuine((t: nat) => EmptyProof.ProveEmpty(env, t, s).Ok?, step)
    requires SaysEmpty(step) && EndsProved(step.events, step.outcome.value.exit)
    ensures FoundForGood(env, s, step)
  {
    var t := AcceptedAt(step.events);
    forall j: nat | t + EmptyProof.CGROUP_READ < j ensures !env(j).live && !env(j).populated {
      EmptyProof.ProofIsStable(env, t, s, j);
    }
    EmptyProof.EndedBeforeTheRead(env, t, s);
  }

  /** In a lawful environment, when the attempts of a cleanup were made in it, an empty boundary was found for good. */
  lemma EmptyForGood(env: Env, s: Scope, c: Coordinator, fdsOk: bool, a: BeginAnswers, first: ProofAnswers,
      rounds: seq<Round>)
    requires EmptyProof.Lawful(env, s.pin.path)
    requires MadeIn(env, s, first) && forall i | 0 <= i < |rounds| :: RoundMadeIn(env, s, rounds[i])
    requires SaysEmpty(Cleanup(c, fdsOk, a, first, rounds))
    ensures FoundForGood(env, s, Cleanup(c, fdsOk, a, first, rounds))
  {
    var proved := (t: nat) => EmptyProof.ProveEmpty(env, t, s).Ok?;
    forall i | 0 <= i < |rounds| ensures RoundBacked(proved, rounds[i]) {
      assert RoundMadeIn(env, s, rounds[i]);
    }
    CleanupGenuine(proved, c, fdsOk, a, first, rounds);
    ForcedCleanup(c, fdsOk, a, first, rounds);
    PromisedEmpty(c, Begin(c, a).events, Cleanup(c, fdsOk, a, first, rounds));
    GenuineForGood(env, s, Cleanup(c, fdsOk, a, first, rounds));
  }

  lemma PromisedEmpty(c: Coordinator, begun: seq<Event>, step: Step)
    requires Promised(c, begun, step) && SaysEmpty(step)
    ensures EndsProved(step.events, step.outcome.value.exit)
  {
  }

  lemma CleanupGenuine(proved: nat -> bool, c: Coordinator, fdsOk: bool, a: BeginAnswers, first: ProofAnswers,
      rounds: seq<Round>)
    requires Backed(proved, first) && forall i | 0 <= i < |rounds| :: RoundBacked(proved, rounds[i])
    ensures Genuine(proved, Cleanup(c, fdsOk, a, first, rounds))
  {
    var begun := Begin(c, a);
    var tried := TryProof(begun.after, first);
    BeginProvesNothing(proved, c, a);
    ProofGenuine(proved, begun.after, first);
    RoundsGenuine(proved, tried.after, rounds);
    ThenGenuine(proved, tried, Rounds(tried.after, rounds));
    ThenGenuine(proved, begun, Waiting(begun.after, first, rounds));
  }

  /** A cleanup of a scope whose empty cgroup is left over, after its leader exited. */
  function LeftoverAttempt(at: nat): ProofAnswers {
    ProofAnswers(at, Err(InvocationUnavailable), Ok(()))
  }

  lemma LeftoverAttemptIsMade(at: nat)
    ensures var env, s := ReleaseVerifier.Fixed(ReleaseVerifier.LeftoverWorld()), ReleaseVerifier.LeftoverScope();
      MadeIn(env, s, LeftoverAttempt(at))
  {
    ReleaseVerifier.LeftoverIsProved(at + PROOF_START);
  }

  /** The hypotheses of the law above can be met, at any instant. */
  lemma EmptyForGoodIsMet(cause: Cause, exit: LeaderExit, at: nat)
    ensures var env, s := ReleaseVerifier.Fixed(ReleaseVerifier.LeftoverWorld()), ReleaseVerifier.LeftoverScope();
      var done := BeginAnswers(Ok(()), Ok(()), Ok(()), Ok(()), Ok(()), Ok(()), true);
      && EmptyProof.Lawful(env, s.pin.path) && MadeIn(env, s, LeftoverAttempt(at))
      && SaysEmpty(Cleanup(Coordinator(cause, Some(exit), false, false), true, done, LeftoverAttempt(at), []))
  {
    ReleaseVerifier.LeftoverIsProved(at + PROOF_START);
    LeftoverAttemptIsMade(at);
  }

  // ---------------------------------------------------------------- what the checks ask for, field by field

  /** The unit answers under its pinned path with the identity of the scope. */
  predicate UnitAnswersAs(s: Scope, a: UnitAnswers, cgroups: set<string>) {
    && s.pin.held && a.resolved == Ok(s.pin.path) && a.properties.Ok?
    && a.properties.value.id == s.identity.unitName && a.properties.value.invocationId == s.identity.invocationId
    && a.properties.value.slice == "user-" + Decimal(s.identity.expectedUid) + ".slice"
    && a.properties.value.transient && a.properties.value.controlGroup in cgroups && PathIsTheScopes(s)
  }

  predicate PathIsTheScopes(s: Scope) {
    && s.controlGroup
         == "/user.slice/" + ("user-" + Decimal(s.identity.expectedUid) + ".slice") + "/" + s.identity.unitName
    && StartsWith(s.identity.unitName, "niralis-payload-") && EndsWith(s.identity.unitName, ".scope")
  }

  /** A process whose cgroup is known, not at or below the boundary, and that is no member of it. */
  predicate StandsOutside(pid: nat, cgroup: Option<string>, members: seq<nat>, boundary: string) {
    pid !in members && cgroup.Some? && cgroup.value != boundary && !IsAncestor(boundary, cgroup.value)
  }

  predicate NeighboursOutside(b: Boundary, a: BoundaryAnswers) {
    && a.members.Some? && StandsOutside(b.workerPid, a.worker, a.members.value, b.scope.controlGroup)
    && StandsOutside(b.launcherPid, a.launcher, a.members.value, b.scope.controlGroup)
  }

  predicate IsTerminal(active: string, sub: string) {
    (active == "inactive" && sub == "dead") || (active == "failed" && sub == "failed")
  }

  /** The properties may have lost their cgroup once the unit is terminal. */
  function CgroupsAllowed(s: Scope, a: UnitAnswers): set<string> {
    if a.properties.Ok? && IsTerminal(a.properties.value.active, a.properties.value.sub) then {s.controlGroup, ""}
    else {s.controlGroup}
  }

  lemma PinnedExactly(s: Scope, a: UnitAnswers)
    ensures PinnedCheck(s, a, EmptyProof.Exact).Ok? <==> UnitAnswersAs(s, a, {s.controlGroup})
    ensures PinnedCheck(s, a, EmptyProof.AllowClearedWhenTerminal).Ok? <==> UnitAnswersAs(s, a, CgroupsAllowed(s, a))
  {
    hide Decimal, StartsWith, EndsWith;
  }

  /** A forced termination is eligible if and only if the neighbours stand outside and the unit answers as itself. */
  lemma ForcedEligibleExactly(b: Boundary, a: BoundaryAnswers)
    ensures ForcedEligibility(b, a).Ok? <==>
      NeighboursOutside(b, a) && UnitAnswersAs(b.scope, a.pinned, {b.scope.controlGroup})
  {
    hide Decimal, StartsWith, EndsWith, IsAncestor;
    PinnedExactly(b.scope, a.pinned);
  }

  /** The look before a proof sees a terminal unit if and only if it answers as itself and is terminal. */
  lemma AppearsTerminalExactly(s: Scope, a: UnitAnswers)
    ensures AppearsTerminal(s, a) == Ok(true) <==>
      && UnitAnswersAs(s, a, {s.controlGroup, ""}) && IsTerminal(a.properties.value.active, a.properties.value.sub)
    ensures AppearsTerminal(s, a) == Err(InvocationUnavailable) <==>
      || a.resolved == Err(NoSuchUnit) || a.resolved == Err(UnknownObject)
      || (a.resolved == Ok(s.pin.path) && (a.properties == Err(NoSuchUnit) || a.properties == Err(UnknownObject)))
  {
    hide Decimal, StartsWith, EndsWith;
    PinnedExactly(s, a);
  }

  /** A graceful begin signals, and starts, exactly when these hold. */
  lemma GracefulExactly(b: Boundary, a: GracefulAnswers)
    ensures Sends(b, a) <==>
      && a.observer.Ok? && NeighboursOutside(b, a.boundary)
      && UnitAnswersAs(b.scope, a.boundary.pinned, {b.scope.controlGroup})
      && a.boundary.pinned.properties.value.active == "active" && a.boundary.pinned.properties.value.sub == "running"
    ensures var after := UnitAnswers(Ok(b.scope.pin.path), a.afterKill);
      Starts(b, a) <==>
        Sends(b, a) && a.kill.Ok? && UnitAnswersAs(b.scope, after, CgroupsAllowed(b.scope, after)) && a.timerOk
  {
    hide Decimal, StartsWith, EndsWith, IsAncestor;
    PinnedExactly(b.scope, a.boundary.pinned);
    PinnedExactly(b.scope, UnitAnswers(Ok(b.scope.pin.path), a.afterKill));
  }

  /** Systemd knows no such unit any more, at the lookup or at the reading of its properties. */
  predicate UnitIsGone(s: Scope, a: UnitAnswers) {
    || a.resolved == Err(NoSuchUnit) || a.resolved == Err(UnknownObject)
    || (a.resolved == Ok(s.pin.path) && (a.properties == Err(NoSuchUnit) || a.properties == Err(UnknownObject)))
  }

  /** After the kill the unit may be gone or still answer as itself, and nothing else will do. */
  lemma PostKillExactly(s: Scope, a: UnitAnswers)
    ensures PostKillCheck(s, a).Ok? <==> UnitIsGone(s, a) || UnitAnswersAs(s, a, CgroupsAllowed(s, a))
  {
    hide Decimal, StartsWith, EndsWith;
    PinnedExactly(s, a);
  }

  /** Why the neighbours do not count as outside: unknown members, an unknown cgroup, or one of them inside. */
  lemma OutsideErrorsExactly(b: Boundary, a: BoundaryAnswers)
    ensures var r, members := OutsideCheck(b, a), if a.members.Some? then a.members.value else [];
      var workerOut := StandsOutside(b.workerPid, a.worker, members, b.scope.controlGroup);
      var launcherOut := StandsOutside(b.launcherPid, a.launcher, members, b.scope.controlGroup);
      && (r == Err(InvalidMembership) <==> a.members == None)
      && (r == Err(CgroupMismatch) <==> a.members.Some? && (a.worker == None || (workerOut && a.launcher == None)))
      && (r == Err(WorkerInsideBoundary) <==>
            a.members.Some? && a.worker.Some? && (!workerOut || (a.launcher.Some? && !launcherOut)))
  {
    hide IsAncestor;
  }
}
