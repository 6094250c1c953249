/**
 * Creating, pinning, cleaning and releasing a payload scope. Every answer of systemd and the kernel
 * is arbitrary; the destructive calls are logged in order.
 */
module ScopePin {
  import opened Text
  import opened ScopeIdentity
  import opened ScopeWorld
  import opened EmptyProof

  /** The calls that change something in systemd, with their results. */
  datatype Effect = Started(ok: bool) | Stopped(ok: bool) | Referenced(ok: bool) | Unreferenced(ok: bool)

  type Byte = x: int | 0 <= x < 256

  function HexDigit(n: nat): char
    requires n < 16
  {
    if n < 10 then ('0' as int + n) as char else ('a' as int + (n - 10)) as char
  }

  function HexId(bytes: seq<Byte>): string {
    if bytes == [] then "" else [HexDigit(bytes[0] / 16), HexDigit(bytes[0] % 16)] + HexId(bytes[1..])
  }

  function UnitNameOf(random: seq<Byte>): string {
    "niralis-payload-" + HexId(random) + ".scope"
  }

  /** What the calls of one preparation answer, in the order they are made. */
  datatype Answers = Answers(
    startOk: bool, job: Result<(), ScopeError>, unitPath: Option<string>, unitProxyOk: bool, scopeProxyOk: bool,
    id: Option<string>, active: Option<string>, sub: Option<string>, transient: Option<bool>,
    invocation: Option<seq<Byte>>, slice: Option<string>, controlGroup: Option<string>,
    pidfdCgroup: Option<string>, members: Option<seq<nat>>, workerCgroup: Option<string>,
    launcherCgroup: Option<string>, resolved: Result<string, BackendError>,
    referenced: Result<(), BackendError>, properties: Result<Properties, BackendError>, unrefOk: bool,
    stopOk: bool)

  datatype Request = Request(
    pid: nat, uid: nat, workerPid: nat, launcherPid: nat, logindSessionId: string, random: seq<Byte>)

  predicate OutsidePid(pid: nat, cgroup: string, controlGroup: string, members: seq<nat>) {
    cgroup != controlGroup && !IsAncestor(controlGroup, cgroup) && pid !in members
  }

  /** A wait for a job ends in one of two errors. */
  predicate JobAnswer(a: Answers) {
    a.job.Err? ==> a.job.error == TimedOut || a.job.error == JobFailed
  }

  /** The properties a freshly pinned unit must show. */
  predicate PinMatches(p: Properties, unitName: string, invocationId: string, controlGroup: string, slice: string) {
    && p.id == unitName && p.invocationId == invocationId && p.controlGroup == controlGroup && p.slice == slice
    && p.active == "active" && p.sub == "running" && p.transient
  }

  /** The manager and its log of calls. */
  class Manager {
    ghost var log: seq<Effect>

    constructor ()
      ensures log == []
    {
      log := [];
    }

    method StopCreatedUnit(stopOk: bool, error: ScopeError) returns (e: ScopeError)
      modifies this
      ensures log == old(log) + [Stopped(stopOk)]
      ensures e == if stopOk then error else CleanupFailed
    {
      log := log + [Stopped(stopOk)];
      return if stopOk then error else CleanupFailed;
    }

    /** The observations on the created unit, read in order; the first that fails ends them. */
    method ReadCreatedUnit(r: Request, a: Answers) returns (v: Result<(string, string), ScopeError>)
      ensures v == CreatedUnit(r, a)
    {
      if a.unitPath.None? || !a.unitProxyOk || !a.scopeProxyOk {
        return Err(InvalidIdentity);
      }
      if a.id.None? || a.active.None? || a.sub.None? || a.transient.None? || a.invocation.None? {
        return Err(InvalidIdentity);
      }
      if a.slice.None? || a.controlGroup.None? {
        return Err(InvalidIdentity);
      }
      if |a.invocation.value| != 16 {
        return Err(InvalidIdentity);
      }
      var controlGroup := a.controlGroup.value;
      var unitName := UnitNameOf(r.random);
      if a.id.value != unitName || a.active.value != "active" || a.sub.value != "running" || !a.transient.value
        || a.slice.value != SliceOf(r.uid) || !ValidPayloadCgroup(controlGroup, r.uid, unitName) {
        return Err(InvalidIdentity);
      }
      if a.pidfdCgroup.None? || a.pidfdCgroup.value != controlGroup {
        return Err(CgroupMismatch);
      }
      if a.members.None? || a.members.value != [r.pid] {
        return Err(InvalidMembership);
      }
      if a.workerCgroup.None? {
        return Err(CgroupMismatch);
      }
      if !OutsidePid(r.workerPid, a.workerCgroup.value, controlGroup, a.members.value) {
        return Err(WorkerInsideBoundary);
      }
      if a.launcherCgroup.None? {
        return Err(CgroupMismatch);
      }
      if !OutsidePid(r.launcherPid, a.launcherCgroup.value, controlGroup, a.members.value) {
        return Err(WorkerInsideBoundary);
      }
      return Ok((controlGroup, HexId(a.invocation.value)));
    }

    /** Resolve, reference, re-read; a unit that is not as expected is unreferenced again. */
    method PinInvocationUnit(r: Request, a: Answers, controlGroup: string, invocationId: string)
        returns (p: Result<Pin, ScopeError>)
      modifies this
      ensures p == Pinned(r, a, controlGroup, invocationId).0
      ensures log == old(log) + Pinned(r, a, controlGroup, invocationId).1
    {
      if a.resolved.Err? {
        return Err(MapError(a.resolved.error));
      }
      log := log + [Referenced(a.referenced.Ok?)];
      if a.referenced.Err? {
        return Err(MapError(a.referenced.error));
      }
      if a.properties.Err? {
        log := log + [Unreferenced(a.unrefOk)];
        return Err(MapError(a.properties.error));
      }
      if !PinMatches(a.properties.value, UnitNameOf(r.random), invocationId, controlGroup, SliceOf(r.uid)) {
        log := log + [Unreferenced(a.unrefOk)];
        return Err(UnitReplaced);
      }
      return Ok(Pin(a.resolved.value, true));
    }

    method PrepareScope(r: Request, a: Answers) returns (s: Result<Scope, ScopeError>)
      modifies this
      ensures s == Prepare(r, a).0
      ensures log == old(log) + Prepare(r, a).1
    {
      if r.uid == 0 {
        return Err(InvalidIdentity);
      }
      log := log + [Started(a.startOk)];
      if !a.startOk {
        return Err(StartFailed);
      }
      if a.job.Err? {
        var e := StopCreatedUnit(a.stopOk, a.job.error);
        return Err(e);
      }
      var v := ReadCreatedUnit(r, a);
      if v.Err? {
        var e := StopCreatedUnit(a.stopOk, v.error);
        return Err(e);
      }
      var (controlGroup, invocationId) := v.value;
      var p := PinInvocationUnit(r, a, controlGroup, invocationId);
      if p.Err? {
        var e := StopCreatedUnit(a.stopOk, p.error);
        return Err(e);
      }
      return Ok(Scope(Identity(UnitNameOf(r.random), invocationId, r.uid, r.logindSessionId), p.value, controlGroup));
    }
  }

  // ---------------------------------------------------------------- the same, as a function of the answers

  function CreatedUnit(r: Request, a: Answers): Result<(string, string), ScopeError> {
    var unitName := UnitNameOf(r.random);
    if a.unitPath.None? || !a.unitProxyOk || !a.scopeProxyOk || a.id.None? || a.active.None? || a.sub.None? ||
      a.transient.None?
      || a.invocation.None? || a.slice.None? || a.controlGroup.None? || |a.invocation.value| != 16
      || a.id.value != unitName || a.active.value != "active" || a.sub.value != "running" || !a.transient.value
      || a.slice.value != SliceOf(r.uid) || !ValidPayloadCgroup(a.controlGroup.value, r.uid, unitName) then
           Err(InvalidIdentity)
    else if a.pidfdCgroup != a.controlGroup then Err(CgroupMismatch)
    else if a.members != Some([r.pid]) then Err(InvalidMembership)
    else if a.workerCgroup.None? then Err(CgroupMismatch)
    else if !OutsidePid(r.workerPid, a.workerCgroup.value, a.controlGroup.value, [r.pid]) then Err(WorkerInsideBoundary)
    else if a.launcherCgroup.None? then Err(CgroupMismatch)
    else if !OutsidePid(r.launcherPid, a.launcherCgroup.value, a.controlGroup.value, [r.pid]) then
      Err(WorkerInsideBoundary)
    else Ok((a.controlGroup.value, HexId(a.invocation.value)))
  }

  function Pinned(r: Request, a: Answers, controlGroup: string, invocationId: string): (Result<Pin, ScopeError>,
      seq<Effect>) {
    if a.resolved.Err? then (Err(MapError(a.resolved.error)), [])
    else if a.referenced.Err? then (Err(MapError(a.referenced.error)), [Referenced(false)])
    else if a.properties.Err? then (Err(MapError(a.properties.error)), [Referenced(true), Unreferenced(a.unrefOk)])
    else if !PinMatches(a.properties.value, UnitNameOf(r.random), invocationId, controlGroup, SliceOf(r.uid)) then
      (Err(UnitReplaced), [Referenced(true), Unreferenced(a.unrefOk)])
    else (Ok(Pin(a.resolved.value, true)), [Referenced(true)])
  }

  function Prepare(r: Request, a: Answers): (Result<Scope, ScopeError>, seq<Effect>) {
    var failed := (e: ScopeError) => if a.stopOk then Err(e) else Err(CleanupFailed);
    if r.uid == 0 then (Err(InvalidIdentity), [])
    else if !a.startOk then (Err(StartFailed), [Started(false)])
    else if a.job.Err? then (failed(a.job.error), [Started(true), Stopped(a.stopOk)])
    else
      var v := CreatedUnit(r, a);
      if v.Err? then (failed(v.error), [Started(true), Stopped(a.stopOk)])
      else
        var (pin, effects) := Pinned(r, a, v.value.0, v.value.1);
        if pin.Err? then (failed(pin.error), [Started(true)] + effects + [Stopped(a.stopOk)])
        else (Ok(Scope(Identity(UnitNameOf(r.random), v.value.1, r.uid, r.logindSessionId), pin.value, v.value.0)),
          [Started(true)] + effects)
  }

  // ---------------------------------------------------------------- what preparation leaves behind

  predicate Accepted(log: seq<Effect>) {
    Started(true) in log
  }

  /** The calls of a pin that did not come about: a reference that was taken is dropped again. */
  predicate AbandonedPin(calls: seq<Effect>) {
    || calls == [] || calls == [Referenced(false)]
    || calls == [Referenced(true), Unreferenced(true)] || calls == [Referenced(true), Unreferenced(false)]
  }

  /**
   * After systemd accepted the unit: the calls of a failing run are the start, an abandoned pin and
   * one stop attempt, and the run answers `CleanupFailed` exactly when that attempt failed; the calls
   * of a successful run are the start and one reference.
   */
  lemma PreparationRollsBack(r: Request, a: Answers)
    requires JobAnswer(a)
    ensures var (s, log) := Prepare(r, a);
      Accepted(log) ==>
        && (s.Err? ==>
              && 2 <= |log| && log[0] == Started(true) && AbandonedPin(log[1..|log| - 1])
              && log[|log| - 1] == Stopped(a.stopOk)
              && (s.error == CleanupFailed <==> !a.stopOk))
        && (s.Ok? ==> log == [Started(true), Referenced(true)])
  {
    var v := CreatedUnit(r, a);
    if v.Ok? {
      var calls := Pinned(r, a, v.value.0, v.value.1).1;
      var log := [Started(true)] + calls + [Stopped(a.stopOk)];
      assert log[1..|log| - 1] == calls;
    }
  }

  lemma {:induction false} HexIdShape(bytes: seq<Byte>)
    ensures |HexId(bytes)| == 2 * |bytes|
    ensures forall i | 0 <= i < |HexId(bytes)| :: IsHexDigit(HexId(bytes)[i]) && IsUnitNameChar(HexId(bytes)[i])
  {
    if bytes != [] {
      HexIdShape(bytes[1..]);
    }
  }

  lemma UnitNameIsValid(random: seq<Byte>)
    requires |random| == 16
    ensures var name := UnitNameOf(random);
      IsPayloadUnit(name) && |name| == 54 && forall i | 0 <= i < |name| :: IsUnitNameChar(name[i])
  {
    HexIdShape(random);
    var name := UnitNameOf(random);
    var prefix, suffix := "niralis-payload-", ".scope";
    assert name[..16] == prefix && name[48..] == suffix;
    forall i | 0 <= i < |name| ensures IsUnitNameChar(name[i]) {
      assert name[i] == if i < 16 then prefix[i] else if i < 48 then HexId(random)[i - 16] else suffix[i - 48];
    }
  }

  lemma IdentityIsValid(random: seq<Byte>, invocation: seq<Byte>, uid: nat, session: string)
    requires |random| == 16 && |invocation| == 16 && uid != 0
    ensures Valid(Identity(UnitNameOf(random), HexId(invocation), uid, session))
  {
    UnitNameIsValid(random);
    HexIdShape(invocation);
  }

  /** A prepared scope has a valid identity, a held pin and the cgroup path of its identity. */
  lemma PreparedScopeIsValid(r: Request, a: Answers)
    requires |r.random| == 16
    ensures var s := Prepare(r, a).0;
      s.Ok? ==>
        && Valid(s.value.identity) && s.value.pin.held
        && s.value.controlGroup == ControlGroupOf(s.value.identity.expectedUid, s.value.identity.unitName)
  {
    if Prepare(r, a).0.Ok? {
      IdentityIsValid(r.random, a.invocation.value, r.uid, r.logindSessionId);
    }
  }

  // ---------------------------------------------------------------- cleanup and release of the pin

  /** Answers during one cleanup; `disappearance` is the proof's verdict while the pin is held. */
  datatype CleanupAnswers = CleanupAnswers(
    boundary: Result<CgroupState, ScopeError>, disappearance: Result<(), ScopeError>, identityOk: bool,
    membersEmpty: Result<bool, ScopeError>, stopOk: bool, unrefOk: bool)

  /** The cleanup of a scope before commit; `releasePin` also drops the reference. */
  function CleanupUnit(a: CleanupAnswers, held: bool, releasePin: bool): (Result<(), ScopeError>, seq<Effect>) {
    var unref := if releasePin then [Unreferenced(a.unrefOk)] else [];
    var released := if releasePin && !a.unrefOk then Err(CleanupFailed) else Ok(());
    match a.boundary
    case Err(_) => (Err(CleanupFailed), [])
    case Ok(CgroupAbsent) =>
      if !held then (Err(CleanupFailed), [])
      else if a.disappearance.Err? then (a.disappearance, [])
      else (released, unref)
    case Ok(PresentEmpty) =>
      if !a.identityOk then (Err(CleanupFailed), [])
      else if a.membersEmpty.Err? then (Err(a.membersEmpty.error), [])
      else if !a.membersEmpty.value then (Err(CleanupFailed), [])
      else if !a.stopOk then (Err(CleanupFailed), [Stopped(false)])
      else (released, [Stopped(true)] + unref)
  }

  /** A pinned unit, the operations on it and the log of its calls. */
  class PinnedScope {
    var referenceHeld: bool
    ghost var log: seq<Effect>

    constructor ()
      ensures referenceHeld && log == []
    {
      referenceHeld, log := true, [];
    }

    /** `cleanup` consumes the scope and releases the pin; `cleanup_preserving_pin` does neither. */
    method Cleanup(a: CleanupAnswers, releasePin: bool) returns (r: Result<(), ScopeError>)
      modifies this`log
      ensures r == CleanupUnit(a, referenceHeld, releasePin).0
      ensures log == old(log) + CleanupUnit(a, referenceHeld, releasePin).1
    {
      if a.boundary.Err? {
        return Err(CleanupFailed);
      }
      if a.boundary.value == CgroupAbsent {
        if !referenceHeld {
          return Err(CleanupFailed);
        }
        if a.disappearance.Err? {
          return a.disappearance;
        }
      } else {
        if !a.identityOk {
          return Err(CleanupFailed);
        }
        if a.membersEmpty.Err? {
          return Err(a.membersEmpty.error);
        }
        if !a.membersEmpty.value {
          return Err(CleanupFailed);
        }
        log := log + [Stopped(a.stopOk)];
        if !a.stopOk {
          return Err(CleanupFailed);
        }
      }
      if releasePin {
        log := log + [Unreferenced(a.unrefOk)];
        if !a.unrefOk {
          return Err(CleanupFailed);
        }
      }
      return Ok(());
    }

    method ReleasePin(unrefOk: bool) returns (r: Result<(), ScopeError>)
      modifies this
      ensures Session(referenceHeld, log) == AfterRelease(Session(old(referenceHeld), old(log)), unrefOk)
      ensures r == if old(referenceHeld) && !unrefOk then Err(UnrefFailed) else Ok(())
    {
      if !referenceHeld {
        return Ok(());
      }
      log := log + [Unreferenced(unrefOk)];
      if !unrefOk {
        return Err(UnrefFailed);
      }
      referenceHeld := false;
      return Ok(());
    }
  }

  datatype Session = Session(held: bool, log: seq<Effect>)

  function AfterRelease(s: Session, unrefOk: bool): Session {
    if !s.held then s else Session(!unrefOk, s.log + [Unreferenced(unrefOk)])
  }

  datatype Op = Preserve(answers: CleanupAnswers) | Release(unrefOk: bool)

  function AfterOp(s: Session, op: Op): Session {
    match op
    case Preserve(a) => s.(log := s.log + CleanupUnit(a, s.held, false).1)
    case Release(ok) => AfterRelease(s, ok)
  }

  function AfterOps(s: Session, ops: seq<Op>): Session {
    if ops == [] then s else AfterOp(AfterOps(s, ops[..|ops| - 1]), ops[|ops| - 1])
  }

  function Count(log: seq<Effect>, e: Effect): nat {
    if log == [] then 0 else Count(log[..|log| - 1], e) + if log[|log| - 1] == e then 1 else 0
  }

  lemma CountOne(log: seq<Effect>, last: Effect, e: Effect)
    ensures Count(log + [last], e) == Count(log, e) + if last == e then 1 else 0
  {
    assert (log + [last])[..|log|] == log;
  }

  lemma CountCleanup(log: seq<Effect>, a: CleanupAnswers, held: bool, releasePin: bool)
    ensures var calls := CleanupUnit(a, held, releasePin).1;
      Count(log + calls, Unreferenced(true)) == Count(log, Unreferenced(true)) + if Unreferenced(true) in calls then 1
          else 0
  {
    var calls := CleanupUnit(a, held, releasePin).1;
    if |calls| == 0 {
      assert log + calls == log;
    } else if |calls| == 1 {
      CountOne(log, calls[0], Unreferenced(true));
    } else {
      assert log + calls == log + [calls[0]] + [calls[1]];
      CountOne(log, calls[0], Unreferenced(true));
      CountOne(log + [calls[0]], calls[1], Unreferenced(true));
    }
  }

  /**
   * Over any mix of the two operations the reference is dropped at most once, and exactly when it is no
   * longer held.
   */
  lemma {:induction false} AtMostOneSuccessfulUnref(ops: seq<Op>)
    ensures Counted(AfterOps(Session(true, []), ops))
  {
    if ops != [] {
      AtMostOneSuccessfulUnref(ops[..|ops| - 1]);
      OpKeepsCount(AfterOps(Session(true, []), ops[..|ops| - 1]), ops[|ops| - 1]);
    }
  }

  /** The successful unreferences are those that ended the hold. */
  predicate Counted(s: Session) {
    Count(s.log, Unreferenced(true)) == if s.held then 0 else 1
  }

  lemma OpKeepsCount(s: Session, op: Op)
    requires Counted(s)
    ensures Counted(AfterOp(s, op))
  {
    match op
    case Preserve(a) => CountCleanup(s.log, a, s.held, false);
    case Release(ok) => CountOne(s.log, Unreferenced(ok), Unreferenced(true));
  }

  /**
   * A consuming cleanup after such a mix: the total stays at one successful unref exactly when the
   * pin was still held, or the cleanup did not get past its stop with the cgroup present, or its own
   * unref failed.
   */
  lemma UnrefsWithFinalCleanup(ops: seq<Op>, a: CleanupAnswers)
    ensures var s := AfterOps(Session(true, []), ops);
      Count(s.log + CleanupUnit(a, s.held, true).1, Unreferenced(true)) <= 1 <==>
        (s.held || a.boundary != Ok(PresentEmpty) || !a.identityOk || a.membersEmpty != Ok(true) || !a.stopOk ||
            !a.unrefOk)
  {
    AtMostOneSuccessfulUnref(ops);
    FinalCleanupCount(AfterOps(Session(true, []), ops), a);
  }

  lemma FinalCleanupCount(s: Session, a: CleanupAnswers)
    requires Counted(s)
    ensures Count(s.log + CleanupUnit(a, s.held, true).1, Unreferenced(true)) <= 1 <==>
      (s.held || a.boundary != Ok(PresentEmpty) || !a.identityOk || a.membersEmpty != Ok(true) || !a.stopOk ||
          !a.unrefOk)
  {
    CountCleanup(s.log, a, s.held, true);
  }

  /**
   * What a caller can check before a consuming cleanup: whatever it meets, the total stays at one
   * exactly while the pin is held.
   */
  lemma HeldPinCleansUpOnce(ops: seq<Op>)
    ensures var s := AfterOps(Session(true, []), ops);
      (forall a: CleanupAnswers :: Count(s.log + CleanupUnit(a, s.held, true).1, Unreferenced(true)) <= 1) <==> s.held
  {
    AtMostOneSuccessfulUnref(ops);
    var s := AfterOps(Session(true, []), ops);
    forall a: CleanupAnswers
      ensures s.held ==> Count(s.log + CleanupUnit(a, s.held, true).1, Unreferenced(true)) <= 1
    {
      FinalCleanupCount(s, a);
    }
    if !s.held {
      FinalCleanupCount(s, SMOOTH);
    }
  }

  /** A cleanup that meets an empty cgroup and no refusal. */
  const SMOOTH := CleanupAnswers(Ok(PresentEmpty), Ok(()), true, Ok(true), true, true)

  /** The failing input: a released pin, then a consuming cleanup. */
  lemma ReleasedThenCleaned()
    ensures var s := AfterOps(Session(true, []), [Release(true)]);
      Count(s.log + CleanupUnit(SMOOTH, s.held, true).1, Unreferenced(true)) == 2
  {
    var s := AfterOps(Session(true, []), [Release(true)]);
    assert [Release(true)][..0] == [];
    assert !s.held;
    AtMostOneSuccessfulUnref([Release(true)]);
    CountCleanup(s.log, SMOOTH, s.held, true);
  }

  // ---------------------------------------------------------------- when preparation succeeds

  /** What the created unit, its process and its neighbours must show. */
  predicate CreatedAsAsked(r: Request, a: Answers) {
    var name := UnitNameOf(r.random);
    var cgroup := "/user.slice/" + ("user-" + Decimal(r.uid) + ".slice") + "/" + name;
    && a.unitPath.Some? && a.unitProxyOk && a.scopeProxyOk
    && a.id == Some(name) && a.active == Some("active") && a.sub == Some("running") && a.transient == Some(true)
    && a.invocation.Some? && |a.invocation.value| == 16 && a.slice == Some("user-" + Decimal(r.uid) + ".slice")
    && a.controlGroup == Some(cgroup) && a.pidfdCgroup == Some(cgroup) && a.members == Some([r.pid])
    && Apart(r.workerPid, a.workerCgroup, r.pid, cgroup) && Apart(r.launcherPid, a.launcherCgroup, r.pid, cgroup)
  }

  /** A process that is not the leader and whose cgroup is known and not at or below the boundary. */
  predicate Apart(pid: nat, cgroup: Option<string>, leader: nat, boundary: string) {
    pid != leader && cgroup.Some? && cgroup.value != boundary && !IsAncestor(boundary, cgroup.value)
  }

  /** What the referenced unit must show when it is read again. */
  predicate PinnedAsAsked(r: Request, a: Answers) {
    var name := UnitNameOf(r.random);
    && a.resolved.Ok? && a.referenced.Ok? && a.properties.Ok? && a.invocation.Some?
    && a.properties.value == Properties(name, HexId(a.invocation.value), ControlGroupOf(r.uid, name), SliceOf(r.uid),
                                        true, "active", "running")
  }

  lemma CreatedExactly(r: Request, a: Answers)
    requires |r.random| == 16
    ensures CreatedUnit(r, a).Ok? <==> CreatedAsAsked(r, a)
    ensures CreatedAsAsked(r, a) ==>
      CreatedUnit(r, a).value == (ControlGroupOf(r.uid, UnitNameOf(r.random)), HexId(a.invocation.value))
  {
    hide HexId, Decimal, IsPayloadUnit, IsAncestor;
    UnitNameIsValid(r.random);
    if a.members == Some([r.pid]) {
      assert r.workerPid in [r.pid] <==> r.workerPid == r.pid;
      assert r.launcherPid in [r.pid] <==> r.launcherPid == r.pid;
    }
  }

  /** A preparation succeeds if and only if all of that holds, and hands over exactly the scope it named. */
  lemma PreparationSucceedsExactly(r: Request, a: Answers)
    requires |r.random| == 16
    ensures Prepare(r, a).0.Ok? <==>
      r.uid != 0 && a.startOk && a.job.Ok? && CreatedAsAsked(r, a) && PinnedAsAsked(r, a)
    ensures Prepare(r, a).0.Ok? ==>
      Prepare(r, a).0.value == Scope(
        Identity(UnitNameOf(r.random), HexId(a.invocation.value), r.uid, r.logindSessionId),
        Pin(a.resolved.value, true), ControlGroupOf(r.uid, UnitNameOf(r.random)))
  {
    hide HexId, Decimal, CreatedAsAsked, CreatedUnit;
    CreatedExactly(r, a);
    InvocationIsKnown(r, a);
  }

  lemma InvocationIsKnown(r: Request, a: Answers)
    ensures CreatedAsAsked(r, a) ==> a.invocation.Some?
  {
  }

  // ---------------------------------------------------------------- invocation ids

  function HexValue(c: char): (v: int)
    requires IsHexDigit(c)
    ensures 0 <= v < 16
  {
    if c <= '9' then c as int - '0' as int
    else if c <= 'F' then c as int - 'A' as int + 10
    else c as int - 'a' as int + 10
  }

  predicate AllHex(s: string) {
    forall i | 0 <= i < |s| :: IsHexDigit(s[i])
  }

  function Pairs(s: string): seq<Byte>
    requires |s| % 2 == 0 && AllHex(s)
  {
    if s == "" then [] else [HexValue(s[0]) * 16 + HexValue(s[1])] + Pairs(s[2..])
  }

  /** An invocation id as the bytes that name it to systemd. */
  function ParseHexId(s: string): Option<seq<Byte>> {
    if |s| != 32 || !AllHex(s) then None else Some(Pairs(s))
  }

  lemma HexDigitReadsBack(n: nat)
    requires n < 16
    ensures IsHexDigit(HexDigit(n)) && HexValue(HexDigit(n)) == n
  {
  }

  lemma {:induction false} PairsReadBack(bytes: seq<Byte>)
    ensures AllHex(HexId(bytes)) && |HexId(bytes)| == 2 * |bytes| && Pairs(HexId(bytes)) == bytes
  {
    HexIdShape(bytes);
    if bytes != [] {
      PairsReadBack(bytes[1..]);
      HexDigitReadsBack(bytes[0] / 16);
      HexDigitReadsBack(bytes[0] % 16);
      assert HexId(bytes)[2..] == HexId(bytes[1..]);
    }
  }

  /** An invocation id that was written out reads back as the bytes systemd gave. */
  lemma HexIdReadsBack(bytes: seq<Byte>)
    requires |bytes| == 16
    ensures ParseHexId(HexId(bytes)) == Some(bytes)
  {
    PairsReadBack(bytes);
  }

  // ---------------------------------------------------------------- when a cleanup succeeds

  /** Nothing is left: the cgroup and the held unit are gone, or the empty, known unit was stopped. */
  predicate NothingLeft(a: CleanupAnswers, held: bool) {
    || (a.boundary == Ok(CgroupAbsent) && held && a.disappearance.Ok?)
    || (a.boundary == Ok(PresentEmpty) && a.identityOk && a.membersEmpty == Ok(true) && a.stopOk)
  }

  /**
   * A cleanup succeeds if and only if nothing is left and, where it drops the reference, that worked. It
   * fails as a cleanup, except that a refused disappearance and unreadable members keep their own error.
   */
  lemma CleanupSucceedsExactly(a: CleanupAnswers, held: bool, releasePin: bool)
    ensures var r := CleanupUnit(a, held, releasePin).0;
      && (r.Ok? <==> NothingLeft(a, held) && (releasePin ==> a.unrefOk))
      && (r.Err? ==>
            r.error ==
              if a.boundary == Ok(CgroupAbsent) && held && a.disappearance.Err? then a.disappearance.error
              else if a.boundary == Ok(PresentEmpty) && a.identityOk && a.membersEmpty.Err? then a.membersEmpty.error
              else CleanupFailed)
  {
  }
}
