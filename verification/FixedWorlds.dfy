/**
 * The worker's proof and the supervisor's verdict in a world that stands still: exactly when each
 * succeeds, field by field, and what a released unit was in any world.
 */
module FixedWorlds {
  import opened Text
  import opened ScopeIdentity
  import opened ScopeWorld
  import opened EmptyProof
  import opened ReleaseVerifier

  /** The lookup finds nothing: no such unit, by either error or by its absence. */
  predicate NothingResolves(w: World) {
    w.bus == Some(NoSuchUnit) || w.bus == Some(UnknownObject) || (w.bus == None && w.resolved == None)
  }

  /** A unit object that carries the identity of the scope. */
  predicate IsTheUnit(u: UnitView, identity: Identity, controlGroup: string) {
    && u.id == identity.unitName && u.invocation == Some(identity.invocationId) && u.transient
    && u.slice == "user-" + Decimal(identity.expectedUid) + ".slice"
    && (u.controlGroup == controlGroup || u.controlGroup == "")
  }

  /** A process that is not at or below the boundary, as far as is known. */
  predicate NotInside(cgroup: Option<string>, boundary: string) {
    cgroup.Some? ==> cgroup.value != boundary && !IsAncestor(boundary, cgroup.value)
  }

  predicate SeenDead(u: UnitView) {
    (u.active == "inactive" && u.sub == "dead") || (u.active == "failed" && u.sub == "failed")
  }

  /** The pinned unit is found, is the scope's and is dead. */
  predicate PinnedIsDead(w: World, s: Scope) {
    && s.pin.held && w.bus == None && w.resolved == Some(s.pin.path) && s.pin.path in w.units
    && IsTheUnit(w.units[s.pin.path], s.identity, s.controlGroup) && SeenDead(w.units[s.pin.path])
  }

  /** A scope whose cgroup path is the one of its identity. */
  predicate PathFits(s: Scope) {
    && s.controlGroup
         == "/user.slice/" + ("user-" + Decimal(s.identity.expectedUid) + ".slice") + "/" + s.identity.unitName
    && StartsWith(s.identity.unitName, "niralis-payload-") && EndsWith(s.identity.unitName, ".scope")
  }

  lemma ValidatesExactly(w: World, s: Scope, t: nat, path: string)
    requires PathFits(s)
    requires w.bus == None && w.resolved == Some(path)
    ensures ValidateTerminal(Fixed(w), t, s, path).Ok? <==> PinnedIsDead(w, s)
  {
    hide Decimal, StartsWith, EndsWith;
  }

  /**
   * The empty proof succeeds if and only if the scope's path is its own, nothing resolves or the pinned
   * unit is found dead, the cgroup reads absent or empty, and worker and launcher are not inside.
   */
  lemma ProofExactly(w: World, s: Scope, t: nat)
    ensures ProveEmpty(Fixed(w), t, s).Ok? <==>
      && PathFits(s) && (NothingResolves(w) || PinnedIsDead(w, s))
      && ReadCgroupState(Fixed(w), t + CGROUP_READ, s.controlGroup).Ok?
      && NotInside(w.workerCgroup, s.controlGroup) && NotInside(w.launcherCgroup, s.controlGroup)
  {
    hide Decimal, StartsWith, EndsWith, ReadCgroupState, ValidateTerminal, IsTheUnit, IsAncestor;
    if PathFits(s) && w.bus == None && w.resolved.Some? {
      ValidatesExactly(w, s, t + FIRST_PROPERTIES, w.resolved.value);
      ValidatesExactly(w, s, t + SECOND_PROPERTIES, w.resolved.value);
    }
  }

  /** While processes are left in the boundary, the proof asks to wait and nothing worse. */
  lemma PopulatedMeansWait(w: World, s: Scope, t: nat)
    requires PathFits(s) && (NothingResolves(w) || PinnedIsDead(w, s))
    requires ReadCgroupState(Fixed(w), t + CGROUP_READ, s.controlGroup) == Err(BoundaryNotEmpty)
    ensures ProveEmpty(Fixed(w), t, s) == Err(BoundaryNotEmpty)
  {
    hide Decimal, StartsWith, EndsWith, ReadCgroupState, ValidateTerminal, IsTheUnit;
    if w.bus == None && w.resolved.Some? {
      ValidatesExactly(w, s, t + FIRST_PROPERTIES, w.resolved.value);
    }
  }

  // ---------------------------------------------------------------- the verdict

  /** An identity both sides accept. */
  predicate Acceptable(identity: Identity) {
    var name, id := identity.unitName, identity.invocationId;
    && StartsWith(name, "niralis-payload-") && EndsWith(name, ".scope") && |name| <= 255
    && (forall i | 0 <= i < |name| :: IsUnitNameChar(name[i]))
    && |id| == 32 && (forall i | 0 <= i < 32 :: IsHexDigit(id[i])) && identity.expectedUid != 0
  }

  predicate SeenFinal(u: UnitView) {
    (u.active == "inactive" || u.active == "failed") && (u.sub == "dead" || u.sub == "failed" || u.sub == "exited")
  }

  /** The unit found by invocation is the identity's and final, and no member is listed or the directory is gone. */
  predicate FinalAndLeft(w: World, identity: Identity) {
    && w.bus == None && w.resolved.Some? && w.resolved.value in w.units
    && IsTheUnit(w.units[w.resolved.value], identity,
         "/user.slice/" + ("user-" + Decimal(identity.expectedUid) + ".slice") + "/" + identity.unitName)
    && SeenFinal(w.units[w.resolved.value])
    && match w.procs
       case Readable(text) => forall i | 0 <= i < |Lines(text)| :: Lines(text)[i] == ""
       case TextMissing => w.directory == Absent
       case TextError => false
  }

  /**
   * The supervisor releases if and only if the identity is acceptable and nothing is left of it, or only
   * a final unit without members.
   */
  lemma VerdictExactly(w: World, t: nat, identity: Identity)
    ensures Verify(Fixed(w), t, identity) == Released <==>
      Acceptable(identity) && ((NothingResolves(w) && w.directory == Absent) || FinalAndLeft(w, identity))
  {
    hide Decimal, StartsWith, EndsWith, Lines, IsUnitNameChar, IsHexDigit;
    if w.bus == None && w.resolved.Some? {
      ObservesExactly(w, t + 1, w.resolved.value);
      ObservesExactly(w, t + 9, w.resolved.value);
    }
  }

  lemma ObservesExactly(w: World, t: nat, path: string)
    requires w.bus == None
    ensures Observe(Fixed(w), t, path).Ok? <==> path in w.units && w.units[path].invocation.Some?
    ensures Observe(Fixed(w), t, path).Ok? ==>
      var u := w.units[path];
      Observe(Fixed(w), t, path).value
        == Observation(u.id, u.invocation.value, u.active, u.sub, u.slice, u.controlGroup, u.transient)
  {
  }

  /** In any changing world, every property of a released unit was read as the identity's. */
  lemma ReleasedUnitIsTheScope(env: Env, t: nat, identity: Identity)
    requires Verify(env, t, identity) == Released && Resolve(env(t)) != Ok(Missing)
    ensures Resolve(env(t)).Ok? && Resolve(env(t)).value.Present?
    ensures var path := Resolve(env(t)).value.path;
      && (forall i: nat | t + 9 <= i < t + 16 :: ReadUnit(env(i), path).Ok?)
      && ReadUnit(env(t + 9), path).value.id == identity.unitName
      && ReadUnit(env(t + 10), path).value.invocation == Some(identity.invocationId)
      && ReadUnit(env(t + 11), path).value.active in ["inactive", "failed"]
      && ReadUnit(env(t + 12), path).value.sub in ["dead", "failed", "exited"]
      && ReadUnit(env(t + 13), path).value.transient
      && ReadUnit(env(t + 14), path).value.slice == "user-" + Decimal(identity.expectedUid) + ".slice"
      && ReadUnit(env(t + 15), path).value.controlGroup
           in ["", "/user.slice/" + ("user-" + Decimal(identity.expectedUid) + ".slice") + "/" + identity.unitName]
  {
    hide Decimal, StartsWith, EndsWith, Valid, ReadUnit;
    var path := Resolve(env(t)).value.path;
    ReleasedObservation(env, t, identity);
  }

  lemma ReleasedObservation(env: Env, t: nat, identity: Identity)
    requires Verify(env, t, identity) == Released && Resolve(env(t)) != Ok(Missing)
    ensures Resolve(env(t)).Ok? && Resolve(env(t)).value.Present?
    ensures var seen := Observe(env, t + 9, Resolve(env(t)).value.path);
      && seen.Ok? && FinalStates(seen.value) && seen.value.id == identity.unitName
      && seen.value.invocationId == identity.invocationId && seen.value.slice == SliceOf(identity.expectedUid)
      && seen.value.transient
      && (seen.value.controlGroup == ""
          || seen.value.controlGroup == ControlGroupOf(identity.expectedUid, identity.unitName))
  {
    hide Decimal, StartsWith, EndsWith, Valid, Observe;
  }

  /** The unit that resolves can be read. */
  predicate UnitIsSeen(w: World) {
    w.bus == None && w.resolved.Some? && w.resolved.value in w.units
  }

  predicate UnitIsTheirs(w: World, identity: Identity) {
    UnitIsSeen(w) && IsTheUnit(w.units[w.resolved.value], identity,
      "/user.slice/" + ("user-" + Decimal(identity.expectedUid) + ".slice") + "/" + identity.unitName)
  }

  /** Members are listed, or the list is missing although the directory is there. */
  predicate MembersLeft(w: World) {
    match w.procs
    case Readable(text) => exists i | 0 <= i < |Lines(text)| :: Lines(text)[i] != ""
    case TextMissing => w.directory == Exists
    case TextError => false
  }

  /** Each reason for a recovery is given exactly under its own condition; anything else could not be verified. */
  lemma ReasonsExactly(w: World, t: nat, identity: Identity)
    ensures var v := Verify(Fixed(w), t, identity);
      && (v == RecoveryRequired(IdentityMismatch) <==>
            !Acceptable(identity) || (UnitIsSeen(w) && !UnitIsTheirs(w, identity)))
      && (v == RecoveryRequired(UnitStillActive) <==>
            Acceptable(identity) && UnitIsTheirs(w, identity) && !SeenFinal(w.units[w.resolved.value]))
      && (v == RecoveryRequired(MembershipNotEmpty) <==>
            && Acceptable(identity)
            && (|| (NothingResolves(w) && w.directory == Exists)
                || (UnitIsTheirs(w, identity) && SeenFinal(w.units[w.resolved.value]) && MembersLeft(w))))
      && v != RecoveryRequired(InvocationIdMismatch)
  {
    hide Decimal, StartsWith, EndsWith, Lines, IsUnitNameChar, IsHexDigit;
    if w.bus == None && w.resolved.Some? {
      ObservesExactly(w, t + 1, w.resolved.value);
      ObservesExactly(w, t + 9, w.resolved.value);
    }
  }

  // ---------------------------------------------------------------- why the worker's proof fails

  /** The pinned unit is found as the scope's own; only a dead one may have lost its cgroup. */
  predicate PinnedIsTheirs(w: World, s: Scope) {
    && UnitIsSeen(w) && w.resolved == Some(s.pin.path) && s.pin.held
    && IsTheUnit(w.units[s.pin.path], s.identity, s.controlGroup)
    && (w.units[s.pin.path].controlGroup == s.controlGroup || SeenDead(w.units[s.pin.path]))
  }

  lemma ValidationErrors(w: World, s: Scope, t: nat, path: string)
    requires PathFits(s) && w.bus == None && w.resolved == Some(path)
    ensures var r := ValidateTerminal(Fixed(w), t, s, path);
      && (r == Err(UnitReplaced) <==>
            path != s.pin.path || (path in w.units && w.units[path].invocation.Some? && !PinnedIsTheirs(w, s)))
      && (r == Err(UnitNotTerminal) <==> PinnedIsTheirs(w, s) && !SeenDead(w.units[path]))
      && r != Err(WorkerInsideBoundary)
  {
    hide Decimal, StartsWith, EndsWith;
  }

  lemma CgroupErrors(env: Env, t: nat, controlGroup: string)
    ensures var r := ReadCgroupState(env, t, controlGroup);
      r.Ok? || r == Err(InvalidIdentity) || r == Err(InvalidMembership) || r == Err(BoundaryNotEmpty)
  {
  }

  /**
   * Three errors of the proof, each exactly under its own condition: a replaced unit, a unit that still
   * runs, and a worker or launcher inside the boundary. The second alone asks to wait.
   */
  lemma ProofErrorsExactly(w: World, s: Scope, t: nat)
    requires PathFits(s)
    ensures var r := ProveEmpty(Fixed(w), t, s);
      && (r == Err(UnitReplaced) <==>
            && w.bus == None && w.resolved.Some?
            && (|| w.resolved.value != s.pin.path
                || (UnitIsSeen(w) && w.units[s.pin.path].invocation.Some? && !PinnedIsTheirs(w, s))))
      && (r == Err(UnitNotTerminal) <==> PinnedIsTheirs(w, s) && !SeenDead(w.units[s.pin.path]))
      && (r == Err(WorkerInsideBoundary) <==>
            && (NothingResolves(w) || PinnedIsDead(w, s))
            && ReadCgroupState(Fixed(w), t + CGROUP_READ, s.controlGroup).Ok?
            && !(NotInside(w.workerCgroup, s.controlGroup) && NotInside(w.launcherCgroup, s.controlGroup)))
  {
    hide Decimal, StartsWith, EndsWith, ReadCgroupState, ValidateTerminal, IsTheUnit, IsAncestor;
    CgroupErrors(Fixed(w), t + CGROUP_READ, s.controlGroup);
    if w.bus == None && w.resolved.Some? {
      ValidatesExactly(w, s, t + FIRST_PROPERTIES, w.resolved.value);
      ValidatesExactly(w, s, t + SECOND_PROPERTIES, w.resolved.value);
      ValidationErrors(w, s, t + FIRST_PROPERTIES, w.resolved.value);
      ValidationErrors(w, s, t + SECOND_PROPERTIES, w.resolved.value);
    }
  }

  /** In a changing world: a unit that comes, goes or moves between the two lookups counts as replaced. */
  lemma ChangedLookupIsReplaced(env: Env, t: nat, s: Scope)
    requires PathFits(s) && Resolve(env(t)).Ok? && Resolve(env(t + SECOND_LOOKUP)).Ok?
    requires Resolve(env(t)) != Resolve(env(t + SECOND_LOOKUP))
    requires Resolve(env(t)).value.Present? ==>
      ValidateTerminal(env, t + FIRST_PROPERTIES, s, Resolve(env(t)).value.path).Ok?
    requires ReadCgroupState(env, t + CGROUP_READ, s.controlGroup).Ok?
    requires NotInside(env(t + WORKER_READ).workerCgroup, s.controlGroup)
    requires NotInside(env(t + LAUNCHER_READ).launcherCgroup, s.controlGroup)
    ensures ProveEmpty(env, t, s) == Err(UnitReplaced)
  {
    hide Decimal, StartsWith, EndsWith, ReadCgroupState, ValidateTerminal, IsAncestor;
  }
}
