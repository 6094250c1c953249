/**
 * The worker's proof that a payload boundary is empty, against an environment that may change
 * between any two calls, and the shorter proof that a boundary disappeared before commit.
 */
module EmptyProof {
  import opened Text
  import opened ScopeIdentity
  import opened ScopeWorld

  datatype Pin = Pin(path: string, held: bool)

  /** A scope the worker owns: its identity, its pinned unit object and its cgroup path. */
  datatype Scope = Scope(identity: Identity, pin: Pin, controlGroup: string)

  predicate TerminalState(active: string, sub: string) {
    (active == "inactive" && sub == "dead") || (active == "failed" && sub == "failed")
  }

  datatype CgroupMode = Exact | AllowClearedWhenTerminal

  /** The identity check on pinned properties; a cleared cgroup property counts only once terminal. */
  predicate PinnedPropertiesMatch(s: Scope, p: Properties, mode: CgroupMode) {
    && s.pin.held
    && p.invocationId == s.identity.invocationId
    && p.id == s.identity.unitName
    && (p.controlGroup == s.controlGroup ||
         (mode.AllowClearedWhenTerminal? && p.controlGroup == "" && TerminalState(p.active, p.sub)))
    && p.slice == SliceOf(s.identity.expectedUid)
    && p.transient
    && ValidPayloadCgroup(s.controlGroup, s.identity.expectedUid, s.identity.unitName)
  }

  /** Validates the unit behind a lookup as terminal, reading its properties from instant `t`. */
  function ValidateTerminal(env: Env, t: nat, s: Scope, path: string): Result<(), ScopeError> {
    if path != s.pin.path then Err(UnitReplaced)
    else
      var p := ReadProperties(env, t, path);
      if p.Err? then Err(MapError(p.error))
      else if !PinnedPropertiesMatch(s, p.value, AllowClearedWhenTerminal) then Err(UnitReplaced)
      else if !TerminalState(p.value.active, p.value.sub) then Err(UnitNotTerminal)
      else Ok(())
  }

  /** Whether a process known to live outside sits at or below the boundary. */
  predicate Inside(cgroup: Option<string>, controlGroup: string) {
    cgroup.Some? && (cgroup.value == controlGroup || IsAncestor(controlGroup, cgroup.value))
  }

  // Instants of the calls, counted from the start of the proof. An instant that a branch does not
  // use passes unobserved.
  const FIRST_LOOKUP := 0
  const FIRST_PROPERTIES := 1
  const CGROUP_READ := 8
  const WORKER_READ := 11
  const LAUNCHER_READ := 12
  const SECOND_LOOKUP := 13
  const SECOND_PROPERTIES := 14

  function ProveEmpty(env: Env, t: nat, s: Scope): (r: Result<CgroupState, ScopeError>) {
    if !ValidPayloadCgroup(s.controlGroup, s.identity.expectedUid, s.identity.unitName) then Err(InvalidIdentity)
    else
      var first := Resolve(env(t + FIRST_LOOKUP));
      if first.Err? then Err(MapError(first.error))
      else
        var validated := if first.value.Present? then ValidateTerminal(env, t + FIRST_PROPERTIES, s, first.value.path)
          else Ok(());
        if validated.Err? then Err(validated.error)
        else
          var cgroup := ReadCgroupState(env, t + CGROUP_READ, s.controlGroup);
          if cgroup.Err? then cgroup
          else if Inside(env(t + WORKER_READ).workerCgroup, s.controlGroup) ||
            Inside(env(t + LAUNCHER_READ).launcherCgroup, s.controlGroup) then
            Err(WorkerInsideBoundary)
          else
            var second := Resolve(env(t + SECOND_LOOKUP));
            if second.Err? then Err(MapError(second.error))
            else if first.value != second.value then Err(UnitReplaced)
            else if second.value.Missing? then cgroup
            else
              var again := ValidateTerminal(env, t + SECOND_PROPERTIES, s, second.value.path);
              if again.Err? then Err(again.error) else cgroup
  }

  // ---------------------------------------------------------------- soundness of the proof

  /**
   * What is taken for granted about systemd and the kernel: a unit that cannot be found, or whose
   * sub-state is final, has ended; `populated 0` and a missing directory tell the truth; an ended
   * invocation never runs again, and nothing enters an ended, unpopulated cgroup.
   */
  predicate Truthful(w: World, pinned: string) {
    && (Resolve(w) == Ok(Missing) ==> !w.live)
    && (pinned in w.units && (w.units[pinned].sub == "dead" || w.units[pinned].sub == "failed") ==> !w.live)
    && (w.directory.Absent? ==> !w.populated)
    && (w.events.Readable? && Populated(w.events.text) == Some(0) ==> !w.populated)
  }

  ghost predicate LawfulAt(env: Env, pinned: string, i: nat) {
    && Truthful(env(i), pinned)
    && (!env(i).live ==> !env(i + 1).live)
    && (!env(i).live && !env(i).populated ==> !env(i + 1).populated)
  }

  ghost predicate Lawful(env: Env, pinned: string) {
    forall i: nat :: LawfulAt(env, pinned, i)
  }

  lemma {:induction false} EndedStaysEnded(env: Env, pinned: string, i: nat, j: nat)
    requires Lawful(env, pinned) && i <= j && !env(i).live
    ensures !env(j).live
    decreases j - i
  {
    if i < j {
      assert LawfulAt(env, pinned, i);
      EndedStaysEnded(env, pinned, i + 1, j);
    }
  }

  lemma {:induction false} EmptyStaysEmpty(env: Env, pinned: string, i: nat, j: nat)
    requires Lawful(env, pinned) && i <= j && !env(i).live && !env(i).populated
    ensures !env(j).live && !env(j).populated
    decreases j - i
  {
    if i < j {
      assert LawfulAt(env, pinned, i);
      EmptyStaysEmpty(env, pinned, i + 1, j);
    }
  }

  /** Success brackets the cgroup read: the pinned path terminal on both sides, or missing on both sides. */
  lemma ProofBracketsTheRead(env: Env, t: nat, s: Scope)
    requires ProveEmpty(env, t, s).Ok?
    ensures Resolve(env(t + FIRST_LOOKUP)).Ok? && Resolve(env(t + SECOND_LOOKUP)) == Resolve(env(t + FIRST_LOOKUP))
    ensures match Resolve(env(t + FIRST_LOOKUP)).value
      case Missing => true
      case Present(path) =>
        && path == s.pin.path && s.pin.held
        && ValidateTerminal(env, t + FIRST_PROPERTIES, s, path).Ok?
        && ValidateTerminal(env, t + SECOND_PROPERTIES, s, path).Ok?
    ensures ReadCgroupState(env, t + CGROUP_READ, s.controlGroup) == Ok(ProveEmpty(env, t, s).value)
    ensures s.controlGroup == ControlGroupOf(s.identity.expectedUid, s.identity.unitName)
  {
  }

  /** A terminal validation, even of torn property reads, means the invocation ended by its last read. */
  lemma TerminalMeansEnded(env: Env, t: nat, s: Scope)
    requires Lawful(env, s.pin.path) && ValidateTerminal(env, t, s, s.pin.path).Ok?
    ensures !env(t + 6).live
  {
    var w := env(t + 6);
    assert LawfulAt(env, s.pin.path, t + 6);
    assert ReadUnit(w, s.pin.path).Ok?;
  }

  lemma EmptyReadMeansUnpopulated(env: Env, t: nat, s: Scope)
    requires Lawful(env, s.pin.path) && ReadCgroupState(env, t, s.controlGroup).Ok?
    ensures !env(t + 1).populated
  {
    assert LawfulAt(env, s.pin.path, t + 1);
  }

  /** The invocation has ended by the time the proof turns to the cgroup. */
  lemma EndedBeforeTheRead(env: Env, t: nat, s: Scope)
    requires Lawful(env, s.pin.path) && ProveEmpty(env, t, s).Ok?
    ensures !env(t + CGROUP_READ).live
  {
    ProofBracketsTheRead(env, t, s);
    var first := env(t + FIRST_LOOKUP);
    if Resolve(first) == Ok(Missing) {
      assert LawfulAt(env, s.pin.path, t + FIRST_LOOKUP);
      EndedStaysEnded(env, s.pin.path, t + FIRST_LOOKUP, t + CGROUP_READ);
    } else {
      TerminalMeansEnded(env, t + FIRST_PROPERTIES, s);
      EndedStaysEnded(env, s.pin.path, t + FIRST_PROPERTIES + 6, t + CGROUP_READ);
    }
  }

  /**
   * The law of the proof: in every lawful environment, success means the pinned invocation had
   * ended before its cgroup was read, and from that read on the boundary is and stays empty.
   */
  lemma ProofIsStable(env: Env, t: nat, s: Scope, j: nat)
    requires Lawful(env, s.pin.path) && ProveEmpty(env, t, s).Ok? && t + CGROUP_READ + 1 <= j
    ensures !env(t + CGROUP_READ).live && !env(j).live && !env(j).populated
  {
    EndedBeforeTheRead(env, t, s);
    ProofBracketsTheRead(env, t, s);
    EmptyReadMeansUnpopulated(env, t + CGROUP_READ, s);
    EndedStaysEnded(env, s.pin.path, t + CGROUP_READ, t + CGROUP_READ + 1);
    EmptyStaysEmpty(env, s.pin.path, t + CGROUP_READ + 1, j);
  }

  // ---------------------------------------------------------------- disappearance before commit

  predicate DisappearedPropertiesMatch(s: Scope, p: Properties) {
    && p.invocationId == s.identity.invocationId
    && p.id == s.identity.unitName
    && p.slice == SliceOf(s.identity.expectedUid)
    && p.transient
    && (p.controlGroup == "" || p.controlGroup == s.controlGroup)
    && TerminalState(p.active, p.sub)
  }

  /** A lookup and a property read that both point at the pinned, terminal unit. */
  function ObserveDisappeared(env: Env, t: nat, s: Scope): Result<Properties, ScopeError> {
    var found := Resolve(env(t));
    if found.Err? || found.value.Missing? then Err(CleanupFailed)
    else if found.value.path != s.pin.path then Err(UnitReplaced)
    else
      var p := ReadProperties(env, t + 1, s.pin.path);
      if p.Err? then Err(CleanupFailed)
      else if !DisappearedPropertiesMatch(s, p.value) then Err(UnitReplaced)
      else Ok(p.value)
  }

  function ProveDisappearance(env: Env, t: nat, s: Scope): (r: Result<(), ScopeError>) {
    if !s.pin.held then Err(CleanupFailed)
    else
      var first := ObserveDisappeared(env, t, s);
      if first.Err? then Err(first.error)
      else
        var second := ObserveDisappeared(env, t + 8, s);
        if second.Err? then Err(second.error)
        else if first.value != second.value then Err(UnitReplaced)
        else Ok(())
  }

  lemma DisappearedMeansEnded(env: Env, t: nat, s: Scope)
    requires Lawful(env, s.pin.path) && ObserveDisappeared(env, t, s).Ok?
    ensures !env(t + 7).live
  {
    var w := env(t + 1 + 6);
    assert LawfulAt(env, s.pin.path, t + 7) && ReadUnit(w, s.pin.path).Ok?;
  }

  /** In a lawful environment a proved disappearance of an absent cgroup is stable too. */
  lemma DisappearanceIsStable(env: Env, t: nat, s: Scope, j: nat)
    requires Lawful(env, s.pin.path) && ProveDisappearance(env, t, s).Ok? && t + 15 <= j
    requires env(t + 15).directory.Absent?
    ensures !env(j).live && !env(j).populated
  {
    DisappearedMeansEnded(env, t + 8, s);
    assert LawfulAt(env, s.pin.path, t + 15);
    EmptyStaysEmpty(env, s.pin.path, t + 15, j);
  }

  /** A removed cgroup directory is not created again. */
  ghost predicate RemovedForGood(env: Env, i: nat) {
    env(i).directory.Absent? ==> env(i + 1).directory.Absent?
  }

  lemma {:induction false} AbsentStaysAbsent(env: Env, i: nat, j: nat)
    requires (forall k: nat :: RemovedForGood(env, k)) && i <= j && env(i).directory.Absent?
    ensures env(j).directory.Absent?
    decreases j - i
  {
    if i < j {
      assert RemovedForGood(env, i);
      AbsentStaysAbsent(env, i + 1, j);
    }
  }

  /** The cleanup sees the directory absent first and proves the disappearance afterwards: also stable. */
  lemma AbsentThenDisappeared(env: Env, seen: nat, t: nat, s: Scope, j: nat)
    requires Lawful(env, s.pin.path) && forall k: nat :: RemovedForGood(env, k)
    requires env(seen).directory.Absent? && seen <= t && ProveDisappearance(env, t, s).Ok? && t + 15 <= j
    ensures !env(j).live && !env(j).populated
  {
    AbsentStaysAbsent(env, seen, t + 15);
    DisappearanceIsStable(env, t, s, j);
  }
}
