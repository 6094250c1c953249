/** The supervisor's independent verdict on a scope release, and its agreement with the worker. */
module ReleaseVerifier {
  import opened Text
  import opened ScopeIdentity
  import opened ScopeWorld
  import opened EmptyProof

  datatype Reason =
    | VerificationUnavailable | UnitStillActive | MembershipNotEmpty | InvocationIdMismatch | IdentityMismatch

  datatype Verdict = Released | RecoveryRequired(reason: Reason)

  datatype Observation = Observation(
    id: string, invocationId: string, active: string, sub: string, slice: string, controlGroup: string,
    transient: bool)

  /** Seven property reads in the verifier's own order. */
  function Observe(env: Env, t: nat, path: string): Result<Observation, Reason> {
    var a, b, c, d := ReadUnit(env(t), path), ReadUnit(env(t + 1), path), ReadUnit(env(t + 2), path),
      ReadUnit(env(t + 3), path);
    var e, f, g := ReadUnit(env(t + 4), path), ReadUnit(env(t + 5), path), ReadUnit(env(t + 6), path);
    if a.Err? || b.Err? || c.Err? || d.Err? || e.Err? || f.Err? || g.Err? then Err(VerificationUnavailable)
    else if b.value.invocation.None? then Err(IdentityMismatch)
    else Ok(Observation(a.value.id, b.value.invocation.value, c.value.active, d.value.sub, f.value.slice,
      g.value.controlGroup, e.value.transient))
  }

  function BoundaryAbsent(w: World): Result<bool, Reason> {
    match w.directory
    case Absent => Ok(true)
    case Exists => Ok(false)
    case StatError => Err(VerificationUnavailable)
  }

  predicate NoMemberLine(text: string) {
    forall i | 0 <= i < |Lines(text)| :: Lines(text)[i] == ""
  }

  function BoundaryEmptyOrAbsent(env: Env, t: nat): Result<bool, Reason> {
    match env(t).procs
    case Readable(text) => Ok(NoMemberLine(text))
    case TextMissing => BoundaryAbsent(env(t + 1))
    case TextError => Err(VerificationUnavailable)
  }

  predicate FinalStates(o: Observation) {
    (o.active == "inactive" || o.active == "failed") && (o.sub == "dead" || o.sub == "failed" || o.sub == "exited")
  }

  /** The verdict from instant `t`, given a reachable bus and an open deadline. */
  function Verify(env: Env, t: nat, identity: Identity): (r: Verdict) {
    if !Valid(identity) then RecoveryRequired(IdentityMismatch)
    else
      var controlGroup := ControlGroupOf(identity.expectedUid, identity.unitName);
      var first := Resolve(env(t));
      if first.Err? then RecoveryRequired(VerificationUnavailable)
      else
        var seen := if first.value.Present? then Observe(env, t + 1, first.value.path)
          else Err(VerificationUnavailable);
        if first.value.Present? && seen.Err? then RecoveryRequired(seen.error)
        else
          var second := Resolve(env(t + 8));
          if second.Err? then RecoveryRequired(VerificationUnavailable)
          else if first.value != second.value then RecoveryRequired(InvocationIdMismatch)
          else if second.value.Missing? then
            match BoundaryAbsent(env(t + 16))
            case Err(reason) => RecoveryRequired(reason)
            case Ok(absent) => if absent then Released else RecoveryRequired(MembershipNotEmpty)
          else
            var again := Observe(env, t + 9, second.value.path);
            if again.Err? then RecoveryRequired(again.error)
            else if seen != again then RecoveryRequired(IdentityMismatch)
            else
              var o := again.value;
              if o.id != identity.unitName || o.invocationId != identity.invocationId ||
                o.slice != SliceOf(identity.expectedUid)
                || !o.transient || (o.controlGroup != "" && o.controlGroup != controlGroup) then
                     RecoveryRequired(IdentityMismatch)
              else if !FinalStates(o) then RecoveryRequired(UnitStillActive)
              else
                match BoundaryEmptyOrAbsent(env, t + 16)
                case Err(reason) => RecoveryRequired(reason)
                case Ok(empty) => if empty then Released else RecoveryRequired(MembershipNotEmpty)
  }

  // ---------------------------------------------------------------- agreement in a fixed environment

  /** An environment that answers the same at every instant. */
  function Fixed(w: World): Env {
    (i: nat) => w
  }

  /** An ended, unpopulated world that does not change obeys every law the stability results ask for. */
  lemma EndedWorldIsLawful(w: World, pinned: string)
    requires !w.live && !w.populated
    ensures Lawful(Fixed(w), pinned) && forall k: nat :: RemovedForGood(Fixed(w), k)
  {
  }

  /** A list of process ids, one per line: nothing, or text that starts with a digit. */
  predicate PidList(text: string) {
    text == "" || '0' <= text[0] <= '9'
  }

  /** A scope as preparation hands it over, in a reachable system whose files are consistent. */
  predicate Prepared(w: World, s: Scope) {
    && Valid(s.identity) && s.pin.held && s.controlGroup == ControlGroupOf(s.identity.expectedUid, s.identity.unitName)
    && w.bus.None?
    && (w.procs.Readable? ==> PidList(w.procs.text))
    && (w.directory.Absent? ==> w.procs.TextMissing? && w.eventsMeta.MetaMissing?)
    && (w.procs.Readable? ==> w.directory.Exists?)
  }

  /** Whether the lookup still finds the unit, or the cgroup directory is gone. */
  predicate ResolvableOrGone(w: World) {
    w.resolved.Some? || w.directory.Absent?
  }

  /**
   * Where the worker's proof succeeds, the supervisor releases exactly when the unit resolves or the
   * cgroup is gone.
   */
  lemma VerifierAgreesWithProof(w: World, s: Scope, t: nat, u: nat)
    requires Prepared(w, s) && ProveEmpty(Fixed(w), t, s).Ok?
    ensures Verify(Fixed(w), u, s.identity) == Released <==> ResolvableOrGone(w)
    ensures !ResolvableOrGone(w) ==> Verify(Fixed(w), u, s.identity) == RecoveryRequired(MembershipNotEmpty)
  {
    ProofBracketsTheRead(Fixed(w), t, s);
  }

  /** A proved disappearance of an absent cgroup is always released. */
  lemma VerifierAgreesWithDisappearance(w: World, s: Scope, t: nat, u: nat)
    requires Prepared(w, s) && w.directory.Absent? && ProveDisappearance(Fixed(w), t, s).Ok?
    ensures Verify(Fixed(w), u, s.identity) == Released
  {
    assert ObserveDisappeared(Fixed(w), t, s).Ok?;
  }

  lemma NoDotsConcat(a: string, b: string)
    requires a != "" && b != "" && !HasDotDot(a) && !HasDotDot(b) && (a[|a| - 1] != '.' || b[0] != '.')
    ensures !HasDotDot(a + b)
  {
    forall i | 0 <= i < |a + b| - 1 ensures !((a + b)[i] == '.' && (a + b)[i + 1] == '.') {
      if i >= |a| {
        assert !(b[i - |a|] == '.' && b[i - |a| + 1] == '.');
      }
    }
  }

  lemma ExampleHasNoDots()
    ensures !HasDotDot(ControlGroupOf(Example().expectedUid, Example().unitName))
  {
    assert Decimal(7) == "7";
    NoDotsConcat("user-", "7");
    NoDotsConcat("user-" + "7", ".slice");
    NoDotsConcat("/user.slice/", SliceOf(7));
    NoDotsConcat("/user.slice/" + SliceOf(7), "/");
    NoDotsConcat("niralis-payload-", ".scope");
    NoDotsConcat("/user.slice/" + SliceOf(7) + "/", "niralis-payload-" + ".scope");
  }

  /** A scope in a world where nothing resolves and its empty cgroup is still there. */
  function LeftoverScope(): Scope {
    Scope(Example(), Pin("/unit", true), ControlGroupOf(Example().expectedUid, Example().unitName))
  }

  function LeftoverWorld(): World {
    World(None, None, map[], Regular, Readable(FlagLine('0')), Readable(""), Exists, None, None, false, false)
  }

  lemma LeftoverFiles()
    ensures ReadBounded(Readable(FlagLine('0'))) == Some(FlagLine('0')) && ReadBounded(Readable("")) == Some("")
    ensures Populated(FlagLine('0')) == Some(0)
  {
    FlagLineMeans('0');
    assert Bytes(FlagLine('0')) <= 4 * |FlagLine('0')|;
  }

  lemma LeftoverCgroupIsEmpty(t: nat)
    ensures ReadCgroupState(Fixed(LeftoverWorld()), t, LeftoverScope().controlGroup) == Ok(PresentEmpty)
  {
    ExampleHasNoDots();
    LeftoverFiles();
  }

  lemma LeftoverIsProved(t: nat)
    ensures Prepared(LeftoverWorld(), LeftoverScope()) && ProveEmpty(Fixed(LeftoverWorld()), t, LeftoverScope()).Ok?
    ensures Lawful(Fixed(LeftoverWorld()), LeftoverScope().pin.path)
  {
    ExampleIsValid();
    LeftoverCgroupIsEmpty(t + CGROUP_READ);
    EndedWorldIsLawful(LeftoverWorld(), LeftoverScope().pin.path);
  }

  /** The failing input: the worker proves that boundary empty and the supervisor does not release it. */
  lemma ProvedButNotReleased()
    ensures var w, s := LeftoverWorld(), LeftoverScope();
      && Prepared(w, s) && ProveEmpty(Fixed(w), 0, s).Ok?
      && Verify(Fixed(w), 0, s.identity) == RecoveryRequired(MembershipNotEmpty)
  {
    LeftoverIsProved(0);
    VerifierAgreesWithProof(LeftoverWorld(), LeftoverScope(), 0, 0);
  }

  /** The same scope once its unit is dead and its directory is removed. */
  function RemovedWorld(): World {
    var unit := UnitView(Example().unitName, Some(Example().invocationId), "", SliceOf(Example().expectedUid), true,
      "inactive", "dead");
    World(None, Some("/unit"), map["/unit" := unit], MetaMissing, TextMissing, TextMissing, Absent, None, None,
      false, false)
  }

  /** The laws can be met: in that world every hypothesis of the stability of a disappearance holds, at any instants. */
  lemma RemovalMeetsTheLaws(seen: nat, t: nat)
    ensures var env, s := Fixed(RemovedWorld()), LeftoverScope();
      && Lawful(env, s.pin.path) && (forall k: nat :: RemovedForGood(env, k))
      && env(seen).directory.Absent? && ProveDisappearance(env, t, s).Ok?
  {
    var env, s := Fixed(RemovedWorld()), LeftoverScope();
    EndedWorldIsLawful(RemovedWorld(), s.pin.path);
    assert ObserveDisappeared(env, t, s).Ok?;
    assert ObserveDisappeared(env, t, s) == ObserveDisappeared(env, t + 8, s);
  }

  // ---------------------------------------------------------------- what a release means

  /** The lookup by invocation finds only the unit object of that invocation. */
  ghost predicate FindsOnly(env: Env, pinned: string) {
    forall i: nat :: Resolve(env(i)).Ok? && Resolve(env(i)).value.Present? ==> Resolve(env(i)).value.path == pinned
  }

  predicate ExitedAt(w: World, pinned: string) {
    pinned in w.units && w.units[pinned].sub == "exited"
  }

  /** An exited unit has ended, like a dead or a failed one. */
  ghost predicate ExitedIsFinal(env: Env, pinned: string) {
    forall i: nat :: ExitedAt(env(i), pinned) ==> !env(i).live
  }

  const BOUNDARY_READ := 16

  lemma FinalObservationMeansEnded(env: Env, t: nat, pinned: string)
    requires Lawful(env, pinned) && ExitedIsFinal(env, pinned)
    requires Observe(env, t, pinned).Ok? && FinalStates(Observe(env, t, pinned).value)
    ensures !env(t + 3).live
  {
    assert LawfulAt(env, pinned, t + 3);
    assert ReadUnit(env(t + 3), pinned).Ok?;
    assert ExitedAt(env(t + 3), pinned) ==> !env(t + 3).live;
  }

  /** The parts of a release: nothing resolves, or the unit is observed final. */
  lemma ReleaseSaw(env: Env, t: nat, identity: Identity)
    requires Verify(env, t, identity) == Released
    ensures Resolve(env(t)) == Ok(Missing) ==> env(t + BOUNDARY_READ).directory.Absent?
    ensures Resolve(env(t)) != Ok(Missing) ==>
      && Resolve(env(t)).Ok? && Observe(env, t + 9, Resolve(env(t)).value.path).Ok?
      && FinalStates(Observe(env, t + 9, Resolve(env(t)).value.path).value)
      && BoundaryEmptyOrAbsent(env, t + BOUNDARY_READ) == Ok(true)
  {
  }

  /** A released invocation has ended when its boundary is read. */
  lemma ReleasedMeansEnded(env: Env, t: nat, identity: Identity, pinned: string)
    requires Lawful(env, pinned) && FindsOnly(env, pinned) && ExitedIsFinal(env, pinned)
    requires Verify(env, t, identity) == Released
    ensures !env(t + BOUNDARY_READ).live
  {
    ReleaseSaw(env, t, identity);
    if Resolve(env(t)) == Ok(Missing) {
      assert LawfulAt(env, pinned, t);
      EndedStaysEnded(env, pinned, t, t + BOUNDARY_READ);
    } else {
      FinalObservationMeansEnded(env, t + 9, pinned);
      EndedStaysEnded(env, pinned, t + 12, t + BOUNDARY_READ);
    }
  }

  ghost predicate StaysEmpty(env: Env, t: nat) {
    forall j: nat | t <= j :: !env(j).live && !env(j).populated
  }

  /** The verifier saw no directory: nothing resolved, or there was no list of members. */
  predicate SawNoDirectory(env: Env, t: nat) {
    Resolve(env(t)) == Ok(Missing) || env(t + BOUNDARY_READ).procs.TextMissing?
  }

  lemma StableFrom(env: Env, pinned: string, r: nat)
    requires Lawful(env, pinned) && !env(r).live && !env(r).populated
    ensures StaysEmpty(env, r)
  {
    forall j: nat | r <= j ensures !env(j).live && !env(j).populated {
      EmptyStaysEmpty(env, pinned, r, j);
    }
  }

  lemma AbsentWasSeen(env: Env, t: nat, identity: Identity)
    requires Verify(env, t, identity) == Released && SawNoDirectory(env, t)
    ensures env(t + BOUNDARY_READ).directory.Absent? || env(t + BOUNDARY_READ + 1).directory.Absent?
  {
    ReleaseSaw(env, t, identity);
  }

  lemma AbsentIsUnpopulated(env: Env, pinned: string, r: nat)
    requires Lawful(env, pinned) && !env(r).live && (env(r).directory.Absent? || env(r + 1).directory.Absent?)
    ensures !env(r + 1).live && !env(r + 1).populated
  {
    assert LawfulAt(env, pinned, r) && LawfulAt(env, pinned, r + 1);
  }

  /** A release that saw no directory is of an ended boundary that stays empty. */
  lemma ReleasedWithoutDirectoryIsStable(env: Env, t: nat, identity: Identity, pinned: string)
    requires Lawful(env, pinned) && FindsOnly(env, pinned) && ExitedIsFinal(env, pinned)
    requires Verify(env, t, identity) == Released && SawNoDirectory(env, t)
    ensures StaysEmpty(env, t + BOUNDARY_READ + 1)
  {
    ReleasedMeansEnded(env, t, identity, pinned);
    AbsentWasSeen(env, t, identity);
    AbsentIsUnpopulated(env, pinned, t + BOUNDARY_READ);
    StableFrom(env, pinned, t + BOUNDARY_READ + 1);
  }

  /** While the directory exists, its events file is readable and its flag is the truth. */
  predicate FlagTells(w: World) {
    w.directory.Absent? || (w.events.Readable? && Populated(w.events.text).Some? &&
        (Populated(w.events.text) == Some(0) <==> !w.populated))
  }

  /** What a reader of the directory and of the events file would find, and the verifier does not look for. */
  predicate ReadsEmpty(w: World) {
    w.directory.Absent? || (w.events.Readable? && Populated(w.events.text) == Some(0))
  }

  /**
   * The law of the verdict: a released boundary stays ended and empty from the instant after its
   * members were read exactly when its directory is gone at that instant or its events file says
   * that nothing is left in it or below it.
   */
  lemma ReleasedIsStableExactly(env: Env, t: nat, identity: Identity, pinned: string)
    requires Lawful(env, pinned) && FindsOnly(env, pinned) && ExitedIsFinal(env, pinned)
    requires Verify(env, t, identity) == Released && FlagTells(env(t + BOUNDARY_READ + 1))
    ensures StaysEmpty(env, t + BOUNDARY_READ + 1) <==> ReadsEmpty(env(t + BOUNDARY_READ + 1))
  {
    var r := t + BOUNDARY_READ + 1;
    ReleasedMeansEnded(env, t, identity, pinned);
    EndedStaysEnded(env, pinned, t + BOUNDARY_READ, r);
    assert LawfulAt(env, pinned, r);
    if ReadsEmpty(env(r)) {
      StableFrom(env, pinned, r);
    }
  }

  /** An ended unit whose cgroup has no member of its own but a populated one below it. */
  function NestedWorld(sub: string, live: bool): World {
    var unit := UnitView(Example().unitName, Some(Example().invocationId), "", SliceOf(Example().expectedUid), true,
      "inactive", sub);
    World(None, Some("/unit"), map["/unit" := unit], Regular, Readable(FlagLine('1')), Readable(""), Exists, None, None,
        live, true)
  }

  lemma NestedIsReleased(sub: string, live: bool)
    requires sub == "dead" || sub == "exited"
    ensures Verify(Fixed(NestedWorld(sub, live)), 0, Example()) == Released
  {
    ExampleIsValid();
    var w := NestedWorld(sub, live);
    assert Observe(Fixed(w), 1, "/unit") == Observe(Fixed(w), 9, "/unit");
    assert Lines("") == [];
  }

  /** The failing input: the members file is empty, a child cgroup is populated, and the verdict is a release. */
  lemma ReleasedButPopulated()
    ensures var env := Fixed(NestedWorld("dead", false));
      && Lawful(env, "/unit") && FindsOnly(env, "/unit") && ExitedIsFinal(env, "/unit") && FlagTells(env(17))
      && Verify(env, 0, Example()) == Released && forall j: nat :: env(j).populated
  {
    FlagLineMeans('1');
    NestedIsReleased("dead", false);
    var env := Fixed(NestedWorld("dead", false));
    forall i: nat ensures LawfulAt(env, "/unit", i) {
    }
  }

  /** Why the exited sub-state needs a law of its own: without it the released unit may still run. */
  lemma ReleasedButLive()
    ensures var env := Fixed(NestedWorld("exited", true));
      && Lawful(env, "/unit") && FindsOnly(env, "/unit")
      && Verify(env, 0, Example()) == Released && forall j: nat :: env(j).live
  {
    FlagLineMeans('1');
    NestedIsReleased("exited", true);
    var env := Fixed(NestedWorld("exited", true));
    forall i: nat ensures LawfulAt(env, "/unit", i) {
    }
  }
}
