/**
 * The supplementary groups of a session: looking them up, normalising them, dropping privileges to
 * them, and the parent's check of what the child reports. System calls answer arbitrarily.
 */
module Groups {
  import opened Text
  import opened OrderedSets

  const DEFAULT_CAPACITY := 16
  const MAX_ATTEMPTS := 8
  const HARD_MAX_GROUPS := 65536

  datatype GroupError = InvalidUsername | TooManyGroups | LookupFailed

  datatype LookupStatus = Success | BufferTooSmall | Failure

  /** What one lookup answers: its status, the count it reports and the buffer it filled. */
  datatype Lookup = Lookup(status: LookupStatus, ngroups: int, buffer: nat -> int)

  /** The part of the buffer a lookup filled. */
  function Filled(buffer: nat -> int, n: nat): (r: seq<int>)
    ensures |r| == n && forall i: nat | i < n :: r[i] == buffer(i)
  {
    if n == 0 then [] else Filled(buffer, n - 1) + [buffer(n - 1)]
  }

  function GroupLimit(sysconf: int): (limit: nat)
    ensures 1 <= limit <= HARD_MAX_GROUPS
  {
    if sysconf <= 0 || sysconf > HARD_MAX_GROUPS then HARD_MAX_GROUPS else sysconf
  }

  function RequiredCapacity(ngroups: int, capacity: nat, rawLimit: nat): (r: Result<nat, GroupError>)
    ensures r.Ok? <==> capacity < ngroups <= rawLimit
    ensures r.Ok? ==> r.value == ngroups
  {
    if ngroups < 0 || ngroups <= capacity then Err(LookupFailed)
    else if ngroups > rawLimit then Err(TooManyGroups)
    else Ok(ngroups)
  }

  function ValidCount(ngroups: int, capacity: nat, rawLimit: nat): Result<nat, GroupError> {
    if ngroups < 0 || ngroups > capacity || ngroups > rawLimit then Err(LookupFailed) else Ok(ngroups)
  }

  /** The list every group set is compared in. */
  function Normalized(groups: seq<int>, gid: int): (r: seq<int>)
    ensures forall x :: x in r <==> x in groups && x != gid
  {
    Without(Sorted(groups), gid)
  }

  /** It is the one increasing list of the groups other than the primary one. */
  lemma NormalizedIsUnique(groups: seq<int>, gid: int, t: seq<int>)
    ensures t == Normalized(groups, gid) <==> StrictlyIncreasing(t) && forall x :: x in t <==> x in groups && x != gid
  {
    SortedIncreases(groups);
    WithoutIncreases(Sorted(groups), gid);
    if StrictlyIncreasing(t) && forall x :: x in t <==> x in groups && x != gid {
      IncreasingIsUnique(t, Normalized(groups, gid));
    }
  }

  function Normalize(groups: seq<int>, gid: int, limit: nat): Result<seq<int>, GroupError> {
    var r := Normalized(groups, gid);
    if |r| > limit then Err(TooManyGroups) else Ok(r)
  }

  /** A resolution: its result and the capacities it tried, in order. */
  datatype Resolution = Resolution(result: Result<seq<int>, GroupError>, capacities: seq<nat>)

  function Attempts(lookup: (nat, nat) -> Lookup, gid: int, limit: nat, capacity: nat, attempt: nat): Resolution
    decreases MAX_ATTEMPTS - attempt
  {
    if attempt >= MAX_ATTEMPTS then Resolution(Err(LookupFailed), [])
    else
      var answer := lookup(attempt, capacity);
      match answer.status
      case Failure => Resolution(Err(LookupFailed), [capacity])
      case Success =>
        var count := ValidCount(answer.ngroups, capacity, limit + 1);
        Resolution(if count.Err? then Err(count.error)
            else Normalize(Filled(answer.buffer, count.value), gid, limit), [capacity])
      case BufferTooSmall =>
        var required := RequiredCapacity(answer.ngroups, capacity, limit + 1);
        if required.Err? then Resolution(Err(required.error), [capacity])
        else
          var rest := Attempts(lookup, gid, limit, required.value, attempt + 1);
          Resolution(rest.result, [capacity] + rest.capacities)
  }

  function FirstCapacity(limit: nat): nat {
    if DEFAULT_CAPACITY <= limit + 1 then DEFAULT_CAPACITY else limit + 1
  }

  method ResolveGroups(nulFree: bool, gid: int, sysconf: int, lookup: (nat, nat) -> Lookup)
      returns (r: Result<seq<int>, GroupError>)
    ensures !nulFree ==> r == Err(InvalidUsername)
    ensures nulFree ==>
      var limit := GroupLimit(sysconf);
      r == Attempts(lookup, gid, limit, FirstCapacity(limit), 0).result
  {
    if !nulFree {
      return Err(InvalidUsername);
    }
    var limit := GroupLimit(sysconf);
    var capacity := FirstCapacity(limit);
    for attempt := 0 to MAX_ATTEMPTS
      invariant Attempts(lookup, gid, limit, FirstCapacity(limit), 0).result ==
        Attempts(lookup, gid, limit, capacity, attempt).result
    {
      var answer := lookup(attempt, capacity);
      match answer.status {
        case Success =>
          var count := ValidCount(answer.ngroups, capacity, limit + 1);
          if count.Err? {
            return Err(count.error);
          }
          return Normalize(Filled(answer.buffer, count.value), gid, limit);
        case BufferTooSmall =>
          var required := RequiredCapacity(answer.ngroups, capacity, limit + 1);
          if required.Err? {
            return Err(required.error);
          }
          capacity := required.value;
        case Failure =>
          return Err(LookupFailed);
      }
    }
    return Err(LookupFailed);
  }

  /** The buffer grows with every attempt, never past the limit, and there are at most eight. */
  lemma {:induction false} CapacitiesGrow(lookup: (nat, nat) -> Lookup, gid: int, limit: nat, capacity: nat,
      attempt: nat)
    requires capacity <= limit + 1 && attempt <= MAX_ATTEMPTS
    ensures var c := Attempts(lookup, gid, limit, capacity, attempt).capacities;
      && StrictlyIncreasing(c) && |c| <= MAX_ATTEMPTS - attempt
      && (c != [] ==> c[0] == capacity)
      && forall i | 0 <= i < |c| :: c[i] <= limit + 1
    decreases MAX_ATTEMPTS - attempt
  {
    if attempt < MAX_ATTEMPTS {
      var answer := lookup(attempt, capacity);
      var required := RequiredCapacity(answer.ngroups, capacity, limit + 1);
      if answer.status.BufferTooSmall? && required.Ok? {
        CapacitiesGrow(lookup, gid, limit, required.value, attempt + 1);
        var rest := Attempts(lookup, gid, limit, required.value, attempt + 1).capacities;
        forall j | 0 <= j < |rest| ensures capacity < rest[j] {
          assert rest[0] <= rest[j];
        }
      }
    }
  }

  // ---------------------------------------------------------------- dropping privileges

  datatype Credentials = Credentials(uid: int, gid: int, groups: seq<int>)

  datatype Observed = Observed(
    realUid: int, effectiveUid: int, savedUid: int, realGid: int, effectiveGid: int, savedGid: int,
    groups: seq<int>)

  datatype DropError =
    | RootUidDisallowed | InvalidSupplementaryGroups | SetGroupsFailed | SetGidFailed | SetUidFailed
    | VerificationFailed | CredentialMismatch

  datatype InspectError = InspectFailed | CountExceeded

  datatype Syscalls = Syscalls(
    setGroupsOk: bool, setGidOk: bool, setUidOk: bool, observed: Result<Observed, InspectError>)

  datatype Event = SetGroups(groups: seq<int>) | SetGid(gid: int) | SetUid(uid: int)

  /** The structural check on the target. */
  predicate WellFormed(target: Credentials) {
    Ascending(target.groups) && target.gid !in target.groups
  }

  predicate IdsMatch(target: Credentials, o: Observed) {
    && o.realUid == target.uid && o.effectiveUid == target.uid && o.savedUid == target.uid
    && o.realGid == target.gid && o.effectiveGid == target.gid && o.savedGid == target.gid
  }

  method DropPrivileges(target: Credentials, calls: Syscalls)
      returns (r: Result<Credentials, DropError>, events: seq<Event>)
    ensures r == Drop(target, calls)
    ensures events <= [SetGroups(target.groups), SetGid(target.gid), SetUid(target.uid)]
    ensures r.Ok? ==> events == [SetGroups(target.groups), SetGid(target.gid), SetUid(target.uid)]
  {
    events := [];
    if target.uid == 0 {
      return Err(RootUidDisallowed), [];
    }
    if !Ascending(target.groups) || target.gid in target.groups {
      return Err(InvalidSupplementaryGroups), [];
    }
    events := [SetGroups(target.groups)];
    if !calls.setGroupsOk {
      return Err(SetGroupsFailed), events;
    }
    events := [SetGroups(target.groups), SetGid(target.gid)];
    if !calls.setGidOk {
      return Err(SetGidFailed), events;
    }
    events := [SetGroups(target.groups), SetGid(target.gid), SetUid(target.uid)];
    if !calls.setUidOk {
      return Err(SetUidFailed), events;
    }
    if calls.observed == Err(CountExceeded) {
      return Err(CredentialMismatch), events;
    }
    if calls.observed.Err? {
      return Err(VerificationFailed), events;
    }
    var o := calls.observed.value;
    if !IdsMatch(target, o) {
      return Err(CredentialMismatch), events;
    }
    var groups := Sort(o.groups);
    groups := Dedup(groups);
    groups := Without(groups, target.gid);
    if groups != target.groups {
      return Err(CredentialMismatch), events;
    }
    return Ok(Credentials(o.realUid, o.realGid, groups)), events;
  }

  function Drop(target: Credentials, calls: Syscalls): Result<Credentials, DropError> {
    if target.uid == 0 then Err(RootUidDisallowed)
    else if !WellFormed(target) then Err(InvalidSupplementaryGroups)
    else if !calls.setGroupsOk then Err(SetGroupsFailed)
    else if !calls.setGidOk then Err(SetGidFailed)
    else if !calls.setUidOk then Err(SetUidFailed)
    else if calls.observed.Err? then
      Err(if calls.observed.error == CountExceeded then CredentialMismatch else VerificationFailed)
    else if !IdsMatch(target, calls.observed.value) then Err(CredentialMismatch)
    else if Normalized(calls.observed.value.groups, target.gid) != target.groups then Err(CredentialMismatch)
    else Ok(target)
  }

  /** Resolved groups always pass the structural check of the drop. */
  lemma {:induction false} ResolvedIsWellFormed(lookup: (nat, nat) -> Lookup, uid: int, gid: int, limit: nat,
      capacity: nat, attempt: nat)
    ensures var r := Attempts(lookup, gid, limit, capacity, attempt).result;
      r.Ok? ==> WellFormed(Credentials(uid, gid, r.value)) && |r.value| <= limit
    decreases MAX_ATTEMPTS - attempt
  {
    if attempt < MAX_ATTEMPTS {
      var answer := lookup(attempt, capacity);
      if answer.status.Success? {
        var count := ValidCount(answer.ngroups, capacity, limit + 1);
        if count.Ok? {
          var groups := Filled(answer.buffer, count.value);
          NormalizedIsUnique(groups, gid, Normalized(groups, gid));
          AscendingIsStrict(Normalized(groups, gid));
        }
      } else if answer.status.BufferTooSmall? && RequiredCapacity(answer.ngroups, capacity, limit + 1).Ok? {
        ResolvedIsWellFormed(lookup, uid, gid, limit, answer.ngroups, attempt + 1);
      }
    }
  }

  /** The drop succeeds exactly when every call does and the process holds the target's ids and group set. */
  lemma DropSucceedsExactly(target: Credentials, calls: Syscalls)
    ensures Drop(target, calls).Ok? <==>
      && target.uid != 0 && WellFormed(target) && calls.setGroupsOk && calls.setGidOk && calls.setUidOk
      && calls.observed.Ok? && IdsMatch(target, calls.observed.value)
      && forall x :: x in target.groups <==> x in calls.observed.value.groups && x != target.gid
    ensures Drop(target, calls).Ok? ==> Drop(target, calls).value == target
  {
    AscendingIsStrict(target.groups);
    if calls.observed.Ok? {
      NormalizedIsUnique(calls.observed.value.groups, target.gid, target.groups);
    }
  }

  /** Each error of a drop names the first thing that went wrong. */
  lemma DropFailsExactly(target: Credentials, calls: Syscalls)
    ensures var r, checked := Drop(target, calls), target.uid != 0 && WellFormed(target);
      var done := checked && calls.setGroupsOk && calls.setGidOk && calls.setUidOk;
      && (r == Err(RootUidDisallowed) <==> target.uid == 0)
      && (r == Err(InvalidSupplementaryGroups) <==> target.uid != 0 && !WellFormed(target))
      && (r == Err(SetGroupsFailed) <==> checked && !calls.setGroupsOk)
      && (r == Err(SetGidFailed) <==> checked && calls.setGroupsOk && !calls.setGidOk)
      && (r == Err(SetUidFailed) <==> checked && calls.setGroupsOk && calls.setGidOk && !calls.setUidOk)
      && (r == Err(VerificationFailed) <==> done && calls.observed == Err(InspectFailed))
      && (r == Err(CredentialMismatch) <==> done && calls.observed != Err(InspectFailed) && r.Err?)
  {
  }

  // ---------------------------------------------------------------- the parent's check

  /** What a child reports after a drop. */
  function Report(applied: Credentials): Observed {
    Observed(applied.uid, applied.uid, applied.uid, applied.gid, applied.gid, applied.gid, applied.groups)
  }

  predicate ParentAccepts(target: Credentials, applied: Credentials, proof: Observed) {
    applied == target && IdsMatch(target, proof) && Normalized(proof.groups, target.gid) == target.groups
  }

  /** The parent accepts the report of every drop that succeeded, and also what the child observed itself. */
  lemma ParentAcceptsWhatTheChildDid(target: Credentials, calls: Syscalls)
    requires Drop(target, calls).Ok?
    ensures var applied := Drop(target, calls).value;
      ParentAccepts(target, applied, Report(applied)) && ParentAccepts(target, applied, calls.observed.value)
  {
    AscendingIsStrict(target.groups);
    NormalizedIsUnique(target.groups, target.gid, target.groups);
  }

  // ---------------------------------------------------------------- which groups a resolution returns

  /** `g` lists, increasingly, the first `n` groups of the buffer other than the primary one. */
  ghost predicate Lists(g: seq<int>, buffer: nat -> int, n: nat, gid: int) {
    && StrictlyIncreasing(g)
    && forall x: int :: x in g <==> x != gid && exists i: nat | i < n :: buffer(i) == x
  }

  /** Some attempt, after attempts that each asked for a larger buffer within the limit, finds these groups. */
  ghost predicate Resolves(lookup: (nat, nat) -> Lookup, gid: int, limit: nat, capacity: nat, attempt: nat, g: seq<int>)
    decreases 8 - attempt
  {
    attempt < 8 &&
    var a := lookup(attempt, capacity);
    || (a.status == Success && 0 <= a.ngroups <= capacity && a.ngroups <= limit + 1 && |g| <= limit
        && Lists(g, a.buffer, a.ngroups, gid))
    || (a.status == BufferTooSmall && capacity < a.ngroups <= limit + 1
        && Resolves(lookup, gid, limit, a.ngroups, attempt + 1, g))
  }

  lemma NormalizedLists(buffer: nat -> int, n: nat, gid: int, g: seq<int>)
    ensures g == Normalized(Filled(buffer, n), gid) <==> Lists(g, buffer, n, gid)
  {
    var groups := Filled(buffer, n);
    NormalizedIsUnique(groups, gid, g);
    forall x: int ensures x in groups <==> exists i: nat | i < n :: buffer(i) == x {
      if x in groups {
        var i :| 0 <= i < |groups| && groups[i] == x;
        assert buffer(i) == x;
      }
      if exists i: nat | i < n :: buffer(i) == x {
        var i: nat :| i < n && buffer(i) == x;
        assert groups[i] == x;
      }
    }
  }

  /** A resolution returns a list if and only if it is the one these attempts find. */
  lemma {:induction false} ResolvesExactly(lookup: (nat, nat) -> Lookup, gid: int, limit: nat, capacity: nat,
      attempt: nat, g: seq<int>)
    ensures Attempts(lookup, gid, limit, capacity, attempt).result == Ok(g) <==>
      Resolves(lookup, gid, limit, capacity, attempt, g)
    decreases MAX_ATTEMPTS - attempt
  {
    hide Normalized, Lists;
    if attempt < MAX_ATTEMPTS {
      var a := lookup(attempt, capacity);
      if a.status == Success && 0 <= a.ngroups {
        NormalizedLists(a.buffer, a.ngroups, gid, g);
      }
      if a.status == BufferTooSmall && capacity < a.ngroups <= limit + 1 {
        ResolvesExactly(lookup, gid, limit, a.ngroups, attempt + 1, g);
      }
    }
  }
}
