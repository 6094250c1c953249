/** The login rate limiter, against the history of the calls made on it. */
module RateLimiter {
  const U32_MAX: nat := 0xFFFF_FFFF

  type U32 = x: int | 0 <= x <= U32_MAX

  datatype Policy = Policy(maxAttempts: U32, cooldown: nat)

  datatype Call = Ask(user: string, now: nat) | Fail(user: string, now: nat) | Reset(user: string)

  /** Elapsed time; an earlier `now` counts as no time at all. */
  function Since(now: nat, then_: nat): nat {
    if now < then_ then 0 else now - then_
  }

  // ---------------------------------------------------------------- what a history says

  function Failures(h: seq<Call>, user: string): nat {
    if h == [] then 0
    else
      var last := h[|h| - 1];
      Failures(h[..|h| - 1], user) + if last.Fail? && last.user == user then 1 else 0
  }

  /** The time of the user's latest failure. */
  function LastFailure(h: seq<Call>, user: string): nat {
    if h == [] then 0
    else
      var last := h[|h| - 1];
      if last.Fail? && last.user == user then last.now else LastFailure(h[..|h| - 1], user)
  }

  /** Enough failures since the last clearing, but the cooldown has passed. */
  predicate Spent(p: Policy, h: seq<Call>, user: string, now: nat)
    decreases |h|, 2
  {
    0 < p.maxAttempts <= CountSince(p, h, user) && p.cooldown <= Since(now, LastFailure(h, user))
  }

  /** A call clears a user when it resets them, or asks about them after the cooldown. */
  predicate Clears(p: Policy, h: seq<Call>, call: Call, user: string)
    decreases |h|, 3
  {
    call == Reset(user) || (call.Ask? && call.user == user && Spent(p, h, user, call.now))
  }

  /** The length of the history up to the call that cleared the user last. */
  function LastClear(p: Policy, h: seq<Call>, user: string): (k: nat)
    ensures k <= |h|
    decreases |h|, 0
  {
    if h == [] then 0
    else if Clears(p, h[..|h| - 1], h[|h| - 1], user) then |h|
    else LastClear(p, h[..|h| - 1], user)
  }

  function CountSince(p: Policy, h: seq<Call>, user: string): nat
    decreases |h|, 1
  {
    Failures(h[LastClear(p, h, user)..], user)
  }

  /** The answer the history calls for. */
  predicate Limited(p: Policy, h: seq<Call>, user: string, now: nat) {
    0 < p.maxAttempts <= CountSince(p, h, user) && Since(now, LastFailure(h, user)) < p.cooldown
  }

  /** How one more call changes what the history says. */
  lemma CountAfterCall(p: Policy, h: seq<Call>, call: Call, user: string)
    ensures CountSince(p, h + [call], user) ==
      if Clears(p, h, call, user) then 0 else CountSince(p, h, user) + if call.Fail? && call.user == user then 1 else 0
    ensures LastFailure(h + [call], user) == if call.Fail? && call.user == user then call.now else LastFailure(h, user)
  {
    var all := h + [call];
    assert all[..|all| - 1] == h;
    if !Clears(p, h, call, user) {
      var k := LastClear(p, h, user);
      assert all[k..] == h[k..] + [call];
      assert (h[k..] + [call])[..|h| - k] == h[k..];
    }
  }

  /** The calls about one user. */
  function Only(h: seq<Call>, user: string): seq<Call> {
    if h == [] then []
    else Only(h[..|h| - 1], user) + if h[|h| - 1].user == user then [h[|h| - 1]] else []
  }

  /** Other users never matter. */
  lemma {:induction false} OthersDoNotMatter(p: Policy, h: seq<Call>, user: string)
    ensures CountSince(p, h, user) == CountSince(p, Only(h, user), user) &&
      LastFailure(h, user) == LastFailure(Only(h, user), user)
  {
    if h != [] {
      var front, call := h[..|h| - 1], h[|h| - 1];
      OthersDoNotMatter(p, front, user);
      assert h == front + [call];
      CountAfterCall(p, front, call, user);
      if call.user == user {
        CountAfterCall(p, Only(front, user), call, user);
      } else {
        assert Only(h, user) == Only(front, user);
      }
    }
  }

  // ---------------------------------------------------------------- the limiter

  datatype FailureState = FailureState(attempts: U32, lastFailure: nat)

  function SaturatingAdd(x: U32): U32 {
    if x == U32_MAX then x else x + 1
  }

  /** The entry a user with this many failures has; the counter saturates. */
  predicate Describes(failures: map<string, FailureState>, user: string, count: nat, last: nat) {
    if count == 0 then user !in failures
    else user in failures && failures[user] == FailureState(if count <= U32_MAX then count else U32_MAX, last)
  }

  class LoginRateLimiter {
    const policy: Policy
    var failures: map<string, FailureState>
    ghost var history: seq<Call>

    /** The map holds what the history says, user by user. */
    ghost predicate Valid()
      reads this
    {
      if policy.maxAttempts == 0 then failures == map[]
      else forall user: string ::
        Describes(failures, user, CountSince(policy, history, user), LastFailure(history, user))
    }

    constructor (maxAttempts: U32, cooldown: nat)
      ensures Valid() && policy == Policy(maxAttempts, cooldown) && history == []
    {
      policy := Policy(maxAttempts, cooldown);
      failures := map[];
      history := [];
    }

    method IsLimited(user: string, now: nat) returns (limited: bool)
      requires Valid()
      modifies this
      ensures Valid() && history == old(history) + [Ask(user, now)]
      ensures limited <==> Limited(policy, old(history), user, now)
    {
      forall other: string {
        CountAfterCall(policy, history, Ask(user, now), other);
      }
      ghost var before := history;
      history := history + [Ask(user, now)];
      if policy.maxAttempts == 0 {
        return false;
      }
      assert forall other: string ::
        Describes(failures, other, CountSince(policy, before, other), LastFailure(before, other));
      assert Clears(policy, before, Ask(user, now), user) <==> Spent(policy, before, user, now);
      if user !in failures {
        return false;
      }
      var state := failures[user];
      if state.attempts < policy.maxAttempts {
        return false;
      }
      if Since(now, state.lastFailure) >= policy.cooldown {
        failures := failures - {user};
        return false;
      }
      return true;
    }

    method RecordFailure(user: string, now: nat)
      requires Valid()
      modifies this
      ensures Valid() && history == old(history) + [Fail(user, now)]
    {
      forall other: string {
        CountAfterCall(policy, history, Fail(user, now), other);
      }
      history := history + [Fail(user, now)];
      if policy.maxAttempts == 0 {
        return;
      }
      if user in failures {
        failures := failures[user := FailureState(SaturatingAdd(failures[user].attempts), now)];
      } else {
        failures := failures[user := FailureState(1, now)];
      }
    }

    method ResetUser(user: string)
      requires Valid()
      modifies this
      ensures Valid() && history == old(history) + [Reset(user)]
    {
      forall other: string {
        CountAfterCall(policy, history, Reset(user), other);
      }
      history := history + [Reset(user)];
      failures := failures - {user};
    }
  }

  // ---------------------------------------------------------------- the plain course

  /** Failures of one user at these times. */
  function Failing(user: string, times: seq<nat>): seq<Call> {
    if times == [] then [] else Failing(user, times[..|times| - 1]) + [Fail(user, times[|times| - 1])]
  }

  lemma {:induction false} FailingCounts(p: Policy, user: string, times: seq<nat>)
    ensures CountSince(p, Failing(user, times), user) == |times|
    ensures times != [] ==> LastFailure(Failing(user, times), user) == times[|times| - 1]
  {
    if times != [] {
      var front := times[..|times| - 1];
      FailingCounts(p, user, front);
      CountAfterCall(p, Failing(user, front), Fail(user, times[|times| - 1]), user);
    }
  }

  /**
   * A user who keeps failing is limited exactly from the configured number of failures on, until the
   * cooldown after the last one has passed; a clock that went back counts as no time at all. The question
   * asked after the cooldown clears them, and they start anew.
   */
  lemma FailuresLimitUntilCooldown(p: Policy, user: string, times: seq<nat>, now: nat)
    requires times != []
    ensures var h, last := Failing(user, times), times[|times| - 1];
      var over := p.cooldown == 0 || last + p.cooldown <= now;
      && (Limited(p, h, user, now) <==> 0 < p.maxAttempts <= |times| && !over)
      && (0 < p.maxAttempts <= |times| && over ==> CountSince(p, h + [Ask(user, now)], user) == 0)
      && CountSince(p, h + [Reset(user)], user) == 0
  {
    hide CountSince, LastFailure, Failing;
    FailingCounts(p, user, times);
    CountAfterCall(p, Failing(user, times), Ask(user, now), user);
    CountAfterCall(p, Failing(user, times), Reset(user), user);
  }
}
