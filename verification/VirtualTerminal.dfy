/**
 * Giving back a virtual terminal. The kernel answers and the clock are arbitrary, except that a
 * sleep of ten milliseconds takes at least that long.
 */
module VirtualTerminal {
  import opened Text

  datatype VtError =
    | QueryActive(errno: int)
    | RestorePrevious(errno: int)
    | ConfirmPrevious(errno: int)
    | Disallocate(errno: int)
    | CleanupTimedOut

  datatype Handle = Held | TerminalClosed | Released

  /** The kernel calls of a release, with their answers. */
  datatype Event = Queried(active: Result<nat, int>) | Activated(ok: bool) | Closed | Disallocated(ok: bool)

  const SLEEP := 10
  const RELEASE_WAIT := 1000

  /** What the kernel answers during one release: `active(i)` and `clock(i)` belong to the i-th poll. */
  datatype Answers = Answers(
    first: Result<nat, int>, activate: Result<(), int>, start: nat, active: nat -> Result<nat, int>,
    clock: nat -> nat, disallocate: Result<(), int>)

  /** The clock starts after `start` and every sleep between two polls takes its time. */
  ghost predicate Ticking(a: Answers) {
    a.start <= a.clock(0) && forall i: nat :: TicksAt(a, i)
  }

  predicate TicksAt(a: Answers, i: nat) {
    a.clock(i) + SLEEP <= a.clock(i + 1)
  }

  lemma {:induction false} ClockAtLeast(a: Answers, i: nat)
    requires Ticking(a)
    ensures a.start + SLEEP * i <= a.clock(i)
  {
    if i > 0 {
      ClockAtLeast(a, i - 1);
      assert TicksAt(a, i - 1);
    }
  }

  datatype Polled = Polled(result: Result<(), VtError>, events: seq<Event>)

  /** The wait from the i-th poll on. */
  ghost function Await(a: Answers, previous: nat, deadline: nat, i: nat): Polled
    requires Ticking(a)
    decreases deadline - a.clock(i)
  {
    var q := a.active(i);
    if q.Err? then Polled(Err(ConfirmPrevious(q.error)), [Queried(q)])
    else if q.value == previous then Polled(Ok(()), [Queried(q)])
    else if a.clock(i) >= deadline then Polled(Err(CleanupTimedOut), [Queried(q)])
    else
      assert TicksAt(a, i);
      var rest := Await(a, previous, deadline, i + 1);
      Polled(rest.result, [Queried(q)] + rest.events)
  }

  /** The wait polls at most once per ten milliseconds and once more. */
  lemma {:induction false} AwaitIsBounded(a: Answers, previous: nat, wait: nat, i: nat)
    requires Ticking(a) && SLEEP * i < wait + SLEEP
    ensures i + |Await(a, previous, a.start + wait, i).events| <= (wait + SLEEP - 1) / SLEEP + 1
    decreases a.start + wait - a.clock(i)
  {
    ClockAtLeast(a, i);
    if a.active(i).Ok? && a.active(i).value != previous && a.clock(i) < a.start + wait {
      assert TicksAt(a, i);
      AwaitIsBounded(a, previous, wait, i + 1);
    }
  }

  /** A release: the handle after it, its result and the kernel calls it made. */
  datatype Step = Step(handle: Handle, result: Result<(), VtError>, events: seq<Event>)

  function Freed(a: Answers, events: seq<Event>): Step {
    if a.disallocate.Ok? then Step(Released, Ok(()), events + [Disallocated(true)])
    else Step(TerminalClosed, Err(Disallocate(a.disallocate.error)), events + [Disallocated(false)])
  }

  ghost function Release(h: Handle, vtnr: nat, previous: nat, wait: nat, a: Answers): Step
    requires Ticking(a)
  {
    match h
    case Released => Step(Released, Ok(()), [])
    case TerminalClosed => Freed(a, [])
    case Held =>
      if a.first.Err? then Step(Held, Err(QueryActive(a.first.error)), [Queried(a.first)])
      else if a.first.value != vtnr then Freed(a, [Queried(a.first), Closed])
      else if a.activate.Err? then
        Step(Held, Err(RestorePrevious(a.activate.error)), [Queried(a.first), Activated(false)])
      else
        var polled := Await(a, previous, a.start + wait, 0);
        var events := [Queried(a.first), Activated(true)] + polled.events;
        if polled.result.Err? then Step(Held, polled.result, events) else Freed(a, events + [Closed])
  }

  /** A terminal the worker holds; the allocation never returns the terminal that was active. */
  class OwnedVirtualTerminal {
    const vtnr: nat
    const previous: nat
    var terminal: Handle

    constructor (vtnr: nat, previous: nat)
      ensures this.vtnr == vtnr && this.previous == previous && terminal == Held
    {
      this.vtnr, this.previous, terminal := vtnr, previous, Held;
    }

    method ConfirmPreviousActive(a: Answers, wait: nat) returns (r: Result<(), VtError>, ghost events: seq<Event>)
      requires Ticking(a)
      ensures r == Await(a, previous, a.start + wait, 0).result
      ensures events == Await(a, previous, a.start + wait, 0).events
    {
      var deadline := a.start + wait;
      var i: nat := 0;
      events := [];
      while true
        invariant var all, rest := Await(a, previous, deadline, 0), Await(a, previous, deadline, i);
          all == Polled(rest.result, events + rest.events)
        decreases deadline - a.clock(i)
      {
        var q := a.active(i);
        ghost var before := events;
        events := events + [Queried(q)];
        if q.Err? {
          return Err(ConfirmPrevious(q.error)), events;
        }
        if q.value == previous {
          return Ok(()), events;
        }
        if a.clock(i) >= deadline {
          return Err(CleanupTimedOut), events;
        }
        assert TicksAt(a, i);
        ghost var rest := Await(a, previous, deadline, i + 1).events;
        assert before + ([Queried(q)] + rest) == events + rest;
        i := i + 1;
      }
    }

    method ReleaseTerminal(a: Answers) returns (r: Result<(), VtError>, ghost events: seq<Event>)
      requires Ticking(a)
      modifies this
      ensures Step(terminal, r, events) == Release(old(terminal), vtnr, previous, RELEASE_WAIT, a)
    {
      events := [];
      if terminal == Released {
        return Ok(()), [];
      }
      if terminal == Held {
        events := [Queried(a.first)];
        if a.first.Err? {
          return Err(QueryActive(a.first.error)), events;
        }
        if a.first.value == vtnr {
          events := [Queried(a.first), Activated(a.activate.Ok?)];
          if a.activate.Err? {
            return Err(RestorePrevious(a.activate.error)), events;
          }
          ghost var polls;
          r, polls := ConfirmPreviousActive(a, RELEASE_WAIT);
          events := events + polls;
          if r.Err? {
            return;
          }
        }
        terminal := TerminalClosed;
        events := events + [Closed];
      }
      events := events + [Disallocated(a.disallocate.Ok?)];
      if a.disallocate.Err? {
        return Err(Disallocate(a.disallocate.error)), events;
      }
      terminal := Released;
      return Ok(()), events;
    }
  }

  // ---------------------------------------------------------------- the order of the kernel calls

  /** `Open(seen)` remembers the active terminal of the last query; `Broken` is a forbidden order. */
  datatype Stage = Open(seen: Option<nat>) | Shut | Gone | Broken

  /** Closing needs a query that showed another terminal, freeing needs a close, and nothing follows a success. */
  function Next(vtnr: nat, s: Stage, e: Event): Stage {
    match (s, e)
    case (Open(_), Queried(Ok(v))) => Open(Some(v))
    case (Open(_), Queried(Err(_))) => Open(None)
    case (Open(_), Activated(_)) => Open(None)
    case (Open(seen), Closed) => if seen.Some? && seen.value != vtnr then Shut else Broken
    case (Shut, Disallocated(ok)) => if ok then Gone else Shut
    case _ => Broken
  }

  function After(vtnr: nat, s: Stage, events: seq<Event>): Stage
    decreases |events|
  {
    if events == [] then s else After(vtnr, Next(vtnr, s, events[0]), events[1..])
  }

  lemma {:induction false} AfterAppend(vtnr: nat, s: Stage, e1: seq<Event>, e2: seq<Event>)
    ensures After(vtnr, s, e1 + e2) == After(vtnr, After(vtnr, s, e1), e2)
    decreases |e1|
  {
    if e1 == [] {
      assert e1 + e2 == e2;
    } else {
      assert (e1 + e2)[1..] == e1[1..] + e2;
      AfterAppend(vtnr, Next(vtnr, s, e1[0]), e1[1..], e2);
    }
  }

  /** The stage that belongs to a handle. */
  predicate Agrees(h: Handle, s: Stage) {
    match h
    case Held => s.Open?
    case TerminalClosed => s.Shut?
    case Released => s.Gone?
  }

  lemma {:induction false} AwaitLeavesOpen(vtnr: nat, previous: nat, a: Answers, deadline: nat, i: nat, s: Stage)
    requires Ticking(a) && s.Open?
    ensures var polled := Await(a, previous, deadline, i);
      After(vtnr, s, polled.events).Open? &&
          (polled.result.Ok? ==> After(vtnr, s, polled.events) == Open(Some(previous)))
    decreases deadline - a.clock(i)
  {
    var q := a.active(i);
    var next := Next(vtnr, s, Queried(q));
    assert After(vtnr, s, [Queried(q)]) == next;
    if q.Ok? && q.value != previous && a.clock(i) < deadline {
      assert TicksAt(a, i);
      AwaitLeavesOpen(vtnr, previous, a, deadline, i + 1, next);
      AfterAppend(vtnr, s, [Queried(q)], Await(a, previous, deadline, i + 1).events);
    }
  }

  lemma FreedInOrder(vtnr: nat, s: Stage, a: Answers, events: seq<Event>)
    requires After(vtnr, s, events) == Shut
    ensures Agrees(Freed(a, events).handle, After(vtnr, s, Freed(a, events).events))
  {
    AfterAppend(vtnr, s, events, [Disallocated(a.disallocate.Ok?)]);
  }

  lemma AfterTwo(vtnr: nat, s: Stage, e1: Event, e2: Event)
    ensures After(vtnr, s, [e1, e2]) == Next(vtnr, Next(vtnr, s, e1), e2)
  {
    var one := Next(vtnr, s, e1);
    assert [e1, e2][1..] == [e2];
    assert After(vtnr, one, [e2]) == Next(vtnr, one, e2);
  }

  /** One release keeps the order, and moves the handle only forward. */
  lemma ReleaseInOrder(h: Handle, vtnr: nat, previous: nat, wait: nat, a: Answers, s: Stage)
    requires Ticking(a) && vtnr != previous && Agrees(h, s)
    ensures var step := Release(h, vtnr, previous, wait, a);
      && Agrees(step.handle, After(vtnr, s, step.events))
      && (h.TerminalClosed? ==> !step.handle.Held?) && (h.Released? ==> step.handle.Released?)
      && (step.result.Ok? <==> step.handle.Released?)
  {
    if h.TerminalClosed? {
      FreedInOrder(vtnr, s, a, []);
    } else if h.Held? && a.first.Ok? && a.first.value != vtnr {
      AfterTwo(vtnr, s, Queried(a.first), Closed);
      FreedInOrder(vtnr, s, a, [Queried(a.first), Closed]);
    } else if h.Held? && a.first.Ok? && a.activate.Ok? {
      var polled := Await(a, previous, a.start + wait, 0);
      var opening := [Queried(a.first), Activated(true)];
      AfterTwo(vtnr, s, Queried(a.first), Activated(true));
      AwaitLeavesOpen(vtnr, previous, a, a.start + wait, 0, After(vtnr, s, opening));
      AfterAppend(vtnr, s, opening, polled.events);
      if polled.result.Ok? {
        AfterAppend(vtnr, s, opening + polled.events, [Closed]);
        FreedInOrder(vtnr, s, a, opening + polled.events + [Closed]);
      }
    } else if h.Held? && a.first.Ok? {
      AfterTwo(vtnr, s, Queried(a.first), Activated(false));
    }
  }

  /** A history of releases: the handle after it and every kernel call. */
  ghost function History(h: Handle, vtnr: nat, previous: nat, calls: seq<Answers>): (Handle, seq<Event>)
    requires forall i | 0 <= i < |calls| :: Ticking(calls[i])
    decreases |calls|
  {
    if calls == [] then (h, [])
    else
      var step := Release(h, vtnr, previous, RELEASE_WAIT, calls[0]);
      var (after, events) := History(step.handle, vtnr, previous, calls[1..]);
      (after, step.events + events)
  }

  /** Whatever the kernel answers, no history of releases breaks the order. */
  lemma {:induction false} HistoryInOrder(h: Handle, vtnr: nat, previous: nat, calls: seq<Answers>, s: Stage)
    requires vtnr != previous && Agrees(h, s)
    requires forall i | 0 <= i < |calls| :: Ticking(calls[i])
    ensures var (after, events) := History(h, vtnr, previous, calls);
      Agrees(after, After(vtnr, s, events))
    decreases |calls|
  {
    if calls != [] {
      var step := Release(h, vtnr, previous, RELEASE_WAIT, calls[0]);
      ReleaseInOrder(h, vtnr, previous, RELEASE_WAIT, calls[0], s);
      HistoryInOrder(step.handle, vtnr, previous, calls[1..], After(vtnr, s, step.events));
      AfterAppend(vtnr, s, step.events, History(step.handle, vtnr, previous, calls[1..]).1);
    }
  }

  // ---------------------------------------------------------------- the guard

  /** A guard asks its lease once and repeats that answer; dropping it asks as well. */
  class VirtualTerminalGuard {
    const lease: OwnedVirtualTerminal
    var releaseResult: Option<Result<(), VtError>>

    constructor (lease: OwnedVirtualTerminal)
      ensures this.lease == lease && releaseResult == None
    {
      this.lease, releaseResult := lease, None;
    }

    method ReleaseLease(a: Answers) returns (r: Result<(), VtError>, ghost events: seq<Event>)
      requires Ticking(a)
      modifies this, lease
      ensures releaseResult == Some(r)
      ensures old(releaseResult).Some? ==>
        r == old(releaseResult).value && events == [] && lease.terminal == old(lease.terminal)
      ensures old(releaseResult).None? ==>
        Step(lease.terminal, r, events) == Release(old(lease.terminal), lease.vtnr, lease.previous, RELEASE_WAIT, a)
    {
      if releaseResult.Some? {
        return releaseResult.value, [];
      }
      r, events := lease.ReleaseTerminal(a);
      releaseResult := Some(r);
    }
  }

  /** The guard's life as a value: explicit releases, then the drop. */
  ghost function GuardLife(h: Handle, cached: Option<Result<(), VtError>>, vtnr: nat, previous: nat,
      calls: seq<Answers>): (seq<Result<(), VtError>>, seq<Event>)
    requires forall i | 0 <= i < |calls| :: Ticking(calls[i])
    decreases |calls|
  {
    if calls == [] then ([], [])
    else if cached.Some? then
      var (results, events) := GuardLife(h, cached, vtnr, previous, calls[1..]);
      ([cached.value] + results, events)
    else
      var step := Release(h, vtnr, previous, RELEASE_WAIT, calls[0]);
      var (results, events) := GuardLife(step.handle, Some(step.result), vtnr, previous, calls[1..]);
      ([step.result] + results, step.events + events)
  }

  lemma {:induction false} CachedGuard(h: Handle, r: Result<(), VtError>, vtnr: nat, previous: nat, calls: seq<Answers>)
    requires forall i | 0 <= i < |calls| :: Ticking(calls[i])
    ensures var (results, events) := GuardLife(h, Some(r), vtnr, previous, calls);
      events == [] && |results| == |calls| && forall i | 0 <= i < |results| :: results[i] == r
    decreases |calls|
  {
    if calls != [] {
      CachedGuard(h, r, vtnr, previous, calls[1..]);
    }
  }

  /**
   * However often a guard is released before it is dropped, its lease is released once and every answer
   * is that one.
   */
  lemma GuardReleasesOnce(h: Handle, vtnr: nat, previous: nat, calls: seq<Answers>)
    requires calls != [] && forall i | 0 <= i < |calls| :: Ticking(calls[i])
    ensures var (results, events) := GuardLife(h, None, vtnr, previous, calls);
      var step := Release(h, vtnr, previous, RELEASE_WAIT, calls[0]);
      events == step.events && |results| == |calls| && forall i | 0 <= i < |results| :: results[i] == step.result
  {
    var step := Release(h, vtnr, previous, RELEASE_WAIT, calls[0]);
    CachedGuard(step.handle, step.result, vtnr, previous, calls[1..]);
  }

  // ---------------------------------------------------------------- when a release succeeds

  /** The j-th poll is the first from the i-th on to show the previous terminal, and no poll before it gave up. */
  ghost predicate SeenAt(a: Answers, previous: nat, deadline: nat, i: nat, j: nat) {
    && i <= j && a.active(j) == Ok(previous)
    && forall k: nat | i <= k < j :: a.active(k).Ok? && a.active(k).value != previous && a.clock(k) < deadline
  }

  ghost predicate SeenFrom(a: Answers, previous: nat, deadline: nat, i: nat) {
    exists j: nat :: SeenAt(a, previous, deadline, i, j)
  }

  /** Seen from a poll on: at that poll, or the poll gives no reason to give up and it is seen later. */
  lemma SeenFromFirst(a: Answers, previous: nat, deadline: nat, i: nat)
    ensures SeenFrom(a, previous, deadline, i) <==>
      || a.active(i) == Ok(previous)
      || (a.active(i).Ok? && a.clock(i) < deadline && SeenFrom(a, previous, deadline, i + 1))
  {
    if a.active(i) == Ok(previous) {
      assert SeenAt(a, previous, deadline, i, i);
    } else {
      if SeenFrom(a, previous, deadline, i) {
        var j: nat :| SeenAt(a, previous, deadline, i, j);
        assert j != i;
        assert SeenAt(a, previous, deadline, i + 1, j);
      }
      if a.active(i).Ok? && a.clock(i) < deadline && SeenFrom(a, previous, deadline, i + 1) {
        var next: nat := i + 1;
        var j: nat :| SeenAt(a, previous, deadline, next, j);
        assert SeenAt(a, previous, deadline, i, j);
      }
    }
  }

  lemma {:induction false} AwaitExactly(a: Answers, previous: nat, deadline: nat, i: nat)
    requires Ticking(a)
    ensures Await(a, previous, deadline, i).result.Ok? <==> SeenFrom(a, previous, deadline, i)
    decreases deadline - a.clock(i)
  {
    SeenFromFirst(a, previous, deadline, i);
    var q := a.active(i);
    if q.Ok? && q.value != previous && a.clock(i) < deadline {
      assert TicksAt(a, i);
      AwaitExactly(a, previous, deadline, i + 1);
    }
  }

  /** The terminal may be closed: another one is active, or the previous one was brought back in time. */
  ghost predicate Vacated(vtnr: nat, previous: nat, wait: nat, a: Answers) {
    a.first.Ok? && (a.first.value != vtnr || (a.activate.Ok? && SeenFrom(a, previous, a.start + wait, 0)))
  }

  /**
   * A release succeeds exactly when the terminal was released before, or can be freed and is closed
   * already or may be closed now. It is closed exactly when it was or may be, and free exactly on success.
   */
  lemma ReleaseExactly(h: Handle, vtnr: nat, previous: nat, wait: nat, a: Answers)
    requires Ticking(a)
    ensures var step := Release(h, vtnr, previous, wait, a);
      && (step.result.Ok? <==>
            h == Released || (a.disallocate.Ok? && (h == TerminalClosed || Vacated(vtnr, previous, wait, a))))
      && (step.handle == Released <==> step.result.Ok?)
      && (step.handle == Held <==> h == Held && !Vacated(vtnr, previous, wait, a))
  {
    AwaitExactly(a, previous, a.start + wait, 0);
  }
}
