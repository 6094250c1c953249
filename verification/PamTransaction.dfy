/**
 * A PAM transaction: authentication, the session opened in it, and the clean-up on every way out.
 * libpam's return codes are arbitrary; its calls are logged in order.
 */
module PamTransaction {
  import opened Text

  /** The libpam calls after a handle exists. `Touched` is any call whose place does not matter. */
  datatype Event =
    | Touched
    | CredentialsEstablished
    | CredentialsDeleted
    | OpenDispatched
    | CloseDispatched(ok: bool)
    | HandleEnded

  datatype Transaction = Transaction(credentials: bool, sessionOpen: bool, ended: bool)

  datatype SessionError = OpenFailed | CloseFailed

  /** A step: the transaction after it, whether it succeeded and the calls it made. */
  datatype Step = Step(after: Transaction, result: Result<(), SessionError>, events: seq<Event>)

  /** One environment entry: whether it has no NUL byte and whether libpam takes it. */
  datatype Entry = Entry(nulFree: bool, putOk: bool)

  datatype OpenAnswers = OpenAnswers(
    tty: Option<Entry>, entries: seq<Entry>, establishOk: bool, openOk: bool, reinitialiseOk: bool,
    closeOk: bool)

  /** The clean-up, once: close what may be open, delete what was established, end the handle. */
  function Cleanup(t: Transaction, closeOk: bool): (Transaction, seq<Event>) {
    if t.ended then (t, [])
    else
      var closed := if t.sessionOpen then [CloseDispatched(closeOk)] else [];
      var deleted := if t.credentials then [CredentialsDeleted] else [];
      (Transaction(false, false, true), closed + deleted + [HandleEnded])
  }

  /** The calls that hand libpam the environment; the first refusal ends them. */
  function PutEntries(entries: seq<Entry>): (bool, seq<Event>) {
    if entries == [] then (true, [])
    else if !entries[0].nulFree then (false, [])
    else if !entries[0].putOk then (false, [Touched])
    else
      var (ok, events) := PutEntries(entries[1..]);
      (ok, [Touched] + events)
  }

  /** The terminal and the environment, before anything is dispatched. */
  function Prologue(a: OpenAnswers): (bool, seq<Event>) {
    if a.tty.Some? && !a.tty.value.nulFree then (false, [])
    else if a.tty.Some? && !a.tty.value.putOk then (false, [Touched])
    else
      var (ok, events) := PutEntries(a.entries);
      (ok, (if a.tty.Some? then [Touched] else []) + events)
  }

  function Dispatch(t: Transaction, a: OpenAnswers): Step {
    if !a.establishOk then Step(t, Err(OpenFailed), [Touched])
    else
      var marked := Transaction(true, true, t.ended);
      var (cleaned, rollback) := Cleanup(marked, a.closeOk);
      if !a.openOk then Step(cleaned, Err(OpenFailed), [CredentialsEstablished, OpenDispatched] + rollback)
      else if !a.reinitialiseOk then
        Step(cleaned, Err(OpenFailed), [CredentialsEstablished, OpenDispatched, Touched] + rollback)
      else Step(marked, Ok(()), [CredentialsEstablished, OpenDispatched, Touched])
  }

  function Open(t: Transaction, a: OpenAnswers): Step {
    var (ready, events) := Prologue(a);
    if !ready then Step(t, Err(OpenFailed), events)
    else
      var step := Dispatch(t, a);
      step.(events := events + step.events)
  }

  function Close(t: Transaction, closeOk: bool): Step {
    if !t.sessionOpen then Step(t, Ok(()), [])
    else if !closeOk then Step(t, Err(CloseFailed), [CloseDispatched(false)])
    else Step(t.(sessionOpen := false), Ok(()), [CloseDispatched(true)])
  }

  class NativePamTransaction {
    var credentialsEstablished: bool
    var sessionOpen: bool
    var ended: bool

    function Value(): Transaction
      reads this
    {
      Transaction(credentialsEstablished, sessionOpen, ended)
    }

    constructor ()
      ensures Value() == Transaction(false, false, false)
    {
      credentialsEstablished, sessionOpen, ended := false, false, false;
    }

    method CleanUp(closeOk: bool) returns (ghost events: seq<Event>)
      modifies this
      ensures Value() == Cleanup(old(Value()), closeOk).0 && events == Cleanup(old(Value()), closeOk).1
    {
      events := [];
      if ended {
        return;
      }
      if sessionOpen {
        events := events + [CloseDispatched(closeOk)];
        sessionOpen := false;
      }
      if credentialsEstablished {
        events := events + [CredentialsDeleted];
        credentialsEstablished := false;
      }
      events := events + [HandleEnded];
      ended := true;
    }

    method PutEnvironment(entries: seq<Entry>) returns (ok: bool, ghost events: seq<Event>)
      ensures ok == PutEntries(entries).0 && events == PutEntries(entries).1
    {
      events := [];
      var i := 0;
      while i < |entries|
        invariant 0 <= i <= |entries|
        invariant var all, rest := PutEntries(entries), PutEntries(entries[i..]);
          all.0 == rest.0 && all.1 == events + rest.1
      {
        if !entries[i].nulFree {
          return false, events;
        }
        ghost var before, rest := events, PutEntries(entries[i..][1..]).1;
        events := events + [Touched];
        if !entries[i].putOk {
          return false, events;
        }
        assert before + ([Touched] + rest) == events + rest;
        assert entries[i..][1..] == entries[i + 1..];
        i := i + 1;
      }
      return true, events;
    }

    method OpenSession(a: OpenAnswers) returns (r: Result<(), SessionError>, ghost events: seq<Event>)
      modifies this
      ensures Step(Value(), r, events) == Open(old(Value()), a)
    {
      events := [];
      if a.tty.Some? {
        if !a.tty.value.nulFree {
          return Err(OpenFailed), [];
        }
        events := [Touched];
        if !a.tty.value.putOk {
          return Err(OpenFailed), events;
        }
      }
      var ok;
      ghost var more;
      ok, more := PutEnvironment(a.entries);
      events := events + more;
      if !ok {
        return Err(OpenFailed), events;
      }
      r, more := Establish(a);
      events := events + more;
    }

    method Establish(a: OpenAnswers) returns (r: Result<(), SessionError>, ghost events: seq<Event>)
      modifies this
      ensures Step(Value(), r, events) == Dispatch(old(Value()), a)
    {
      events := [Touched];
      if !a.establishOk {
        return Err(OpenFailed), events;
      }
      credentialsEstablished := true;
      sessionOpen := true;
      events := [CredentialsEstablished, OpenDispatched];
      ghost var rollback;
      if !a.openOk {
        rollback := CleanUp(a.closeOk);
        return Err(OpenFailed), events + rollback;
      }
      events := [CredentialsEstablished, OpenDispatched, Touched];
      if !a.reinitialiseOk {
        rollback := CleanUp(a.closeOk);
        return Err(OpenFailed), events + rollback;
      }
      return Ok(()), events;
    }

    method CloseSession(closeOk: bool) returns (r: Result<(), SessionError>, ghost events: seq<Event>)
      modifies this
      ensures Step(Value(), r, events) == Close(old(Value()), closeOk)
    {
      if !sessionOpen {
        return Ok(()), [];
      }
      if !closeOk {
        return Err(CloseFailed), [CloseDispatched(false)];
      }
      sessionOpen := false;
      return Ok(()), [CloseDispatched(true)];
    }
  }

  // ---------------------------------------------------------------- the order of the libpam calls

  /** `owed`: an open was dispatched and no close since. `closed`: a close succeeded since the open. */
  datatype Stage = Alive(credentials: bool, owed: bool, closed: bool) | Finished | Broken

  /**
   * The handle ends only with nothing owed and no credentials left; no close follows a successful one
   * without an open between them; nothing follows the end.
   */
  function Next(s: Stage, e: Event): Stage {
    if !s.Alive? then Broken
    else
      match e
      case Touched => s
      case CredentialsEstablished => s.(credentials := true)
      case CredentialsDeleted => s.(credentials := false)
      case OpenDispatched => s.(owed := true, closed := false)
      case CloseDispatched(ok) => if s.closed then Broken else s.(owed := false, closed := ok)
      case HandleEnded => if s.owed || s.credentials then Broken else Finished
  }

  function After(s: Stage, events: seq<Event>): Stage
    decreases |events|
  {
    if events == [] then s else After(Next(s, events[0]), events[1..])
  }

  lemma {:induction false} AfterAppend(s: Stage, e1: seq<Event>, e2: seq<Event>)
    ensures After(s, e1 + e2) == After(After(s, e1), e2)
    decreases |e1|
  {
    if e1 == [] {
      assert e1 + e2 == e2;
    } else {
      assert (e1 + e2)[1..] == e1[1..] + e2;
      AfterAppend(Next(s, e1[0]), e1[1..], e2);
    }
  }

  lemma AfterOne(s: Stage, e: Event)
    ensures After(s, [e]) == Next(s, e)
  {
    assert [e][1..] == [];
  }

  /** What the flags say about the calls so far. */
  predicate Agrees(t: Transaction, s: Stage) {
    if t.ended then s == Finished && !t.sessionOpen && !t.credentials
    else s.Alive? && s.credentials == t.credentials && (s.owed ==> t.sessionOpen) && (t.sessionOpen ==> !s.closed)
  }

  lemma CleanupInOrder(t: Transaction, s: Stage, closeOk: bool)
    requires Agrees(t, s)
    ensures var (after, events) := Cleanup(t, closeOk);
      after.ended && After(s, events) == Finished && Agrees(after, Finished)
  {
    if !t.ended {
      var closed := if t.sessionOpen then [CloseDispatched(closeOk)] else [];
      var deleted := if t.credentials then [CredentialsDeleted] else [];
      AfterOne(s, CloseDispatched(closeOk));
      var s1 := After(s, closed);
      AfterOne(s1, CredentialsDeleted);
      var s2 := After(s1, deleted);
      AfterOne(s2, HandleEnded);
      AfterAppend(s, closed, deleted);
      AfterAppend(s, closed + deleted, [HandleEnded]);
    }
  }

  lemma {:induction false} TouchedOnly(s: Stage, events: seq<Event>)
    requires s.Alive? && forall i | 0 <= i < |events| :: events[i] == Touched
    ensures After(s, events) == s
    decreases |events|
  {
    if events != [] {
      TouchedOnly(s, events[1..]);
    }
  }

  lemma {:induction false} PrologueOnlyTouches(a: OpenAnswers)
    ensures forall i | 0 <= i < |Prologue(a).1| :: Prologue(a).1[i] == Touched
  {
    EntriesOnlyTouch(a.entries);
  }

  lemma {:induction false} EntriesOnlyTouch(entries: seq<Entry>)
    ensures forall i | 0 <= i < |PutEntries(entries).1| :: PutEntries(entries).1[i] == Touched
  {
    if entries != [] {
      EntriesOnlyTouch(entries[1..]);
    }
  }

  lemma DispatchInOrder(t: Transaction, s: Stage, a: OpenAnswers)
    requires Agrees(t, s) && !t.ended
    ensures var step := Dispatch(t, a); Agrees(step.after, After(s, step.events))
  {
    AfterOne(s, Touched);
    if a.establishOk {
      var begun := Alive(true, true, false);
      assert [CredentialsEstablished, OpenDispatched][1..] == [OpenDispatched];
      AfterOne(Next(s, CredentialsEstablished), OpenDispatched);
      assert After(s, [CredentialsEstablished, OpenDispatched]) == begun;
      AfterAppend(s, [CredentialsEstablished, OpenDispatched], [Touched]);
      AfterOne(begun, Touched);
      assert [CredentialsEstablished, OpenDispatched] + [Touched] == [CredentialsEstablished, OpenDispatched, Touched];
      var marked := Transaction(true, true, t.ended);
      CleanupInOrder(marked, begun, a.closeOk);
      var rollback := Cleanup(marked, a.closeOk).1;
      AfterAppend(s, [CredentialsEstablished, OpenDispatched], rollback);
      AfterAppend(s, [CredentialsEstablished, OpenDispatched, Touched], rollback);
    }
  }

  lemma OpenInOrder(t: Transaction, s: Stage, a: OpenAnswers)
    requires Agrees(t, s) && !t.ended
    ensures var step := Open(t, a); Agrees(step.after, After(s, step.events))
  {
    PrologueOnlyTouches(a);
    TouchedOnly(s, Prologue(a).1);
    DispatchInOrder(t, s, a);
    AfterAppend(s, Prologue(a).1, Dispatch(t, a).events);
  }

  lemma CloseInOrder(t: Transaction, s: Stage, closeOk: bool)
    requires Agrees(t, s)
    ensures var step := Close(t, closeOk); Agrees(step.after, After(s, step.events))
  {
    AfterOne(s, CloseDispatched(closeOk));
  }

  lemma {:induction false} StuckUnlessEmpty(s: Stage, events: seq<Event>)
    requires !s.Alive? && events != []
    ensures After(s, events) == Broken
    decreases |events|
  {
    if |events| > 1 {
      StuckUnlessEmpty(Broken, events[1..]);
    }
  }

  lemma BrokenForGood(events: seq<Event>)
    ensures After(Broken, events) == Broken
  {
    if events != [] {
      StuckUnlessEmpty(Broken, events);
    }
  }

  // ---------------------------------------------------------------- whole lives

  datatype Call = CallOpen(answers: OpenAnswers) | CallClose(closeOk: bool)

  function Apply(t: Transaction, call: Call): Step {
    match call
    case CallOpen(a) => Open(t, a)
    case CallClose(ok) => Close(t, ok)
  }

  /** The calls made on a transaction, then its drop. */
  function Life(t: Transaction, calls: seq<Call>, dropCloseOk: bool): seq<Event>
    decreases |calls|
  {
    if calls == [] then Cleanup(t, dropCloseOk).1
    else
      var step := Apply(t, calls[0]);
      step.events + Life(step.after, calls[1..], dropCloseOk)
  }

  /** An open that reaches libpam at all: it has no NUL byte in front of its first call. */
  predicate Touches(call: Call) {
    call.CallOpen? && (Prologue(call.answers).0 || Prologue(call.answers).1 != [])
  }

  /** An open that was dispatched and did not succeed, so that it cleaned up and ended the handle. */
  predicate RolledBack(call: Call) {
    call.CallOpen? && Prologue(call.answers).0 && call.answers.establishOk &&
        !(call.answers.openOk && call.answers.reinitialiseOk)
  }

  /** Some open reaches libpam after one that was rolled back. */
  predicate OpensAfterRollback(calls: seq<Call>) {
    exists i, j | 0 <= i < j < |calls| :: RolledBack(calls[i]) && Touches(calls[j])
  }

  predicate Reaches(calls: seq<Call>) {
    exists j | 0 <= j < |calls| :: Touches(calls[j])
  }

  lemma SplitRollback(calls: seq<Call>)
    requires calls != []
    ensures OpensAfterRollback(calls) <==>
      (RolledBack(calls[0]) && Reaches(calls[1..])) || OpensAfterRollback(calls[1..])
  {
    var rest := calls[1..];
    if RolledBack(calls[0]) && Reaches(rest) {
      var j :| 0 <= j < |rest| && Touches(rest[j]);
      assert RolledBack(calls[0]) && Touches(calls[j + 1]);
    }
    if OpensAfterRollback(rest) {
      var i, j :| 0 <= i < j < |rest| && RolledBack(rest[i]) && Touches(rest[j]);
      assert RolledBack(calls[i + 1]) && Touches(calls[j + 1]);
    }
    if OpensAfterRollback(calls) {
      var i, j :| 0 <= i < j < |calls| && RolledBack(calls[i]) && Touches(calls[j]);
      assert Touches(rest[j - 1]);
      assert i > 0 ==> RolledBack(rest[i - 1]);
    }
  }

  lemma SplitReaches(calls: seq<Call>)
    requires calls != []
    ensures Reaches(calls) <==> Touches(calls[0]) || Reaches(calls[1..])
  {
    var rest := calls[1..];
    if Reaches(rest) {
      var j :| 0 <= j < |rest| && Touches(rest[j]);
      assert Touches(calls[j + 1]);
    }
    if Reaches(calls) {
      var j :| 0 <= j < |calls| && Touches(calls[j]);
      assert j > 0 ==> Touches(rest[j - 1]);
    }
  }

  lemma TouchesMeansCalls(t: Transaction, call: Call)
    requires call.CallOpen?
    ensures Touches(call) <==> Apply(t, call).events != []
    ensures !t.ended ==> (RolledBack(call) <==> Apply(t, call).after.ended)
    ensures !Touches(call) ==> Apply(t, call).after == t
  {
  }

  /** After the end of the handle, a life stays in order exactly when no open reaches libpam again. */
  lemma {:induction false} EndedLife(t: Transaction, calls: seq<Call>, dropCloseOk: bool)
    requires t.ended && !t.sessionOpen
    ensures After(Finished, Life(t, calls, dropCloseOk)) == Finished <==> !Reaches(calls)
    decreases |calls|
  {
    if calls != [] {
      var step := Apply(t, calls[0]);
      SplitReaches(calls);
      AfterAppend(Finished, step.events, Life(step.after, calls[1..], dropCloseOk));
      if Touches(calls[0]) {
        TouchesMeansCalls(t, calls[0]);
        StuckUnlessEmpty(Finished, step.events);
        BrokenForGood(Life(step.after, calls[1..], dropCloseOk));
      } else {
        if calls[0].CallOpen? {
          TouchesMeansCalls(t, calls[0]);
        }
        EndedLife(t, calls[1..], dropCloseOk);
      }
    }
  }

  lemma {:induction false} LifeInOrder(t: Transaction, s: Stage, calls: seq<Call>, dropCloseOk: bool)
    requires Agrees(t, s) && !t.ended
    ensures After(s, Life(t, calls, dropCloseOk)) == Finished <==> !OpensAfterRollback(calls)
    decreases |calls|
  {
    if calls == [] {
      CleanupInOrder(t, s, dropCloseOk);
    } else {
      var step := Apply(t, calls[0]);
      SplitRollback(calls);
      StepInOrder(t, s, calls[0]);
      AfterAppend(s, step.events, Life(step.after, calls[1..], dropCloseOk));
      if step.after.ended {
        EndedLife(step.after, calls[1..], dropCloseOk);
        RollbackNeedsReach(calls[1..]);
      } else {
        LifeInOrder(step.after, After(s, step.events), calls[1..], dropCloseOk);
      }
    }
  }

  lemma StepInOrder(t: Transaction, s: Stage, call: Call)
    requires Agrees(t, s) && !t.ended
    ensures var step := Apply(t, call);
      Agrees(step.after, After(s, step.events)) && (step.after.ended <==> RolledBack(call))
  {
    match call
    case CallOpen(a) =>
      OpenInOrder(t, s, a);
      TouchesMeansCalls(t, call);
    case CallClose(ok) =>
      CloseInOrder(t, s, ok);
  }

  lemma RollbackNeedsReach(calls: seq<Call>)
    ensures OpensAfterRollback(calls) ==> Reaches(calls)
  {
  }

  datatype AuthAnswers = AuthAnswers(authenticateOk: bool, accountOk: bool, userOk: bool)

  predicate Admitted(a: AuthAnswers) {
    a.authenticateOk && a.accountOk && a.userOk
  }

  /** From a started handle to the drop: a refused authentication cleans up on its way out. */
  function WholeLife(auth: AuthAnswers, calls: seq<Call>, dropCloseOk: bool): seq<Event> {
    var started := Transaction(false, false, false);
    if !auth.authenticateOk then [Touched] + Cleanup(started, true).1
    else if !auth.accountOk then [Touched, Touched] + Cleanup(started, true).1
    else if !auth.userOk then [Touched, Touched, Touched] + Cleanup(started, true).1
    else [Touched, Touched, Touched] + Life(started, calls, dropCloseOk)
  }

  /** Every libpam call of a life comes in order, and the life ends its handle. */
  predicate InOrder(events: seq<Event>) {
    After(Alive(false, false, false), events) == Finished
  }

  /**
   * Over any number of opens and closes: a life is in order exactly when no open reaches libpam
   * after one that was rolled back. In order means that the handle ends exactly once, as the last
   * call; a dispatched open is followed by a close dispatch before it, established credentials are
   * deleted before it, and no close follows a successful one without an open between them.
   */
  lemma EveryLifeInOrder(auth: AuthAnswers, calls: seq<Call>, dropCloseOk: bool)
    ensures InOrder(WholeLife(auth, calls, dropCloseOk)) <==> !(Admitted(auth) && OpensAfterRollback(calls))
  {
    var started, start := Transaction(false, false, false), Alive(false, false, false);
    CleanupInOrder(started, start, true);
    LifeInOrder(started, start, calls, dropCloseOk);
    var rest := if Admitted(auth) then Life(started, calls, dropCloseOk) else Cleanup(started, true).1;
    var before := if !auth.authenticateOk then [Touched] else if !auth.accountOk then [Touched, Touched]
      else [Touched, Touched, Touched];
    TouchedOnly(start, before);
    AfterAppend(start, before, rest);
  }

  predicate AtMostOneOpen(calls: seq<Call>) {
    forall i, j | 0 <= i < j < |calls| :: !(calls[i].CallOpen? && calls[j].CallOpen?)
  }

  /** The worker opens one session per transaction, and every such life is in order. */
  lemma OneOpenInOrder(auth: AuthAnswers, calls: seq<Call>, dropCloseOk: bool)
    requires AtMostOneOpen(calls)
    ensures InOrder(WholeLife(auth, calls, dropCloseOk))
  {
    EveryLifeInOrder(auth, calls, dropCloseOk);
  }

  /** The failing input: an open that libpam refuses, then another one. */
  lemma SecondOpenAfterRollback()
    ensures var refused := OpenAnswers(None, [], true, false, true, true);
      !InOrder(WholeLife(AuthAnswers(true, true, true), [CallOpen(refused), CallOpen(refused)], true))
  {
    var refused := CallOpen(OpenAnswers(None, [], true, false, true, true));
    var calls := [refused, refused];
    assert RolledBack(calls[0]) && Touches(calls[1]);
    EveryLifeInOrder(AuthAnswers(true, true, true), calls, true);
  }

  /** What being in order means for the end: exactly one, and it is last. */
  lemma {:induction false} FinishedEndsOnce(s: Stage, events: seq<Event>)
    requires s.Alive? && After(s, events) == Finished
    ensures events != [] && events[|events| - 1] == HandleEnded && forall i | 0 <= i < |events| - 1 ::
      events[i] != HandleEnded
    decreases |events|
  {
    if events != [] {
      var next := Next(s, events[0]);
      if next.Alive? {
        FinishedEndsOnce(next, events[1..]);
      } else if |events| > 1 {
        StuckUnlessEmpty(next, events[1..]);
      }
    }
  }

  // ---------------------------------------------------------------- how many closes answer how many opens

  function Opens(events: seq<Event>): nat {
    if events == [] then 0 else (if events[0] == OpenDispatched then 1 else 0) + Opens(events[1..])
  }

  /** Opens dispatched while an earlier one still waits for its close. */
  function Overlapping(s: Stage, events: seq<Event>): nat
    decreases |events|
  {
    if events == [] then 0
    else
      (if s.Alive? && s.owed && events[0] == OpenDispatched then 1 else 0)
      + Overlapping(Next(s, events[0]), events[1..])
  }

  /** Closes dispatched while an open waits for one. */
  function Answering(s: Stage, events: seq<Event>): nat
    decreases |events|
  {
    if events == [] then 0
    else
      (if s.Alive? && s.owed && events[0].CloseDispatched? then 1 else 0)
      + Answering(Next(s, events[0]), events[1..])
  }

  /**
   * In a life in order every open is answered by a close of its own, except those that overlap an
   * earlier one and share its close.
   */
  lemma {:induction false} ClosesAnswerOpens(s: Stage, events: seq<Event>)
    requires After(s, events) == Finished
    ensures Opens(events) + (if s.Alive? && s.owed then 1 else 0) == Answering(s, events) + Overlapping(s, events)
    decreases |events|
  {
    if events != [] {
      BrokenForGood(events[1..]);
      ClosesAnswerOpens(Next(s, events[0]), events[1..]);
    }
  }

  /** Two opens that both succeed, one close and the drop: the calls, and the one close for two opens. */
  lemma TwoOpensShareAClose()
    ensures var fine := CallOpen(OpenAnswers(None, [], true, true, true, true));
      var events := WholeLife(AuthAnswers(true, true, true), [fine, fine, CallClose(true)], true);
      && InOrder(events) && Opens(events) == 2
      && Overlapping(Alive(false, false, false), events) == Answering(Alive(false, false, false), events) == 1
  {
    var fine := CallOpen(OpenAnswers(None, [], true, true, true, true));
    EveryLifeInOrder(AuthAnswers(true, true, true), [fine, fine, CallClose(true)], true);
    SharedLife();
    SharedClose();
  }

  function Opened(rest: seq<Event>): seq<Event> {
    [CredentialsEstablished, OpenDispatched, Touched] + rest
  }

  const CLOSING := [CloseDispatched(true), CredentialsDeleted, HandleEnded]

  lemma SharedLife()
    ensures var fine := CallOpen(OpenAnswers(None, [], true, true, true, true));
      WholeLife(AuthAnswers(true, true, true), [fine, fine, CallClose(true)], true)
        == [Touched, Touched, Touched] + Opened(Opened(CLOSING))
  {
    var fine := CallOpen(OpenAnswers(None, [], true, true, true, true));
    var none, one := Transaction(false, false, false), Transaction(true, true, false);
    var shut := Transaction(true, false, false);
    var closing := [CallClose(true)];
    assert Life(shut, [], true) == [CredentialsDeleted, HandleEnded];
    assert closing[1..] == [] && Life(one, closing, true) == [CloseDispatched(true)] + Life(shut, [], true);
    assert Life(one, closing, true) == CLOSING;
    OpenSucceeds(none, [fine] + closing);
    OpenSucceeds(one, closing);
    assert [fine, fine, CallClose(true)] == [fine] + ([fine] + closing);
  }

  lemma OpenSucceeds(t: Transaction, rest: seq<Call>)
    requires !t.ended
    ensures var fine := CallOpen(OpenAnswers(None, [], true, true, true, true));
      Life(t, [fine] + rest, true) == Opened(Life(Transaction(true, true, false), rest, true))
  {
    var a := OpenAnswers(None, [], true, true, true, true);
    assert ([CallOpen(a)] + rest)[1..] == rest;
    assert Prologue(a).1 == [];
    assert Open(t, a).events == [CredentialsEstablished, OpenDispatched, Touched];
  }

  /** The three counts of a log, one event at a time. */
  lemma CountFirst(s: Stage, e: Event, rest: seq<Event>)
    ensures Opens([e] + rest) == (if e == OpenDispatched then 1 else 0) + Opens(rest)
    ensures Overlapping(s, [e] + rest)
      == (if s.Alive? && s.owed && e == OpenDispatched then 1 else 0) + Overlapping(Next(s, e), rest)
    ensures Answering(s, [e] + rest)
      == (if s.Alive? && s.owed && e.CloseDispatched? then 1 else 0) + Answering(Next(s, e), rest)
  {
    assert ([e] + rest)[1..] == rest;
  }

  lemma CountOpened(s: Stage, rest: seq<Event>)
    requires s.Alive?
    ensures var held := Alive(true, true, false);
      && Opens(Opened(rest)) == 1 + Opens(rest)
      && Overlapping(s, Opened(rest)) == (if s.owed then 1 else 0) + Overlapping(held, rest)
      && Answering(s, Opened(rest)) == Answering(held, rest)
  {
    var held := Alive(true, true, false);
    assert Opened(rest) == [CredentialsEstablished] + ([OpenDispatched] + ([Touched] + rest));
    CountFirst(s, CredentialsEstablished, [OpenDispatched] + ([Touched] + rest));
    CountFirst(Next(s, CredentialsEstablished), OpenDispatched, [Touched] + rest);
    CountFirst(held, Touched, rest);
  }

  lemma SharedClose()
    ensures var start, events := Alive(false, false, false), [Touched, Touched, Touched] + Opened(Opened(CLOSING));
      Opens(events) == 2 && Overlapping(start, events) == Answering(start, events) == 1
  {
    var start, held, rest := Alive(false, false, false), Alive(true, true, false), Opened(Opened(CLOSING));
    assert [Touched, Touched, Touched] + rest == [Touched] + ([Touched] + ([Touched] + rest));
    CountFirst(start, Touched, [Touched] + ([Touched] + rest));
    CountFirst(start, Touched, [Touched] + rest);
    CountFirst(start, Touched, rest);
    CountOpened(start, Opened(CLOSING));
    CountOpened(held, CLOSING);
    CountClosing();
  }

  lemma CountClosing()
    ensures Opens(CLOSING) == 0 && Overlapping(Alive(true, true, false), CLOSING) == 0
    ensures Answering(Alive(true, true, false), CLOSING) == 1
  {
    var held := Alive(true, true, false);
    assert CLOSING == [CloseDispatched(true)] + ([CredentialsDeleted] + ([HandleEnded] + []));
    CountFirst(held, CloseDispatched(true), [CredentialsDeleted] + ([HandleEnded] + []));
    CountFirst(Next(held, CloseDispatched(true)), CredentialsDeleted, [HandleEnded] + []);
    CountFirst(Next(Next(held, CloseDispatched(true)), CredentialsDeleted), HandleEnded, []);
  }

  // ---------------------------------------------------------------- what opens and closes answer

  /** A string libpam can be handed, and takes. */
  predicate Taken(e: Entry) {
    e.nulFree && e.putOk
  }

  /** Everything a session open needs. */
  predicate OpensFine(a: OpenAnswers) {
    && (a.tty.Some? ==> Taken(a.tty.value)) && (forall i | 0 <= i < |a.entries| :: Taken(a.entries[i]))
    && a.establishOk && a.openOk && a.reinitialiseOk
  }

  lemma {:induction false} EntriesTaken(entries: seq<Entry>)
    ensures PutEntries(entries).0 <==> forall i | 0 <= i < |entries| :: Taken(entries[i])
  {
    if entries != [] {
      EntriesTaken(entries[1..]);
      if forall i | 0 <= i < |entries| :: Taken(entries[i]) {
        assert forall i | 0 <= i < |entries| - 1 :: entries[1..][i] == entries[i + 1];
      }
      if PutEntries(entries).0 {
        forall i | 0 <= i < |entries| ensures Taken(entries[i]) {
          assert i > 0 ==> entries[i] == entries[1..][i - 1];
        }
      }
    }
  }

  /**
   * An open succeeds if and only if libpam takes the terminal and every entry and agrees to establish
   * the credentials, open the session and reinitialise them. Success leaves an open session with
   * credentials and a live handle. A failure after the session was dispatched leaves an ended handle,
   * and an earlier failure changes nothing.
   */
  lemma OpenAnswersExactly(t: Transaction, a: OpenAnswers)
    ensures var step := Open(t, a);
      && (step.result == Ok(()) <==> OpensFine(a))
      && (step.result != Ok(()) ==> step.result == Err(OpenFailed))
      && (OpensFine(a) ==> step.after == Transaction(true, true, t.ended) && OpenDispatched in step.events)
      && (!OpensFine(a) && OpenDispatched !in step.events ==> step.after == t)
      && (!OpensFine(a) && OpenDispatched in step.events && !t.ended ==>
            step.after == Transaction(false, false, true) && step.events[|step.events| - 1] == HandleEnded)
  {
    EntriesTaken(a.entries);
    PrologueOnlyTouches(a);
    var events := Prologue(a).1;
    assert Prologue(a).0 <==>
      (a.tty.Some? ==> Taken(a.tty.value)) && forall i | 0 <= i < |a.entries| :: Taken(a.entries[i]);
    if Prologue(a).0 && a.establishOk {
      assert Open(t, a).events == events + Dispatch(t, a).events;
      assert Dispatch(t, a).events[1] == OpenDispatched;
      assert Open(t, a).events[|events| + 1] == OpenDispatched;
    }
  }

  predicate OpenAfter(open: bool, e: Event) {
    e == OpenDispatched || (open && e != CloseDispatched(true) && e != HandleEnded)
  }

  /** Whether the log leaves a session open: opened, and neither closed by libpam nor ended since. */
  predicate LeftOpen(open: bool, events: seq<Event>)
    decreases |events|
  {
    if events == [] then open else LeftOpen(OpenAfter(open, events[0]), events[1..])
  }

  lemma {:induction false} LeftOpenAppend(open: bool, e1: seq<Event>, e2: seq<Event>)
    ensures LeftOpen(open, e1 + e2) == LeftOpen(LeftOpen(open, e1), e2)
    decreases |e1|
  {
    if e1 == [] {
      assert e1 + e2 == e2;
    } else {
      assert (e1 + e2)[1..] == e1[1..] + e2;
      LeftOpenAppend(OpenAfter(open, e1[0]), e1[1..], e2);
    }
  }

  lemma {:induction false} LeftOpenTouched(open: bool, events: seq<Event>)
    requires forall i | 0 <= i < |events| :: events[i] == Touched
    ensures LeftOpen(open, events) == open
    decreases |events|
  {
    if events != [] {
      LeftOpenTouched(open, events[1..]);
    }
  }

  lemma LeftOpenOne(open: bool, e: Event)
    ensures LeftOpen(open, [e]) == OpenAfter(open, e)
  {
    assert [e][1..] == [];
  }

  lemma CleanupKeepsLeftOpen(t: Transaction, closeOk: bool)
    ensures Cleanup(t, closeOk).0.sessionOpen == LeftOpen(t.sessionOpen, Cleanup(t, closeOk).1)
  {
    if !t.ended {
      var events := Cleanup(t, closeOk).1;
      var front := events[..|events| - 1];
      assert events == front + [HandleEnded];
      LeftOpenAppend(t.sessionOpen, front, [HandleEnded]);
      LeftOpenOne(LeftOpen(t.sessionOpen, front), HandleEnded);
    }
  }

  /** The flag and the log agree, call by call, on a live or an ended handle. */
  lemma CallKeepsLeftOpen(t: Transaction, call: Call)
    ensures Apply(t, call).after.sessionOpen == LeftOpen(t.sessionOpen, Apply(t, call).events)
  {
    match call
    case CallClose(ok) =>
      LeftOpenOne(t.sessionOpen, CloseDispatched(ok));
    case CallOpen(a) =>
      PrologueOnlyTouches(a);
      LeftOpenTouched(t.sessionOpen, Prologue(a).1);
      LeftOpenAppend(t.sessionOpen, Prologue(a).1, Dispatch(t, a).events);
      DispatchKeepsLeftOpen(t, a);
  }

  lemma DispatchKeepsLeftOpen(t: Transaction, a: OpenAnswers)
    ensures Dispatch(t, a).after.sessionOpen == LeftOpen(t.sessionOpen, Dispatch(t, a).events)
  {
    var begun := [CredentialsEstablished] + [OpenDispatched];
    LeftOpenOne(t.sessionOpen, Touched);
    LeftOpenOne(t.sessionOpen, CredentialsEstablished);
    LeftOpenOne(t.sessionOpen, OpenDispatched);
    LeftOpenAppend(t.sessionOpen, [CredentialsEstablished], [OpenDispatched]);
    LeftOpenOne(true, Touched);
    LeftOpenAppend(t.sessionOpen, begun, [Touched]);
    assert begun == [CredentialsEstablished, OpenDispatched];
    assert begun + [Touched] == [CredentialsEstablished, OpenDispatched, Touched];
    var marked := Transaction(true, true, t.ended);
    var rollback := Cleanup(marked, a.closeOk).1;
    CleanupKeepsLeftOpen(marked, a.closeOk);
    LeftOpenAppend(t.sessionOpen, begun, rollback);
    LeftOpenAppend(t.sessionOpen, begun + [Touched], rollback);
  }

  /** The state and the log after some calls on a started handle. */
  function AfterCalls(t: Transaction, calls: seq<Call>): (Transaction, seq<Event>)
    decreases |calls|
  {
    if calls == [] then (t, [])
    else
      var (before, log) := AfterCalls(t, calls[..|calls| - 1]);
      var step := Apply(before, calls[|calls| - 1]);
      (step.after, log + step.events)
  }

  /** In every life the session flag says what the log says. */
  lemma {:induction false} FlagFollowsTheLog(calls: seq<Call>)
    ensures var (t, log) := AfterCalls(Transaction(false, false, false), calls);
      t.sessionOpen == LeftOpen(false, log)
    decreases |calls|
  {
    if calls != [] {
      var front, last := calls[..|calls| - 1], calls[|calls| - 1];
      FlagFollowsTheLog(front);
      var (before, log) := AfterCalls(Transaction(false, false, false), front);
      CallKeepsLeftOpen(before, last);
      LeftOpenAppend(false, log, Apply(before, last).events);
    }
  }

  /**
   * What every call of a life answers. An open: success exactly when everything it needs is given. A
   * close: success exactly when the log has no session left open or libpam closes it, and it dispatches
   * exactly when the log has one.
   */
  lemma EveryCallAnswers(calls: seq<Call>, call: Call)
    ensures var (t, log) := AfterCalls(Transaction(false, false, false), calls);
      var step := Apply(t, call);
      match call
      case CallOpen(a) => step.result == if OpensFine(a) then Ok(()) else Err(OpenFailed)
      case CallClose(ok) =>
        && step.result == (if !LeftOpen(false, log) || ok then Ok(()) else Err(CloseFailed))
        && step.events == (if LeftOpen(false, log) then [CloseDispatched(ok)] else [])
  {
    var t := AfterCalls(Transaction(false, false, false), calls).0;
    FlagFollowsTheLog(calls);
    if call.CallOpen? {
      OpenAnswersExactly(t, call.answers);
    }
  }
}
