/** The authority that admits the prompts and responses of one PAM conversation. */
module PamAuthority {
  import opened Text
  import opened PamProtocol

  datatype Refusal =
    | InvalidSequence | InvalidPrompt | UnknownPrompt | IncompatibleResponse | ConversationConsumed
    | DeadlineExpired

  datatype Pending = Pending(promptId: U64, style: Style, sequence: U64)

  /** The value of an authority: its identity, and the three fields its operations update. */
  datatype Authority = Authority(
    route: Route, workerId: string, deadline: nat, nextSequence: U64, consumed: bool, pending: Option<Pending>)

  predicate Closed(a: Authority, now: nat) {
    a.consumed || a.deadline <= now
  }

  function AfterWirePrompt(a: Authority, p: Prompt, now: nat): (Authority, Result<(), Refusal>) {
    if Closed(a, now) then (a.(consumed := true), Err(ConversationConsumed))
    else if p.route != a.route || p.sequence != a.nextSequence || p.promptId == 0 || a.pending.Some? then
      (a, Err(InvalidSequence))
    else
      (a.(nextSequence := WrappingNext(a.nextSequence), pending := Some(Pending(p.promptId, p.style, p.sequence))),
          Ok(()))
  }

  function AfterWireResponse(a: Authority, r: Response, now: nat): (Authority, Result<(), Refusal>) {
    if Closed(a, now) then (a.(consumed := true), Err(ConversationConsumed))
    else if a.pending.None? then (a, Err(UnknownPrompt))
    else if r.route != a.route || Pending(r.promptId, r.style, r.sequence) != a.pending.value then
      (a, Err(IncompatibleResponse))
    else
      (a.(pending := None), Ok(()))
  }

  /** The prompt an authority is moved into by a typed `prompt` call. */
  datatype TypedPrompt = TypedPrompt(id: U64, sequence: U64, style: Style, message: string)

  function AfterTypedPrompt(a: Authority, p: TypedPrompt, now: nat): (Authority, Result<TypedPrompt, Refusal>) {
    if a.consumed then (a, Err(ConversationConsumed))
    else if a.deadline <= now then (a.(consumed := true), Err(DeadlineExpired))
    else if p.id == 0 || p.sequence != a.nextSequence || !BoundedText(p.message) then (a, Err(InvalidPrompt))
    else (a.(nextSequence := WrappingNext(a.nextSequence)), Ok(p))
  }

  function AfterAuthenticated(a: Authority, now: nat): (Authority, Result<(), Refusal>) {
    if a.consumed then (a, Err(ConversationConsumed))
    else if a.deadline <= now then (a.(consumed := true), Err(DeadlineExpired))
    else (a.(consumed := true), Ok(()))
  }

  /** What a typed response must repeat of the prompt and of the authority that owns it. */
  datatype TypedReply = TypedReply(
    transactionId: string, connectionId: string, connectionEpoch: U64, workerId: string, promptId: U64,
    style: Style, reply: Reply)

  function Respond(a: Authority, p: TypedPrompt, t: TypedReply): (r: Result<Reply, Refusal>)
    ensures r.Ok? <==>
      && !a.consumed && t.promptId == p.id && t.style == p.style && ReplyFits(p.style, t.reply)
      && t.transactionId == a.route.transactionId && t.connectionId == a.route.connectionId
      && t.connectionEpoch == a.route.connectionEpoch && t.workerId == a.workerId
    ensures r.Ok? ==> r.value == t.reply
  {
    if a.consumed then Err(ConversationConsumed)
    else if t.promptId != p.id || t.style != p.style || a.route.transactionId != t.transactionId
      || a.route.connectionId != t.connectionId || a.route.connectionEpoch != t.connectionEpoch
      || a.workerId != t.workerId || !ReplyFits(t.style, t.reply) then Err(IncompatibleResponse)
    else Ok(t.reply)
  }

  /** The authority as the source keeps it: identity in constants, progress in fields. */
  class PamConversationAuthority {
    const route: Route
    const workerId: string
    const deadline: nat
    var nextSequence: U64
    var consumed: bool
    var pending: Option<Pending>

    ghost function Value(): Authority
      reads this
    {
      Authority(route, workerId, deadline, nextSequence, consumed, pending)
    }

    constructor (route: Route, workerId: string, deadline: nat)
      ensures Value() == Authority(route, workerId, deadline, 1, false, None)
    {
      this.route := route;
      this.workerId := workerId;
      this.deadline := deadline;
      nextSequence, consumed, pending := 1, false, None;
    }

    method AcceptWirePrompt(p: Prompt, now: nat) returns (r: Result<(), Refusal>)
      modifies this
      ensures (Value(), r) == AfterWirePrompt(old(Value()), p, now)
    {
      if consumed || deadline <= now {
        consumed := true;
        return Err(ConversationConsumed);
      }
      if p.route != route || p.sequence != nextSequence || p.promptId == 0 || pending.Some? {
        return Err(InvalidSequence);
      }
      nextSequence := WrappingNext(nextSequence);
      pending := Some(Pending(p.promptId, p.style, p.sequence));
      return Ok(());
    }

    method AcceptWireResponse(response: Response, now: nat) returns (r: Result<(), Refusal>)
      modifies this
      ensures (Value(), r) == AfterWireResponse(old(Value()), response, now)
    {
      if consumed || deadline <= now {
        consumed := true;
        return Err(ConversationConsumed);
      }
      if pending.None? {
        return Err(UnknownPrompt);
      }
      var Pending(promptId, style, sequence) := pending.value;
      if response.route != route || response.promptId != promptId || response.style != style ||
        response.sequence != sequence {
        return Err(IncompatibleResponse);
      }
      pending := None;
      return Ok(());
    }

    method TypedPromptCall(p: TypedPrompt, now: nat) returns (r: Result<TypedPrompt, Refusal>)
      modifies this
      ensures (Value(), r) == AfterTypedPrompt(old(Value()), p, now)
    {
      if consumed {
        return Err(ConversationConsumed);
      }
      if deadline <= now {
        consumed := true;
        return Err(DeadlineExpired);
      }
      if p.id == 0 || p.sequence != nextSequence || p.message == "" || Bytes(p.message) > MAX_PROMPT_BYTES ||
        '\0' in p.message {
        return Err(InvalidPrompt);
      }
      nextSequence := WrappingNext(nextSequence);
      return Ok(p);
    }

    method Fail()
      modifies this
      ensures Value() == old(Value()).(consumed := true)
    {
      consumed := true;
    }

    method Authenticated(now: nat) returns (r: Result<(), Refusal>)
      modifies this
      ensures (Value(), r) == AfterAuthenticated(old(Value()), now)
    {
      if consumed {
        return Err(ConversationConsumed);
      }
      if deadline <= now {
        consumed := true;
        return Err(DeadlineExpired);
      }
      consumed := true;
      return Ok(());
    }
  }

  // ---------------------------------------------------------------- every history of calls

  datatype Call =
    | WirePrompt(prompt: Prompt, now: nat)
    | WireResponse(response: Response, now: nat)
    | Ask(typed: TypedPrompt, now: nat)
    | Tell(reply: TypedReply)
    | Fail
    | Authenticate(now: nat)

  datatype Event =
    | PromptAccepted(prompt: Prompt)
    | ResponseAccepted(response: Response)
    | TypedAccepted(typed: TypedPrompt)
    | TypedAnswered(answered: TypedPrompt, reply: Reply)
    | Concluded

  /**
   * An authority and who owns it: its holder, a pending typed prompt it was moved into, or a
   * conversation that ended. Ownership decides which calls a program can express at all.
   */
  datatype Owner = Held | Asked(typed: TypedPrompt) | Retired
  datatype Session = Session(authority: Authority, owner: Owner)

  function Step(s: Session, call: Call): (Session, seq<Event>) {
    var a := s.authority;
    if s.owner.Retired? || (s.owner.Asked? != call.Tell?) then (s, [])
    else match call
      case WirePrompt(p, now) =>
        var (next, r) := AfterWirePrompt(a, p, now);
        (Session(next, Held), if r.Ok? then [PromptAccepted(p)] else [])
      case WireResponse(response, now) =>
        var (next, r) := AfterWireResponse(a, response, now);
        (Session(next, Held), if r.Ok? then [ResponseAccepted(response)] else [])
      case Ask(typed, now) =>
        var (next, r) := AfterTypedPrompt(a, typed, now);
        if r.Ok? then (Session(next, Asked(typed)), [TypedAccepted(typed)]) else (Session(next, Held), [])
      case Tell(reply) =>
        var r := Respond(a, s.owner.typed, reply);
        if r.Ok? then (Session(a, Held), [TypedAnswered(s.owner.typed, r.value)]) else (s, [])
      case Fail => (Session(a.(consumed := true), Retired), [])
      case Authenticate(now) =>
        var (next, r) := AfterAuthenticated(a, now);
        if r.Ok? then (Session(next, Retired), [Concluded]) else (Session(next, Held), [])
  }

  function Run(s: Session, calls: seq<Call>): (Session, seq<Event>)
    decreases |calls|
  {
    if calls == [] then (s, [])
    else
      var (next, events) := Step(s, calls[0]);
      var (last, rest) := Run(next, calls[1..]);
      (last, events + rest)
  }

  /** Sequences of the accepted prompts, wire and typed, in order. */
  function Sequences(log: seq<Event>): seq<U64> {
    if log == [] then []
    else (match log[0]
          case PromptAccepted(p) => [p.sequence]
          case TypedAccepted(t) => [t.sequence]
          case _ => []) + Sequences(log[1..])
  }

  /** Wire prompts and responses alternate, and each response answers the open prompt. */
  predicate Alternating(log: seq<Event>, open: Option<Pending>, route: Route) {
    if log == [] then true
    else match log[0]
      case PromptAccepted(p) => open.None? && p.route == route && p.promptId != 0 &&
        Alternating(log[1..], Some(Pending(p.promptId, p.style, p.sequence)), route)
      case ResponseAccepted(r) => open == Some(Pending(r.promptId, r.style, r.sequence)) && r.route == route &&
        Alternating(log[1..], None, route)
      case _ => Alternating(log[1..], open, route)
  }

  function Plus(x: U64, n: nat): U64 {
    (x + n) % 0x1_0000_0000_0000_0000
  }

  lemma {:induction false} SequencesOfAppend(a: seq<Event>, b: seq<Event>)
    ensures Sequences(a + b) == Sequences(a) + Sequences(b)
  {
    if a == [] {
      assert a + b == b;
    } else {
      assert (a + b)[1..] == a[1..] + b;
      SequencesOfAppend(a[1..], b);
    }
  }

  /** A step accepts no prompt and keeps the number, or accepts the expected number and moves on. */
  lemma StepNumbersPrompts(s: Session, call: Call)
    ensures var (next, events) := Step(s, call);
      || (Sequences(events) == [] && next.authority.nextSequence == s.authority.nextSequence)
      || (Sequences(events) == [s.authority.nextSequence] &&
           next.authority.nextSequence == WrappingNext(s.authority.nextSequence))
  {
    var events := Step(s, call).1;
    assert |events| == 1 ==> Sequences(events[1..]) == [];
  }

  lemma PlusNext(x: U64, n: nat)
    ensures Plus(WrappingNext(x), n) == Plus(x, n + 1)
  {
  }

  /** Over any calls, accepted prompts are numbered consecutively from the authority's next sequence. */
  lemma {:induction false} RunNumbersPrompts(s: Session, calls: seq<Call>)
    ensures var (last, log) := Run(s, calls);
      var numbers := Sequences(log);
      && last.authority.nextSequence == Plus(s.authority.nextSequence, |numbers|)
      && forall i | 0 <= i < |numbers| :: numbers[i] == Plus(s.authority.nextSequence, i)
    decreases |calls|
  {
    if calls != [] {
      var (next, events) := Step(s, calls[0]);
      var (last, rest) := Run(next, calls[1..]);
      RunNumbersPrompts(next, calls[1..]);
      SequencesOfAppend(events, rest);
      StepNumbersPrompts(s, calls[0]);
      var numbers := Sequences(events + rest);
      if Sequences(events) == [] {
        assert numbers == Sequences(rest);
      } else {
        PlusNext(s.authority.nextSequence, |Sequences(rest)|);
        forall i | 0 <= i < |numbers| ensures numbers[i] == Plus(s.authority.nextSequence, i) {
          if i > 0 {
            PlusNext(s.authority.nextSequence, i - 1);
          }
        }
      }
    }
  }

  predicate Distinct(numbers: seq<U64>) {
    forall i, j | 0 <= i < j < |numbers| :: numbers[i] != numbers[j]
  }

  /** A new authority accepts 1, 2, 3, ...; a sequence is accepted twice exactly when more than 2^64 prompts are. */
  lemma FreshAuthorityNumbersFromOne(s: Session, calls: seq<Call>)
    requires s.authority.nextSequence == 1
    ensures var numbers := Sequences(Run(s, calls).1);
      && (forall i | 0 <= i < |numbers| && i < U64_MAX :: numbers[i] == i + 1)
      && (|numbers| <= U64_MAX + 1 <==> Distinct(numbers))
  {
    RunNumbersPrompts(s, calls);
    var numbers := Sequences(Run(s, calls).1);
    if |numbers| > U64_MAX + 1 {
      assert numbers[0] == numbers[U64_MAX + 1];
    }
  }

  /** The calls that ask for a prompt. */
  function PromptCalls(calls: seq<Call>): nat {
    if calls == [] then 0 else (if calls[0].WirePrompt? || calls[0].Ask? then 1 else 0) + PromptCalls(calls[1..])
  }

  lemma {:induction false} AcceptedAtMostAsked(s: Session, calls: seq<Call>)
    ensures |Sequences(Run(s, calls).1)| <= PromptCalls(calls)
    decreases |calls|
  {
    if calls != [] {
      var (next, events) := Step(s, calls[0]);
      AcceptedAtMostAsked(next, calls[1..]);
      SequencesOfAppend(events, Run(next, calls[1..]).1);
      assert |events| == 1 ==> Sequences(events[1..]) == [];
    }
  }

  /** A conversation of `n` typed prompts, each answered, numbered from `sequence` on. */
  function Conversation(a: Authority, sequence: U64, n: nat): seq<Call>
    decreases n
  {
    if n == 0 then []
    else
      [Ask(TypedPrompt(1, sequence, Informational, "m"), 0),
       Tell(TypedReply(a.route.transactionId, a.route.connectionId, a.route.connectionEpoch, a.workerId, 1,
                       Informational, NoReply))]
      + Conversation(a, WrappingNext(sequence), n - 1)
  }

  lemma {:induction false} ConversationIgnoresProgress(a: Authority, b: Authority, sequence: U64, n: nat)
    requires a.route == b.route && a.workerId == b.workerId
    ensures Conversation(a, sequence, n) == Conversation(b, sequence, n)
    decreases n
  {
    if n > 0 {
      ConversationIgnoresProgress(a, b, WrappingNext(sequence), n - 1);
    }
  }

  predicate Ready(s: Session) {
    s.owner.Held? && !s.authority.consumed && 0 < s.authority.deadline
  }

  /** The conversation a session is ready for, and the session after its first prompt and answer. */
  function Talk(s: Session, n: nat): seq<Call> {
    Conversation(s.authority, s.authority.nextSequence, n)
  }

  function Advanced(s: Session): Session {
    Session(s.authority.(nextSequence := WrappingNext(s.authority.nextSequence)), Held)
  }

  function Accepted(s: Session, n: nat): nat {
    |Sequences(Run(s, Talk(s, n)).1)|
  }

  lemma PromptIsAnswered(s: Session, n: nat)
    requires Ready(s) && n > 0
    ensures var (asked, e1) := Step(s, Talk(s, n)[0]);
      var (next, e2) := Step(asked, Talk(s, n)[1]);
      next == Advanced(s) && Sequences(e1) == [s.authority.nextSequence] && Sequences(e2) == []
  {
    var (asked, e1) := Step(s, Talk(s, n)[0]);
    var (next, e2) := Step(asked, Talk(s, n)[1]);
    assert "m"[1..] == "" && Bytes("m") == 1;
    assert |e1| == 1 && |e2| == 1 && e1[1..] == [] && e2[1..] == [];
  }

  lemma TwoSteps(s: Session, calls: seq<Call>)
    requires |calls| >= 2
    ensures var (asked, e1) := Step(s, calls[0]);
      var (next, e2) := Step(asked, calls[1]);
      Run(s, calls).1 == e1 + (e2 + Run(next, calls[2..]).1)
  {
    assert calls[1..][1..] == calls[2..];
  }

  /** One prompt and its answer, accepted by a ready authority whatever its next sequence is. */
  lemma ConversationStep(s: Session, n: nat)
    requires Ready(s) && n > 0
    ensures Accepted(s, n) == 1 + Accepted(Advanced(s), n - 1)
    ensures PromptCalls(Talk(s, n)) == 1 + PromptCalls(Talk(Advanced(s), n - 1))
  {
    var calls := Talk(s, n);
    ConversationIgnoresProgress(s.authority, Advanced(s).authority, Advanced(s).authority.nextSequence, n - 1);
    assert calls[2..] == Talk(Advanced(s), n - 1) && calls[1..][1..] == calls[2..];
    var (asked, e1) := Step(s, calls[0]);
    var e2, rest := Step(asked, calls[1]).1, Run(Advanced(s), calls[2..]).1;
    PromptIsAnswered(s, n);
    TwoSteps(s, calls);
    SequencesOfAppend(e1, e2 + rest);
    SequencesOfAppend(e2, rest);
  }

  lemma {:induction false} ConversationIsAccepted(s: Session, n: nat)
    requires Ready(s)
    ensures PromptCalls(Talk(s, n)) == n && Accepted(s, n) == n
    decreases n
  {
    if n > 0 {
      ConversationStep(s, n);
      ConversationIsAccepted(Advanced(s), n - 1);
    }
  }

  /** Through the typed interface, 2^64 + 1 prompts, each answered, repeat a sequence: zero is a number there. */
  lemma SequencesRepeatAfterWrap(s: Session)
    requires Ready(s) && s.authority.nextSequence == 1
    ensures !Distinct(Sequences(Run(s, Talk(s, U64_MAX + 2)).1))
  {
    ConversationIsAccepted(s, U64_MAX + 2);
    FreshAuthorityNumbersFromOne(s, Talk(s, U64_MAX + 2));
  }

  /**
   * What a caller can count beforehand: no sequence is accepted twice in any run of `n` prompt calls
   * exactly up to 2^64.
   */
  lemma DistinctUpToTheWrap(s: Session, n: nat)
    requires Ready(s) && s.authority.nextSequence == 1
    ensures (forall calls: seq<Call> | PromptCalls(calls) == n :: Distinct(Sequences(Run(s, calls).1))) <==>
      n <= U64_MAX + 1
  {
    if n <= U64_MAX + 1 {
      forall calls: seq<Call> | PromptCalls(calls) == n ensures Distinct(Sequences(Run(s, calls).1)) {
        AcceptedAtMostAsked(s, calls);
        FreshAuthorityNumbersFromOne(s, calls);
      }
    } else {
      var calls := Talk(s, n);
      ConversationIsAccepted(s, n);
      FreshAuthorityNumbersFromOne(s, calls);
      assert PromptCalls(calls) == n && !Distinct(Sequences(Run(s, calls).1));
    }
  }

  lemma {:induction false} AlternatingStep(events: seq<Event>, rest: seq<Event>, open: Option<Pending>,
      after: Option<Pending>, route: Route)
    requires |events| <= 1 && Alternating(events, open, route)
    requires after == if |events| == 1 && events[0].PromptAccepted? then
      Some(Pending(events[0].prompt.promptId, events[0].prompt.style, events[0].prompt.sequence))
                      else if |events| == 1 && events[0].ResponseAccepted? then None else open
    requires Alternating(rest, after, route)
    ensures Alternating(events + rest, open, route)
  {
    if events == [] {
      assert events + rest == rest;
    } else {
      assert (events + rest)[1..] == rest;
    }
  }

  /** Over any calls, wire prompts and responses strictly alternate and every response answers its prompt. */
  lemma {:induction false} RunAlternates(s: Session, calls: seq<Call>)
    ensures Alternating(Run(s, calls).1, s.authority.pending, s.authority.route)
    ensures Run(s, calls).0.authority.route == s.authority.route
    decreases |calls|
  {
    if calls != [] {
      var (next, events) := Step(s, calls[0]);
      RunAlternates(next, calls[1..]);
      assert |events| == 1 ==> events[1..] == [];
      AlternatingStep(events, Run(next, calls[1..]).1, s.authority.pending, next.authority.pending, s.authority.route);
    }
  }

  /** The time a call observes; calls that consult no clock observe none. */
  function Clock(call: Call): Option<nat> {
    match call
    case WirePrompt(_, now) => Some(now)
    case WireResponse(_, now) => Some(now)
    case Ask(_, now) => Some(now)
    case Authenticate(now) => Some(now)
    case _ => None
  }

  /** Clock readings never go back, starting from `from`. */
  predicate Monotone(calls: seq<Call>, from: nat) {
    calls == [] || match Clock(calls[0])
                   case Some(now) => from <= now && Monotone(calls[1..], now)
                   case None => Monotone(calls[1..], from)
  }

  /** A consumed authority accepts nothing for the rest of any history, and stays consumed. */
  lemma {:induction false} ConsumedAcceptsNothing(s: Session, calls: seq<Call>)
    requires s.authority.consumed
    ensures Run(s, calls).1 == [] && Run(s, calls).0.authority.consumed
    decreases |calls|
  {
    if calls != [] {
      ConsumedAcceptsNothing(Step(s, calls[0]).0, calls[1..]);
    }
  }

  predicate OnlyTypedAnswers(log: seq<Event>) {
    forall i | 0 <= i < |log| :: log[i].TypedAnswered?
  }

  /** Past the deadline no prompt and no wire response is accepted; an open typed prompt may still be answered. */
  lemma {:induction false} ExpiredAcceptsNoPrompt(s: Session, calls: seq<Call>, now: nat)
    requires s.authority.deadline <= now && Monotone(calls, now)
    ensures OnlyTypedAnswers(Run(s, calls).1)
    decreases |calls|
  {
    if calls != [] {
      var later := match Clock(calls[0]) case Some(t) => t case None => now;
      ExpiredAcceptsNoPrompt(Step(s, calls[0]).0, calls[1..], later);
    }
  }
}
