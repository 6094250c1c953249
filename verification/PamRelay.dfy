/**
 * The path of a PAM prompt: the worker's driver numbers it and writes it, the launcher checks and
 * forwards it to the greeter, the authority admits prompt and response, and the answer returns on
 * the control channel. The greeter, the clock and every I/O result are arbitrary.
 */
module PamRelay {
  import opened Text
  import opened PamProtocol
  import opened PamAuthority
  import Framing

  // ---------------------------------------------------------------- the launcher's relay

  datatype PromptMessage = PromptMessage(
    workerId: string, workerPid: nat, transaction: WorkerTransaction, prompt: Prompt)

  datatype ControlMessage = ControlMessage(
    transaction: ControlTransaction, workerId: string, workerPid: nat, response: Response)

  /** The launcher's side: `attached` says that both a transport and an authority were given. */
  datatype Launcher = Launcher(
    workerId: string, workerPid: nat, generation: U64, attemptId: U64, attached: bool, alive: bool,
    authority: Authority)

  datatype WriteOutcome = Written | WrittenButFailed | Lost | Garbled
  datatype ReadOutcome = ReadFine | DupFails | ReadBreaks

  /** Everything the surroundings decide during one exchange. */
  datatype Env = Env(
    write: WriteOutcome, greeter: Option<Response>, promptTime: nat, responseTime: nat, frameBytes: nat,
    sendOk: bool, read: ReadOutcome)

  /** The control frame with the answer is within its limit, and the channel takes it. */
  predicate Sends(env: Env) {
    env.frameBytes + 1 <= Framing.Limit(Framing.Control) && env.sendOk
  }

  function Forward(l: Launcher, m: PromptMessage, env: Env): (Launcher, Option<ControlMessage>) {
    var dead := l.(alive := false);
    if m.workerId != l.workerId || m.workerPid != l.workerPid || !PromptShape(m.prompt)
      || !ValidTransaction(m.transaction, l.workerId, l.generation, l.attemptId, "reserved") || !l.attached then
           (dead, None)
    else
      var (asked, admitted) := AfterWirePrompt(l.authority, m.prompt, env.promptTime);
      if admitted.Err? || env.greeter.None? || !Answers(m.prompt, env.greeter.value) ||
        !ResponseShape(env.greeter.value) then
        (dead.(authority := asked), None)
      else
        var (answered, accepted) := AfterWireResponse(asked, env.greeter.value, env.responseTime);
        if accepted.Err? || !Sends(env) then (dead.(authority := answered), None)
        else (l.(authority := answered),
              Some(ControlMessage(FromWorker(m.transaction, "pam_prompt_response", m.prompt.sequence), l.workerId,
                  m.workerPid, env.greeter.value)))
  }

  // ---------------------------------------------------------------- what the launcher admits

  /** Whether the authority admits the prompt of this message. */
  predicate Admits(l: Launcher, m: PromptMessage, env: Env) {
    && m.workerId == l.workerId && m.workerPid == l.workerPid && PromptShape(m.prompt)
    && ValidTransaction(m.transaction, l.workerId, l.generation, l.attemptId, "reserved") && l.attached
    && AfterWirePrompt(l.authority, m.prompt, env.promptTime).1.Ok?
  }

  datatype Relay = Relay(message: PromptMessage, env: Env)

  /** The sequences a launcher admits over any messages, even after it gave up. */
  function Admitted(l: Launcher, relays: seq<Relay>): seq<U64>
    decreases |relays|
  {
    if relays == [] then []
    else
      var rest := Admitted(Forward(l, relays[0].message, relays[0].env).0, relays[1..]);
      if Admits(l, relays[0].message, relays[0].env) then [relays[0].message.prompt.sequence] + rest else rest
  }

  lemma ForwardMovesOn(l: Launcher, m: PromptMessage, env: Env)
    ensures var next := Forward(l, m, env).0.authority.nextSequence;
      if Admits(l, m, env)
      then m.prompt.sequence == l.authority.nextSequence > 0 && next == WrappingNext(l.authority.nextSequence)
      else next == l.authority.nextSequence
  {
  }

  /**
   * The wire format has no sequence zero, so the launcher's numbers cannot wrap: over every list of
   * messages and surroundings they are consecutive, end at 2^64 - 1 at the latest, and no number is
   * admitted twice. A launcher that expects zero admits nothing any more.
   */
  lemma {:induction false} LauncherNeverRepeats(l: Launcher, relays: seq<Relay>)
    ensures var n, numbers := l.authority.nextSequence, Admitted(l, relays);
      && (n == 0 ==> numbers == [])
      && n + |numbers| <= U64_MAX + 1
      && (forall i | 0 <= i < |numbers| :: numbers[i] == n + i)
      && Distinct(numbers)
    decreases |relays|
  {
    if relays != [] {
      ForwardMovesOn(l, relays[0].message, relays[0].env);
      LauncherNeverRepeats(Forward(l, relays[0].message, relays[0].env).0, relays[1..]);
    }
  }

  // ---------------------------------------------------------------- how large an answer may be

  /** A control frame holds the serialised reply and at least its own braces. */
  predicate HoldsReply(env: Env) {
    env.greeter.Some? ==> EncodedLen(env.greeter.value.reply) + 2 <= env.frameBytes
  }

  const MAX_RELAYED_REPLY := 4093

  /** A relayed answer leaves room for its frame: an answer may be well formed and still too large to relay. */
  lemma RelayedReplyIsSmall(l: Launcher, m: PromptMessage, env: Env)
    requires HoldsReply(env) && Forward(l, m, env).1.Some?
    ensures EncodedLen(Forward(l, m, env).1.value.response.reply) <= MAX_RELAYED_REPLY
  {
  }

  lemma {:induction false} JsonNeverShrinks(s: string)
    ensures |s| <= JsonBytes(s)
  {
    if s != "" {
      JsonNeverShrinks(s[1..]);
    }
  }

  /** The failing input: a secret of the longest length the prompt allows is never relayed. */
  lemma LongestSecretIsNotRelayed(l: Launcher, m: PromptMessage, env: Env, secret: string)
    requires HoldsReply(env) && env.greeter.Some? && env.greeter.value.reply == Secret(secret)
    requires |secret| == MAX_PROMPT_BYTES
    ensures Forward(l, m, env).1.None?
  {
    JsonNeverShrinks(secret);
  }

  class LauncherEnd {
    const workerId: string
    const workerPid: nat
    const generation: U64
    const attemptId: U64
    const attached: bool
    const authority: PamConversationAuthority
    var alive: bool

    ghost function Value(): Launcher
      reads this, authority
    {
      Launcher(workerId, workerPid, generation, attemptId, attached, alive, authority.Value())
    }

    constructor (workerId: string, workerPid: nat, generation: U64, attemptId: U64, attached: bool,
        authority: PamConversationAuthority)
      ensures this.authority == authority
      ensures Value() == Launcher(workerId, workerPid, generation, attemptId, attached, true, authority.Value())
    {
      this.workerId, this.workerPid, this.generation := workerId, workerPid, generation;
      this.attemptId, this.attached, this.authority, alive := attemptId, attached, authority, true;
    }

    method ForwardPamPrompt(m: PromptMessage, env: Env) returns (sent: Option<ControlMessage>)
      requires alive
      modifies this, authority
      ensures (Value(), sent) == Forward(old(Value()), m, env)
    {
      alive := false;
      if m.workerId != workerId || m.workerPid != workerPid || !PromptShape(m.prompt)
        || !ValidTransaction(m.transaction, workerId, generation, attemptId, "reserved") {
        return None;
      }
      if !attached {
        return None;
      }
      var admitted := authority.AcceptWirePrompt(m.prompt, env.promptTime);
      if admitted.Err? || env.greeter.None? {
        return None;
      }
      var response := env.greeter.value;
      if response.route != m.prompt.route || response.promptId != m.prompt.promptId
        || response.sequence != m.prompt.sequence || response.style != m.prompt.style {
        return None;
      }
      if !ResponseShape(response) {
        return None;
      }
      var accepted := authority.AcceptWireResponse(response, env.responseTime);
      if accepted.Err? || !Sends(env) {
        return None;
      }
      alive := true;
      return Some(ControlMessage(FromWorker(m.transaction, "pam_prompt_response", m.prompt.sequence), workerId,
          m.workerPid, response));
    }
  }

  // ---------------------------------------------------------------- the worker's driver

  datatype Driver = Driver(
    route: Route, transaction: WorkerTransaction, workerId: string, workerPid: nat, promptId: U64,
    sequence: U64)

  function DriverPrompt(d: Driver, style: Style, message: string): Prompt {
    Prompt(GREETER_PROTOCOL_VERSION, "pam_prompt", d.route, d.promptId, d.sequence, style, Bytes(message), message)
  }

  predicate DriverAccepts(d: Driver, style: Style, c: ControlMessage) {
    && c.workerId == d.workerId && c.workerPid == d.workerPid
    && MatchesWorker(c.transaction, d.transaction, "pam_prompt_response", d.sequence)
    && c.response.route == d.route && c.response.promptId == d.promptId && c.response.sequence == d.sequence
    && c.response.style == style
    && ResponseShape(c.response)
  }

  /** Driver, launcher and the control channel between them, a queue that an I/O error can break. */
  datatype System = System(driver: Driver, launcher: Launcher, channel: seq<ControlMessage>, broken: bool)

  /** What the launcher makes of the bytes the driver wrote. */
  function AfterWrite(s: System, m: PromptMessage, env: Env): System {
    var l := s.launcher;
    if !l.alive || env.write.Lost? then s
    else if env.write.Garbled? then s.(launcher := l.(alive := false))
    else
      var (next, sent) := Forward(l, m, env);
      s.(launcher := next, channel := if sent.Some? then s.channel + [sent.value] else s.channel)
  }

  /** The driver's read of the control channel: an empty channel only ever ends in an error. */
  function AfterRead(s: System, style: Style, env: Env): (System, Option<Reply>) {
    if env.write != Written || env.read.DupFails? then (s, None)
    else if env.read.ReadBreaks? then (s.(broken := true), None)
    else if s.broken || s.channel == [] then (s, None)
    else (s.(channel := s.channel[1..]), if DriverAccepts(s.driver, style, s.channel[0]) then
      Some(s.channel[0].response.reply) else None)
  }

  /** The driver advances both of its counters, or stops at the first that cannot advance. */
  function Numbered(d: Driver): (Driver, bool) {
    if d.promptId == U64_MAX then (d, false)
    else if d.sequence == U64_MAX then (d.(promptId := d.promptId + 1), false)
    else (d.(promptId := d.promptId + 1, sequence := d.sequence + 1), true)
  }

  predicate Sendable(message: Option<string>) {
    message.Some? && message.value != "" && Bytes(message.value) <= MAX_PROMPT_BYTES
  }

  function Message(d: Driver, style: Style, message: string): PromptMessage {
    PromptMessage(d.workerId, d.workerPid, d.transaction, DriverPrompt(d, style, message))
  }

  /** One call of the driver by PAM; `message` is None when the bytes are not UTF-8. */
  function Exchange(s: System, style: Style, message: Option<string>, env: Env): (System, Option<Reply>) {
    var (d, ok) := Numbered(s.driver);
    if !ok || !Sendable(message) then (s.(driver := d), None)
    else AfterRead(AfterWrite(s.(driver := d), Message(d, style, message.value), env), style, env)
  }

  class Link {
    var channel: seq<ControlMessage>
    var broken: bool

    constructor ()
      ensures channel == [] && !broken
    {
      channel, broken := [], false;
    }
  }

  class WorkerPamConversationDriver {
    const route: Route
    const transaction: WorkerTransaction
    const workerId: string
    const workerPid: nat
    var promptId: U64
    var sequence: U64

    function Value(): Driver
      reads this
    {
      Driver(route, transaction, workerId, workerPid, promptId, sequence)
    }

    ghost function Whole(launcher: LauncherEnd, link: Link): System
      reads this, launcher, launcher.authority, link
    {
      System(Value(), launcher.Value(), link.channel, link.broken)
    }

    constructor (route: Route, transaction: WorkerTransaction, workerId: string, workerPid: nat)
      ensures Value() == Driver(route, transaction, workerId, workerPid, 0, 0)
    {
      this.route, this.transaction, this.workerId, this.workerPid := route, transaction, workerId, workerPid;
      promptId, sequence := 0, 0;
    }

    /** Writes the prompt; a launcher that is still waiting reads and relays it. */
    method WriteEnvelope(m: PromptMessage, launcher: LauncherEnd, link: Link, env: Env)
      modifies launcher, launcher.authority, link
      ensures Whole(launcher, link) == AfterWrite(old(Whole(launcher, link)), m, env)
    {
      if !launcher.alive || env.write == Lost {
        return;
      }
      if env.write == Garbled {
        launcher.alive := false;
        return;
      }
      var sent := launcher.ForwardPamPrompt(m, env);
      if sent.Some? {
        link.channel := link.channel + [sent.value];
      }
    }

    method ReadResponse(style: Style, launcher: LauncherEnd, link: Link, env: Env) returns (r: Option<Reply>)
      modifies link
      ensures (Whole(launcher, link), r) == AfterRead(old(Whole(launcher, link)), style, env)
    {
      if env.write != Written || env.read == DupFails {
        return None;
      }
      if env.read == ReadBreaks {
        link.broken := true;
        return None;
      }
      if link.broken || link.channel == [] {
        return None;
      }
      var c := link.channel[0];
      link.channel := link.channel[1..];
      if DriverAccepts(Value(), style, c) {
        return Some(c.response.reply);
      }
      return None;
    }

    method Respond(style: Style, message: Option<string>, launcher: LauncherEnd, link: Link, env: Env)
        returns (r: Option<Reply>)
      modifies this, launcher, launcher.authority, link
      ensures (Whole(launcher, link), r) == Exchange(old(Whole(launcher, link)), style, message, env)
    {
      if promptId == U64_MAX {
        return None;
      }
      promptId := promptId + 1;
      if sequence == U64_MAX {
        return None;
      }
      sequence := sequence + 1;
      if message.None? || message.value == "" || Bytes(message.value) > MAX_PROMPT_BYTES {
        return None;
      }
      var prompt := Prompt(GREETER_PROTOCOL_VERSION, "pam_prompt", route, promptId, sequence, style,
        Bytes(message.value), message.value);
      WriteEnvelope(PromptMessage(workerId, workerPid, transaction, prompt), launcher, link, env);
      r := ReadResponse(style, launcher, link, env);
    }
  }

  // ---------------------------------------------------------------- lockstep

  /** After k exchanges: driver and authority agree on k, nothing is pending and nothing is in flight. */
  predicate Lockstep(s: System, k: U64) {
    && s.driver.promptId == s.driver.sequence == k && s.launcher.alive
    && s.launcher.authority.nextSequence == WrappingNext(k) && s.launcher.authority.pending.None?
    && s.channel == [] && !s.broken
  }

  /** The two ends were started for the same worker, transaction and conversation. */
  predicate Configured(s: System) {
    var l := s.launcher;
    && s.driver.workerId == l.workerId && s.driver.workerPid == l.workerPid && l.attached
    && ValidTransaction(s.driver.transaction, l.workerId, l.generation, l.attemptId, "reserved")
    && s.driver.route == l.authority.route && RouteShape(s.driver.route) && !l.authority.consumed
  }

  /** What one exchange needs from PAM, the greeter, the clock and the channels. */
  predicate Cooperative(s: System, style: Style, message: Option<string>, env: Env, k: U64) {
    && k < U64_MAX && message.Some? && BoundedText(message.value)
    && env.write.Written? && env.read.ReadFine? && Sends(env)
    && env.promptTime < s.launcher.authority.deadline && env.responseTime < s.launcher.authority.deadline
    && env.greeter.Some? && ResponseShape(env.greeter.value)
    && Answers(DriverPrompt(s.driver.(promptId := k + 1, sequence := k + 1), style, message.value), env.greeter.value)
  }

  /** Where a failure leaves the system: the driver's number can never be met again. */
  predicate Desynchronised(s: System) {
    && s.driver.promptId == s.driver.sequence
    && (forall i | 0 <= i < |s.channel| :: s.channel[i].response.sequence <= s.driver.sequence)
    && (s.driver.sequence == U64_MAX || !s.launcher.alive || s.broken || s.channel != []
        || s.launcher.authority.nextSequence <= s.driver.sequence)
  }

  /** A relayed prompt carried the number the authority expected, and its answer carries it too. */
  lemma ForwardedNumber(l: Launcher, m: PromptMessage, env: Env)
    ensures var (next, sent) := Forward(l, m, env);
      && (sent.Some? ==> sent.value.response.sequence == m.prompt.sequence == l.authority.nextSequence)
      && (sent.None? ==> !next.alive)
  {
  }

  /** Writing prompt `n + 1` into a system that lost count leaves nothing the driver could accept. */
  lemma WriteWhileDesynchronised(s: System, m: PromptMessage, env: Env, n: U64)
    requires m.prompt.sequence == n + 1
    requires forall i | 0 <= i < |s.channel| :: s.channel[i].response.sequence <= n
    requires !s.launcher.alive || s.broken || s.channel != [] || s.launcher.authority.nextSequence <= n
    ensures var w := AfterWrite(s, m, env);
      && (forall i | 0 <= i < |w.channel| :: w.channel[i].response.sequence <= n + 1)
      && (w.broken || w.channel == [] || w.channel[0].response.sequence <= n)
      && (w.broken || !w.launcher.alive || |w.channel| > 1 || w.launcher.authority.nextSequence <= n ||
           (env.write.Lost? && w.channel != []))
      && w.driver == s.driver
  {
    ForwardedNumber(s.launcher, m, env);
  }

  lemma ReadWhileDesynchronised(w: System, style: Style, env: Env)
    requires w.driver.promptId == w.driver.sequence > 0
    requires forall i | 0 <= i < |w.channel| :: w.channel[i].response.sequence <= w.driver.sequence
    requires w.broken || w.channel == [] || w.channel[0].response.sequence < w.driver.sequence
    requires w.broken || !w.launcher.alive || |w.channel| > 1 ||
      w.launcher.authority.nextSequence < w.driver.sequence || (env.write.Lost? && w.channel != [])
    ensures AfterRead(w, style, env).1.None? && Desynchronised(AfterRead(w, style, env).0)
  {
  }

  /** What the launcher sends back for the driver's own prompt passes the driver's guard. */
  lemma ForwardedIsAccepted(l: Launcher, d: Driver, style: Style, message: string, env: Env)
    ensures var sent := Forward(l, Message(d, style, message), env).1;
      sent.Some? ==> DriverAccepts(d, style, sent.value)
  {
  }

  /** With both ends set up alike and nothing pending, the relay succeeds exactly when everyone cooperates. */
  lemma ForwardSucceeds(s: System, d: Driver, style: Style, message: string, env: Env)
    requires Configured(s) && d == s.driver.(promptId := d.promptId, sequence := d.sequence) &&
      d.promptId == d.sequence > 0
    requires s.launcher.authority.pending.None? && s.launcher.authority.nextSequence == d.sequence &&
      Bytes(message) <= MAX_PROMPT_BYTES && message != ""
    ensures var (l, sent) := Forward(s.launcher, Message(d, style, message), env);
      && (sent.Some? <==>
            && '\0' !in message && Sends(env)
            && env.promptTime < s.launcher.authority.deadline && env.responseTime < s.launcher.authority.deadline
            && env.greeter.Some? && ResponseShape(env.greeter.value)
            && Answers(DriverPrompt(d, style, message), env.greeter.value))
      && (sent.Some? ==>
            && l == s.launcher.(authority := s.launcher.authority.(nextSequence := WrappingNext(d.sequence)))
            && sent.value.response == env.greeter.value)
  {
  }

  /** In lockstep, an exchange succeeds exactly when everyone cooperates, and then keeps lockstep one further. */
  lemma ExchangeInLockstep(s: System, style: Style, message: Option<string>, env: Env, k: U64)
    requires Lockstep(s, k) && Configured(s)
    ensures var (next, reply) := Exchange(s, style, message, env);
      && (reply.Some? <==> Cooperative(s, style, message, env, k))
      && (reply.Some? ==> Lockstep(next, k + 1) && Configured(next) && reply.value == env.greeter.value.reply)
  {
    var (d, ok) := Numbered(s.driver);
    if ok && Sendable(message) {
      ForwardSucceeds(s, d, style, message.value, env);
      ForwardedIsAccepted(s.launcher, d, style, message.value, env);
    }
  }

  lemma FailureDesynchronises(s: System, style: Style, message: Option<string>, env: Env, k: U64)
    requires Lockstep(s, k) && Exchange(s, style, message, env).1.None?
    ensures Desynchronised(Exchange(s, style, message, env).0)
  {
    var (d, ok) := Numbered(s.driver);
    if ok && Sendable(message) {
      var m := Message(d, style, message.value);
      var w := AfterWrite(s.(driver := d), m, env);
      ForwardedNumber(s.launcher, m, env);
      ForwardedIsAccepted(s.launcher, d, style, message.value, env);
      assert |w.channel| <= 1 && w.driver == d;
      assert w.channel != [] ==> w.channel[0].response.sequence == k + 1 && DriverAccepts(d, style, w.channel[0]);
      assert w.channel == [] ==> !w.launcher.alive || w.launcher.authority.nextSequence == k + 1;
    }
  }

  lemma DesynchronisedForever(s: System, style: Style, message: Option<string>, env: Env)
    requires Desynchronised(s)
    ensures Exchange(s, style, message, env).1.None? && Desynchronised(Exchange(s, style, message, env).0)
  {
    var (d, ok) := Numbered(s.driver);
    if ok && Sendable(message) {
      var m := Message(d, style, message.value);
      WriteWhileDesynchronised(s.(driver := d), m, env, s.driver.sequence);
      ReadWhileDesynchronised(AfterWrite(s.(driver := d), m, env), style, env);
    }
  }

  // ---------------------------------------------------------------- every run

  datatype PamCall = PamCall(style: Style, message: Option<string>, env: Env)

  /** The replies PAM received, one entry per call. */
  function Run(s: System, calls: seq<PamCall>): (System, seq<Option<Reply>>)
    decreases |calls|
  {
    if calls == [] then (s, [])
    else
      var (next, reply) := Exchange(s, calls[0].style, calls[0].message, calls[0].env);
      var (last, rest) := Run(next, calls[1..]);
      (last, [reply] + rest)
  }

  lemma {:induction false} DesynchronisedRun(s: System, calls: seq<PamCall>)
    requires Desynchronised(s)
    ensures |Run(s, calls).1| == |calls|
    ensures forall i | 0 <= i < |calls| :: Run(s, calls).1[i].None?
    decreases |calls|
  {
    if calls != [] {
      DesynchronisedForever(s, calls[0].style, calls[0].message, calls[0].env);
      DesynchronisedRun(Exchange(s, calls[0].style, calls[0].message, calls[0].env).0, calls[1..]);
    }
  }

  /** The reply to prompt `number` is the reply of a greeter response that carries the whole correlation. */
  predicate AnsweredAs(route: Route, number: nat, call: PamCall, reply: Option<Reply>) {
    call.env.greeter.Some? &&
    var r := call.env.greeter.value;
    && r.route == route && r.promptId == r.sequence == number && r.style == call.style
    && reply == Some(r.reply) && ReplyFits(call.style, r.reply)
  }

  /** In lockstep a successful call answers its own prompt, whatever the configuration. */
  lemma SuccessKeepsLockstep(s: System, call: PamCall, k: U64)
    requires Lockstep(s, k) && Exchange(s, call.style, call.message, call.env).1.Some?
    ensures var (next, reply) := Exchange(s, call.style, call.message, call.env);
      && k < U64_MAX && Lockstep(next, k + 1) && next.driver.route == s.driver.route
      && AnsweredAs(s.driver.route, k + 1, call, reply)
  {
  }

  /** How many calls succeed before the first failure. */
  function Successes(replies: seq<Option<Reply>>): (n: nat)
    ensures n <= |replies|
  {
    if replies == [] || replies[0].None? then 0 else 1 + Successes(replies[1..])
  }

  /** The successes come first, and the i-th of them answers prompt k + i + 1. */
  predicate PrefixAnswered(route: Route, k: nat, calls: seq<PamCall>, replies: seq<Option<Reply>>) {
    var n := Successes(replies);
    && |replies| == |calls| && k + n <= U64_MAX
    && (forall i | n <= i < |replies| :: replies[i].None?)
    && forall i | 0 <= i < n :: AnsweredAs(route, k + i + 1, calls[i], replies[i])
  }

  lemma PrefixGrows(route: Route, k: nat, calls: seq<PamCall>, reply: Option<Reply>, rest: seq<Option<Reply>>)
    requires calls != [] && AnsweredAs(route, k + 1, calls[0], reply) && PrefixAnswered(route, k + 1, calls[1..], rest)
    ensures PrefixAnswered(route, k, calls, [reply] + rest) && Successes([reply] + rest) == 1 + Successes(rest)
  {
    var replies := [reply] + rest;
    assert replies[1..] == rest;
    forall i | 0 <= i < Successes(replies) ensures AnsweredAs(route, k + i + 1, calls[i], replies[i]) {
      if i > 0 {
        assert AnsweredAs(route, k + 1 + (i - 1) + 1, calls[1..][i - 1], rest[i - 1]);
      }
    }
  }

  /**
   * The law of the relay, for every run: the successful calls form a prefix, so after one failed
   * call no later call is ever answered; the i-th answer is the reply of a greeter response that
   * carries the driver's route, the number k + i + 1 and the style PAM asked for.
   */
  lemma {:induction false} AnswersFormAPrefix(s: System, calls: seq<PamCall>, k: U64)
    requires Lockstep(s, k)
    ensures PrefixAnswered(s.driver.route, k, calls, Run(s, calls).1)
    ensures Successes(Run(s, calls).1) == |calls| ==> k + |calls| <= U64_MAX && Lockstep(Run(s, calls).0, k + |calls|)
    decreases |calls|
  {
    if calls != [] {
      var call := calls[0];
      var (next, reply) := Exchange(s, call.style, call.message, call.env);
      if reply.None? {
        FailureDesynchronises(s, call.style, call.message, call.env, k);
        DesynchronisedRun(next, calls[1..]);
      } else {
        SuccessKeepsLockstep(s, call, k);
        AnswersFormAPrefix(next, calls[1..], k + 1);
        PrefixGrows(s.driver.route, k, calls, reply, Run(next, calls[1..]).1);
      }
    }
  }
}
