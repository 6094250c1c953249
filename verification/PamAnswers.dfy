/**
 * Which answers reach PAM: a password prompt is answered by a secret, a visible prompt by a text, and
 * a message by nothing, through the worker, the launcher and the greeter and back.
 */
module PamAnswers {
  import opened Text
  import opened PamProtocol
  import opened PamAuthority
  import opened PamRelay

  // ---------------------------------------------------------------- the serialised reply

  function HexChar(n: nat): char
    requires n < 16
  {
    if n < 10 then ('0' as int + n) as char else ('a' as int + (n - 10)) as char
  }

  /** A character of a JSON string. */
  function JsonChar(c: char): string {
    var code := c as int;
    if code == 0x22 then "\\\""
    else if code == 0x5c then "\\\\"
    else if code == 8 then "\\b"
    else if code == 9 then "\\t"
    else if code == 10 then "\\n"
    else if code == 12 then "\\f"
    else if code == 13 then "\\r"
    else if code < 0x20 then "\\u00" + [HexChar(code / 16), HexChar(code % 16)]
    else [c]
  }

  function JsonBody(s: string): string {
    if s == "" then "" else JsonChar(s[0]) + JsonBody(s[1..])
  }

  /** The reply as it is written on the wire. */
  function Json(reply: Reply): string {
    match reply
    case Secret(s) => "{\"Secret\":\"" + JsonBody(s) + "\"}"
    case Answer(t) => "{\"Text\":\"" + JsonBody(t) + "\"}"
    case NoReply => "\"None\""
  }

  /** A text of seven-bit characters has one byte for each. */
  lemma {:induction false} AsciiBytes(s: string)
    requires forall i | 0 <= i < |s| :: Width(s[i]) == 1
    ensures Bytes(s) == |s|
  {
    if s != "" {
      AsciiBytes(s[1..]);
    }
  }

  lemma JsonCharBytes(c: char)
    ensures Bytes(JsonChar(c)) == JsonBytes([c])
  {
    assert [c][1..] == "";
    assert JsonBytes("") == 0;
    if JsonChar(c) == [c] {
      assert Bytes([c]) == Width(c) + Bytes("");
    } else {
      AsciiBytes(JsonChar(c));
    }
  }

  lemma {:induction false} JsonBodyBytes(s: string)
    ensures Bytes(JsonBody(s)) == JsonBytes(s)
  {
    if s != "" {
      JsonBodyBytes(s[1..]);
      JsonCharBytes(s[0]);
      BytesOfConcat(JsonChar(s[0]), JsonBody(s[1..]));
      assert [s[0]][1..] == "";
    }
  }

  lemma JsonStringBytes(before: string, s: string, after: string)
    requires forall i | 0 <= i < |before| :: Width(before[i]) == 1
    requires forall i | 0 <= i < |after| :: Width(after[i]) == 1
    ensures Bytes(before + JsonBody(s) + after) == |before| + JsonBytes(s) + |after|
  {
    hide Bytes, JsonBytes, JsonBody;
    JsonBodyBytes(s);
    AsciiBytes(before);
    AsciiBytes(after);
    BytesOfConcat(before, JsonBody(s));
    BytesOfConcat(before + JsonBody(s), after);
  }

  /** The announced length of a reply is the byte length of its serialised form. */
  lemma EncodedLenIsTheLength(reply: Reply)
    ensures EncodedLen(reply) == Bytes(Json(reply))
  {
    hide Bytes, JsonBytes, JsonBody;
    match reply
    case Secret(s) => JsonStringBytes("{\"Secret\":\"", s, "\"}");
    case Answer(t) => JsonStringBytes("{\"Text\":\"", t, "\"}");
    case NoReply => AsciiBytes("\"None\"");
  }

  lemma {:induction false} JsonAtMostSixfold(s: string)
    ensures JsonBytes(s) <= 6 * Bytes(s)
  {
    if s != "" {
      JsonAtMostSixfold(s[1..]);
    }
  }

  // ---------------------------------------------------------------- one exchange

  /** The two ends of one login, field by field, after k answered prompts. */
  predicate SetUp(s: System, k: U64) {
    var d, l, route := s.driver, s.launcher, s.driver.route;
    && d.promptId == d.sequence == k < U64_MAX && l.authority.nextSequence == k + 1
    && l.authority.pending == None && !l.authority.consumed && l.authority.route == route
    && s.channel == [] && !s.broken && l.alive && l.attached
    && d.workerId == l.workerId && d.workerPid == l.workerPid
    && d.transaction == WorkerTransaction(l.workerId, l.attemptId, l.workerId, "seat0", l.generation, "reserved")
    && route.requestId != 0 && route.connectionEpoch != 0
    && route.transactionId != "" && route.seat != "" && route.conversationId != ""
  }

  /** A text of a prompt or a reply. */
  predicate Sayable(text: string) {
    text != "" && Bytes(text) <= 4096 && '\0' !in text
  }

  /** The greeter's envelope for the answer to prompt `n`. */
  function Envelope(route: Route, n: U64, style: Style, reply: Reply): Response {
    Response(2, "pam_prompt_response", route, n, n, style, EncodedLen(reply), reply)
  }

  /** Nothing on the way fails, the clock stays before the deadline, and the control frame fits. */
  predicate Undisturbed(s: System, env: Env) {
    && env.write == Written && env.read == ReadFine && env.sendOk && env.frameBytes <= 4095
    && env.promptTime < s.launcher.authority.deadline && env.responseTime < s.launcher.authority.deadline
  }

  lemma SetUpIsLockstep(s: System, k: U64)
    requires SetUp(s, k)
    ensures Lockstep(s, k) && Configured(s)
  {
  }

  lemma GivenAnswerReaches(s: System, style: Style, message: string, reply: Reply, env: Env, k: U64)
    requires SetUp(s, k) && Undisturbed(s, env) && Sayable(message)
    requires ReplyFits(style, reply) && EncodedLen(reply) <= MAX_GREETER_PAYLOAD_BYTES
    requires env.greeter == Some(Envelope(s.driver.route, k + 1, style, reply))
    ensures Exchange(s, style, Some(message), env).1 == Some(reply)
  {
    hide JsonBytes;
    SetUpIsLockstep(s, k);
    assert ResponseShape(env.greeter.value);
    ExchangeInLockstep(s, style, Some(message), env, k);
  }

  /** Every secret within the limits answers a password prompt, and PAM gets it unchanged. */
  lemma SecretReachesPam(s: System, message: string, secret: string, env: Env, k: U64)
    requires SetUp(s, k) && Undisturbed(s, env) && Sayable(message) && Sayable(secret)
    requires env.greeter == Some(Envelope(s.driver.route, k + 1, PromptEchoOff, Secret(secret)))
    ensures Exchange(s, PromptEchoOff, Some(message), env).1 == Some(Secret(secret))
  {
    JsonAtMostSixfold(secret);
    GivenAnswerReaches(s, PromptEchoOff, message, Secret(secret), env, k);
  }

  /** Every text within the limits answers a visible prompt. */
  lemma TextReachesPam(s: System, message: string, text: string, env: Env, k: U64)
    requires SetUp(s, k) && Undisturbed(s, env) && Sayable(message) && Sayable(text)
    requires env.greeter == Some(Envelope(s.driver.route, k + 1, PromptEchoOn, Answer(text)))
    ensures Exchange(s, PromptEchoOn, Some(message), env).1 == Some(Answer(text))
  {
    JsonAtMostSixfold(text);
    GivenAnswerReaches(s, PromptEchoOn, message, Answer(text), env, k);
  }

  /** A message to the user is answered by no reply. */
  lemma MessageIsConfirmed(s: System, style: Style, message: string, env: Env, k: U64)
    requires style == Informational || style == Style.Error
    requires SetUp(s, k) && Undisturbed(s, env) && Sayable(message)
    requires env.greeter == Some(Envelope(s.driver.route, k + 1, style, NoReply))
    ensures Exchange(s, style, Some(message), env).1 == Some(NoReply)
  {
    GivenAnswerReaches(s, style, message, NoReply, env, k);
  }

  // ---------------------------------------------------------------- every run

  /** In every run, whatever the greeter does, each answer PAM gets is of the kind its prompt asked for. */
  lemma AnswersAreOfTheirKind(s: System, calls: seq<PamCall>, k: U64, i: nat)
    requires Lockstep(s, k) && i < |calls|
    ensures |PamRelay.Run(s, calls).1| == |calls|
    ensures var reply, style := PamRelay.Run(s, calls).1[i], calls[i].style;
      reply.Some? ==>
        && (style == PromptEchoOff ==> reply.value.Secret? && Sayable(reply.value.secret))
        && (style == PromptEchoOn ==> reply.value.Answer? && Sayable(reply.value.text))
        && (style == Informational || style == Style.Error ==> reply.value == NoReply)
  {
    AnswersFormAPrefix(s, calls, k);
    var replies := PamRelay.Run(s, calls).1;
    assert i < Successes(replies) ==> AnsweredAs(s.driver.route, k + i + 1, calls[i], replies[i]);
  }

  /** The typed interface takes the same kinds: exactly, for a reply that names everything else rightly. */
  lemma TypedReplyByKind(a: Authority, p: TypedPrompt, reply: Reply)
    ensures var t := TypedReply(a.route.transactionId, a.route.connectionId, a.route.connectionEpoch, a.workerId,
                                p.id, p.style, reply);
      Respond(a, p, t) == Ok(reply) <==>
        && !a.consumed
        && (p.style == PromptEchoOff ==> reply.Secret? && Sayable(reply.secret))
        && (p.style == PromptEchoOn ==> reply.Answer? && Sayable(reply.text))
        && (p.style == Informational || p.style == Style.Error ==> reply == NoReply)
  {
  }

  // ---------------------------------------------------------------- the relay, exactly

  /** Everything a relayed prompt needs, message by message and field by field. */
  predicate Relayable(l: Launcher, m: PromptMessage, env: Env) {
    && m.workerId == l.workerId && m.workerPid == l.workerPid && l.attached
    && m.transaction == WorkerTransaction(l.workerId, l.attemptId, l.workerId, "seat0", l.generation, "reserved")
    && m.prompt.version == 2 && m.prompt.messageType == "pam_prompt" && m.prompt.route == l.authority.route
    && m.prompt.route.requestId != 0 && m.prompt.route.connectionEpoch != 0 && m.prompt.route.transactionId != ""
    && m.prompt.route.seat != "" && m.prompt.route.conversationId != ""
    && m.prompt.promptId != 0 && m.prompt.sequence == l.authority.nextSequence != 0
    && Sayable(m.prompt.message) && m.prompt.payloadLen == Bytes(m.prompt.message)
    && l.authority.pending.None? && !l.authority.consumed
    && env.promptTime < l.authority.deadline && env.responseTime < l.authority.deadline
    && env.greeter.Some? && AnswersIt(m.prompt, env.greeter.value)
    && env.frameBytes <= 4095 && env.sendOk
  }

  predicate AnswersIt(p: Prompt, r: Response) {
    && r.version == 2 && r.messageType == "pam_prompt_response" && r.route == p.route
    && r.promptId == p.promptId && r.sequence == p.sequence && r.style == p.style
    && r.payloadLen == EncodedLen(r.reply) <= 48 * 1024
    && (p.style == PromptEchoOff ==> r.reply.Secret? && Sayable(r.reply.secret))
    && (p.style == PromptEchoOn ==> r.reply.Answer? && Sayable(r.reply.text))
    && (p.style == Informational || p.style == Style.Error ==> r.reply == NoReply)
  }

  /** The launcher relays a prompt if and only if it is relayable, and then only its counter moves. */
  lemma RelaysExactly(l: Launcher, m: PromptMessage, env: Env)
    ensures Forward(l, m, env).1.Some? <==> Relayable(l, m, env)
    ensures Relayable(l, m, env) ==>
      Forward(l, m, env).0 == l.(authority := l.authority.(nextSequence := WrappingNext(l.authority.nextSequence)))
  {
    hide JsonBytes;
  }
}
