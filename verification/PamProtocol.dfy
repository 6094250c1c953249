/** Messages of the PAM conversation and the identities that travel with them. */
module PamProtocol {
  import opened Text

  type U64 = x: int | 0 <= x < 0x1_0000_0000_0000_0000
  const U64_MAX: U64 := 0xffff_ffff_ffff_ffff

  /** Addition as the release profile compiles it. */
  function WrappingNext(x: U64): U64 {
    if x == U64_MAX then 0 else x + 1
  }

  const GREETER_PROTOCOL_VERSION := 2
  const MAX_GREETER_PAYLOAD_BYTES := 48 * 1024
  const MAX_PROMPT_BYTES := 4096

  datatype Style = PromptEchoOff | PromptEchoOn | Informational | Error

  datatype Reply = Secret(secret: string) | Answer(text: string) | NoReply

  /** Everything that ties a message to one login: connection, epoch, seat, request, transaction, conversation. */
  datatype Route = Route(
    connectionId: string, connectionEpoch: U64, seat: string, requestId: U64, transactionId: string,
    conversationId: string)

  datatype Prompt = Prompt(
    version: nat, messageType: string, route: Route, promptId: U64, sequence: U64, style: Style,
    payloadLen: nat, message: string)

  datatype Response = Response(
    version: nat, messageType: string, route: Route, promptId: U64, sequence: U64, style: Style,
    payloadLen: nat, reply: Reply)

  predicate RouteShape(route: Route) {
    route.requestId != 0 && route.connectionEpoch != 0 && route.transactionId != "" && route.seat != "" &&
        route.conversationId != ""
  }

  predicate PromptShape(p: Prompt) {
    && p.version == GREETER_PROTOCOL_VERSION && p.messageType == "pam_prompt" && RouteShape(p.route)
    && p.sequence != 0 && p.promptId != 0
    && p.message != "" && Bytes(p.message) <= MAX_PROMPT_BYTES && '\0' !in p.message
    && Bytes(p.message) == p.payloadLen && Bytes(p.message) <= MAX_GREETER_PAYLOAD_BYTES
  }

  /** Bytes of a JSON string body: quotes, backslashes and controls are escaped. */
  function JsonBytes(s: string): nat {
    if s == "" then 0
    else
      var code := s[0] as int;
      JsonBytes(s[1..]) +
      if code == 0x22 || code == 0x5c || code == 8 || code == 9 || code == 10 || code == 12 || code == 13 then 2
      else if code < 0x20 then 6 else Width(s[0])
  }

  /** Length of the serialised reply: `{"Secret":"..."}`, `{"Text":"..."}` or `"None"`. */
  function EncodedLen(reply: Reply): nat {
    match reply
    case Secret(s) => 13 + JsonBytes(s)
    case Answer(t) => 11 + JsonBytes(t)
    case NoReply => 6
  }

  predicate BoundedText(s: string) {
    s != "" && Bytes(s) <= MAX_PROMPT_BYTES && '\0' !in s
  }

  /** Whether a reply is of the kind its style asks for. */
  predicate ReplyFits(style: Style, reply: Reply) {
    match style
    case PromptEchoOff => reply.Secret? && BoundedText(reply.secret)
    case PromptEchoOn => reply.Answer? && BoundedText(reply.text)
    case _ => reply.NoReply?
  }

  predicate ResponseShape(r: Response) {
    && r.version == GREETER_PROTOCOL_VERSION && r.messageType == "pam_prompt_response" && RouteShape(r.route)
    && r.sequence != 0 && r.promptId != 0
    && EncodedLen(r.reply) == r.payloadLen && EncodedLen(r.reply) <= MAX_GREETER_PAYLOAD_BYTES
    && ReplyFits(r.style, r.reply)
  }

  /** A response that carries the full correlation of a prompt. */
  predicate Answers(p: Prompt, r: Response) {
    r.route == p.route && r.promptId == p.promptId && r.sequence == p.sequence && r.style == p.style
  }

  datatype WorkerTransaction = WorkerTransaction(
    transactionId: string, attemptId: U64, lifecycleId: string, seat: string, seatGeneration: U64,
    stage: string)

  datatype ControlTransaction = ControlTransaction(
    transactionId: string, attemptId: U64, lifecycleId: string, seat: string, seatGeneration: U64,
    stage: string, sequence: U64)

  function FromWorker(t: WorkerTransaction, stage: string, sequence: U64): ControlTransaction {
    ControlTransaction(t.transactionId, t.attemptId, t.lifecycleId, t.seat, t.seatGeneration, stage, sequence)
  }

  predicate MatchesWorker(c: ControlTransaction, t: WorkerTransaction, stage: string, sequence: U64) {
    && c.transactionId == t.transactionId && c.attemptId == t.attemptId && c.lifecycleId == t.lifecycleId
    && c.seat == t.seat && c.seatGeneration == t.seatGeneration && c.stage == stage && c.sequence == sequence
  }

  predicate ValidTransaction(t: WorkerTransaction, workerId: string, generation: U64, attemptId: U64, stage: string) {
    && t.transactionId == workerId && t.lifecycleId == workerId && t.attemptId == attemptId
    && t.seat == "seat0" && t.seatGeneration == generation && t.stage == stage
  }
}
