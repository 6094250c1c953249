/**
 * A launch that goes well: which streams of worker messages reach their response, with which effects,
 * and exactly when the started session is promoted.
 */
module LaunchOrdinary {
  import opened Text
  import opened PamProtocol
  import PamAuthority
  import opened ScopeIdentity
  import opened LaunchHandshake
  import PamRelay
  import PamAnswers

  /** The transaction a worker of this launch names at a stage. */
  function Named(l: PamRelay.Launcher, stage: string): WorkerTransaction {
    WorkerTransaction(l.workerId, l.attemptId, l.workerId, "seat0", l.generation, stage)
  }

  lemma NamedIsValid(l: PamRelay.Launcher, t: WorkerTransaction, stage: string)
    ensures ValidTransaction(t, l.workerId, l.generation, l.attemptId, stage) <==> t == Named(l, stage)
  {
  }

  // ---------------------------------------------------------------- the stream

  function Sent(m: WorkerMessage): Incoming {
    Envelope(14, m)
  }

  predicate IsPrompt(input: Input) {
    input.incoming.Envelope? && input.incoming.version == 14 && input.incoming.message.PromptMsg?
  }

  /** The launcher after an answered prompt. */
  function Counted(l: PamRelay.Launcher): PamRelay.Launcher {
    l.(authority := l.authority.(nextSequence := WrappingNext(l.authority.nextSequence)))
  }

  /** Prompts that can all be relayed, one after the other. */
  predicate AllRelayable(l: PamRelay.Launcher, prompts: seq<Input>)
    decreases |prompts|
  {
    prompts != [] ==>
      && IsPrompt(prompts[0])
      && PamAnswers.Relayable(l, prompts[0].incoming.message.prompt, prompts[0].answers.relay)
      && AllRelayable(Counted(l), prompts[1..])
  }

  function CountedAll(l: PamRelay.Launcher, n: nat): PamRelay.Launcher
    decreases n
  {
    if n == 0 then l else CountedAll(Counted(l), n - 1)
  }

  function Relays(prompts: seq<Input>): seq<Event> {
    if prompts == [] || !IsPrompt(prompts[0]) then []
    else [PromptRelayed(prompts[0].incoming.message.prompt.prompt)] + Relays(prompts[1..])
  }

  /** What the worker says about the scope it prepared. */
  datatype ScopeNews = ScopeNews(sessionPid: nat, nonce: string, identity: Identity)

  predicate GoodNews(n: ScopeNews) {
    n.sessionPid != 0 && n.nonce != "" && Bytes(n.nonce) <= 128 && Valid(n.identity)
  }

  function ScopeMessage(l: PamRelay.Launcher, n: ScopeNews): WorkerMessage {
    ScopePreparedMsg(l.workerId, Named(l, "scope_prepared"), l.workerPid, n.sessionPid, n.nonce, n.identity)
  }

  predicate Stored(a: Answers) {
    a.prepareOk && a.persistOk && a.ackOk && a.markOk
  }

  /** Preparing, the prompts, the scope, and a message that ends the wait; anything may follow. */
  function Stream(l: PamRelay.Launcher, a0: Answers, prompts: seq<Input>, news: ScopeNews, a1: Answers,
      last: WorkerMessage, a2: Answers, later: seq<Input>): seq<Input> {
    [Input(Sent(PreparingMsg(l.workerId, Named(l, "preparing"))), a0)]
    + (prompts + ([Input(Sent(ScopeMessage(l, news)), a1), Input(Sent(last), a2)] + later))
  }

  /** The launch once its scope is registered. */
  function Registered(l: PamRelay.Launcher, news: ScopeNews): Launch {
    Launch(ScopeRegistered(news.identity, news.nonce), Some(Named(l, "scope_prepared")), l,
      Entry(PayloadRegistered(news.identity, news.nonce, news.sessionPid), NotRequested, false))
  }

  function ScopeEffects(l: PamRelay.Launcher, news: ScopeNews): seq<Event> {
    [ScopeRecorded(news.identity, news.nonce),
     ScopeAcknowledged(news.nonce,
       ControlTransaction(l.workerId, l.attemptId, l.workerId, "seat0", l.generation, "scope_registered", 1)),
     RegistrationMarked]
  }

  // ---------------------------------------------------------------- turn by turn

  lemma PreparingTurn(l: PamRelay.Launcher, a: Answers)
    ensures Turn(Begin(l), Sent(PreparingMsg(l.workerId, Named(l, "preparing"))), a)
      == Outcome(Begin(l).(phase := Preparing), Continue, [PreparingSeen])
  {
  }

  lemma PromptTurn(launch: Launch, input: Input)
    requires launch.phase == Preparing && IsPrompt(input)
    requires PamAnswers.Relayable(launch.relay, input.incoming.message.prompt, input.answers.relay)
    ensures Turn(launch, input.incoming, input.answers)
      == Outcome(launch.(relay := Counted(launch.relay)), Continue,
                 [PromptRelayed(input.incoming.message.prompt.prompt)])
  {
    PamAnswers.RelaysExactly(launch.relay, input.incoming.message.prompt, input.answers.relay);
  }

  lemma ScopeTurn(launch: Launch, l: PamRelay.Launcher, news: ScopeNews, a: Answers)
    requires launch.phase == Preparing && launch.entry == Entry(WorkerSpawned, NotRequested, false)
    requires launch.relay == l && GoodNews(news) && Stored(a)
    ensures Turn(launch, Sent(ScopeMessage(l, news)), a)
      == Outcome(Registered(l, news), Continue, ScopeEffects(l, news))
  {
    NamedIsValid(l, Named(l, "scope_prepared"), "scope_prepared");
  }

  lemma WaitTurn(launch: Launch, input: Input, rest: seq<Input>, log: seq<Event>)
    ensures var o := Turn(launch, input.incoming, input.answers);
      Wait(launch, [input] + rest, log) ==
        if o.flow.Continue? then Wait(o.launch, rest, log + o.effects) else o.(effects := log + o.effects)
  {
    assert ([input] + rest)[1..] == rest;
  }

  lemma {:induction false} WaitPrompts(launch: Launch, prompts: seq<Input>, rest: seq<Input>, log: seq<Event>)
    requires launch.phase == Preparing && AllRelayable(launch.relay, prompts)
    ensures Wait(launch, prompts + rest, log)
      == Wait(launch.(relay := CountedAll(launch.relay, |prompts|)), rest, log + Relays(prompts))
    decreases |prompts|
  {
    hide Turn, PamAnswers.Relayable;
    if prompts == [] {
      assert prompts + rest == rest && log + Relays(prompts) == log;
    } else {
      assert prompts + rest == [prompts[0]] + (prompts[1..] + rest);
      WaitTurn(launch, prompts[0], prompts[1..] + rest, log);
      PromptTurn(launch, prompts[0]);
      var event := [PromptRelayed(prompts[0].incoming.message.prompt.prompt)];
      WaitPrompts(launch.(relay := Counted(launch.relay)), prompts[1..], rest, log + event);
      assert log + event + Relays(prompts[1..]) == log + Relays(prompts);
    }
  }

  lemma {:induction false} CountedKeepsNames(l: PamRelay.Launcher, n: nat)
    ensures var c := CountedAll(l, n);
      && c == l.(authority := l.authority.(nextSequence := c.authority.nextSequence))
      && (l.authority.nextSequence + n <= U64_MAX ==> c.authority.nextSequence == l.authority.nextSequence + n)
    decreases n
  {
    if n > 0 {
      CountedKeepsNames(Counted(l), n - 1);
    }
  }

  /** A message that ends the wait by itself. */
  predicate EndsTheWait(m: WorkerMessage) {
    m.StartedMsg? || m.OtherTerminal?
  }

  /**
   * The ordinary launch: a worker that says preparing, asks any number of prompts that can be relayed,
   * names a good scope while storage and channel work, and then ends the wait. Whatever follows, the
   * launch hands out that last message, its effects are exactly these, and its scope is registered.
   */
  lemma OrdinaryLaunch(l: PamRelay.Launcher, a0: Answers, prompts: seq<Input>, news: ScopeNews, a1: Answers,
      last: WorkerMessage, a2: Answers, later: seq<Input>)
    requires AllRelayable(l, prompts) && GoodNews(news) && Stored(a1) && EndsTheWait(last)
    ensures Launched(l, Stream(l, a0, prompts, news, a1, last, a2, later))
      == Outcome(Registered(CountedAll(l, |prompts|), news), Break(Some(last)),
                 [PreparingSeen] + Relays(prompts) + ScopeEffects(l, news))
  {
    hide Wait, Turn, PamAnswers.Relayable, Relays;
    var counted := CountedAll(l, |prompts|);
    var ending := [Input(Sent(ScopeMessage(l, news)), a1), Input(Sent(last), a2)] + later;
    var preparing := Begin(l).(phase := Preparing);
    WaitTurn(Begin(l), Input(Sent(PreparingMsg(l.workerId, Named(l, "preparing"))), a0), prompts + ending, []);
    PreparingTurn(l, a0);
    assert [] + [PreparingSeen] == [PreparingSeen];
    WaitPrompts(preparing, prompts, ending, [PreparingSeen]);
    CountedKeepsNames(l, |prompts|);
    var log := [PreparingSeen] + Relays(prompts);
    assert ending == [Input(Sent(ScopeMessage(l, news)), a1)] + ([Input(Sent(last), a2)] + later);
    WaitTurn(preparing.(relay := counted), Input(Sent(ScopeMessage(l, news)), a1),
      [Input(Sent(last), a2)] + later, log);
    ScopeTurn(preparing.(relay := counted), counted, news, a1);
    WaitTurn(Registered(counted, news), Input(Sent(last), a2), later, log + ScopeEffects(l, news));
    LastTurn(Registered(counted, news), last, a2);
    assert log + ScopeEffects(l, news) + [] == log + ScopeEffects(l, news);
  }

  lemma LastTurn(launch: Launch, last: WorkerMessage, a: Answers)
    requires EndsTheWait(last)
    ensures Turn(launch, Sent(last), a) == Outcome(launch, Break(Some(last)), [])
  {
  }

  // ---------------------------------------------------------------- promotion

  /** Everything the started message, the completion and the recorded scope must agree on. */
  predicate Promotable(launch: Launch, m: WorkerMessage, expected: StartedSession, c: Completion) {
    && m.StartedMsg? && m.session == expected && m.fixtureVersion in {1, 2} && m.sessionPgid == m.sessionPid
    && m.workerId in {launch.relay.workerId, ""} && m.transaction == Named(launch.relay, "started")
    && launch.phase.ScopeRegistered? && m.logindSessionId == launch.phase.identity.logindSessionId
    && launch.entry.state.PayloadRegistered? && launch.entry.state.identity == launch.phase.identity
    && launch.entry.state.leaderPid == m.sessionPid && launch.entry.release == NotRequested && !launch.entry.terminal
    && c.writerOk && c.workerAlive && c.commitOk
    && !launch.relay.authority.consumed && c.now < launch.relay.authority.deadline
  }

  /** A started launch is promoted if and only if all of that holds, as the scope it registered. */
  lemma PromotesExactly(o: Outcome, expected: StartedSession, c: Completion)
    ensures Promote(o, expected, c).Some? <==>
      && o.flow.Break? && o.flow.response.Some?
      && Promotable(o.launch, o.flow.response.value, expected, c)
    ensures Promote(o, expected, c).Some? ==>
      Promote(o, expected, c).value == Promotion(o.launch.phase.identity, o.launch.phase.nonce,
        o.flow.response.value.sessionPid, o.launch.relay.authority.(consumed := true))
  {
    if o.flow.Break? && o.flow.response.Some? && o.flow.response.value.StartedMsg? {
      NamedIsValid(o.launch.relay, o.flow.response.value.transaction, "started");
    }
  }

  /** The started message of an ordinary launch that agrees with its scope. */
  function Started(l: PamRelay.Launcher, news: ScopeNews, session: StartedSession): WorkerMessage {
    StartedMsg(session, news.sessionPid, news.sessionPid, 1, l.workerId, news.identity.logindSessionId,
      Named(l, "started"))
  }

  /**
   * From the first message to the running session: an ordinary launch whose started message agrees with
   * its scope is promoted with the identity, the nonce and the pid that were recorded.
   */
  lemma OrdinaryLaunchIsPromoted(l: PamRelay.Launcher, a0: Answers, prompts: seq<Input>, news: ScopeNews, a1: Answers,
      a2: Answers, later: seq<Input>, session: StartedSession, now: nat)
    requires AllRelayable(l, prompts) && GoodNews(news) && Stored(a1)
    requires !l.authority.consumed && now < l.authority.deadline
    ensures var o := Launched(l, Stream(l, a0, prompts, news, a1, Started(l, news, session), a2, later));
      Promote(o, session, Completion(true, true, now, true))
        == Some(Promotion(news.identity, news.nonce, news.sessionPid,
                          CountedAll(l, |prompts|).authority.(consumed := true)))
  {
    hide Wait, Launched, Promote, PamAnswers.Relayable;
    OrdinaryLaunch(l, a0, prompts, news, a1, Started(l, news, session), a2, later);
    CountedKeepsNames(l, |prompts|);
    PromotesExactly(Launched(l, Stream(l, a0, prompts, news, a1, Started(l, news, session), a2, later)), session,
      Completion(true, true, now, true));
  }

  // ---------------------------------------------------------------- release of the registered scope

  /** The request that asks for the release of exactly this scope. */
  function ReleaseOf(l: PamRelay.Launcher, news: ScopeNews, releaseNonce: string): ControlRequest {
    ReleaseRequested(
      ControlTransaction(l.workerId, l.attemptId, l.workerId, "seat0", l.generation, "scope_release_requested", 2),
      l.workerId, l.workerPid, news.nonce, releaseNonce, news.identity)
  }

  /** A release of the registered scope is begun, completed and answered with the verdict, and the wait goes on. */
  lemma OrdinaryRelease(l: PamRelay.Launcher, news: ScopeNews, releaseNonce: string, a: Answers)
    requires releaseNonce != "" && Bytes(releaseNonce) <= 128
    requires a.control == Some(ReleaseOf(l, news, releaseNonce)) && a.completeOk && a.replyOk
    ensures var o := Turn(Registered(l, news), Sent(ReleaseReadyMsg(l.workerId)), a);
      var stage := if a.verdict == Verdict.Released then "scope_released" else "scope_recovery_required";
      && o.flow == Continue
      && o.launch == Registered(l, news).(entry :=
           if a.verdict == Verdict.Released
           then Entry(PayloadReleased(news.identity), Requested(releaseNonce), false)
           else Entry(PayloadRegistered(news.identity, news.nonce, news.sessionPid), Release.RecoveryRequired, true))
      && o.effects == [ReleaseBegun(news.identity, news.nonce, releaseNonce), ReleaseCompleted(a.verdict),
           ReleaseAnswered(a.verdict, releaseNonce,
             ControlTransaction(l.workerId, l.attemptId, l.workerId, "seat0", l.generation, stage, 3))]
  {
  }

  // ---------------------------------------------------------------- a scope that is not taken

  /** How the turn of a good scope ends when storage or channel fail: the first failure decides. */
  function Failed(l: PamRelay.Launcher, news: ScopeNews, a: Answers): Outcome {
    var before := Launch(Preparing, None, l, Entry(Quarantined, NotRequested, !a.prepareOk));
    var prepared := Registered(l, news).(
      entry := Entry(PayloadPrepared(news.identity, news.nonce, news.sessionPid), NotRequested, false));
    if !a.prepareOk || !a.persistOk then Outcome(before, Abort, [])
    else if !a.ackOk then Outcome(prepared, Break(None), ScopeEffects(l, news)[..2])
    else Outcome(Registered(l, news), Abort, ScopeEffects(l, news)[..2])
  }

  lemma FailedTurn(launch: Launch, l: PamRelay.Launcher, news: ScopeNews, a: Answers)
    requires launch == Begin(l).(phase := Preparing) && GoodNews(news) && !Stored(a)
    ensures Turn(launch, Sent(ScopeMessage(l, news)), a) == Failed(l, news, a)
  {
    NamedIsValid(l, Named(l, "scope_prepared"), "scope_prepared");
  }

  /**
   * The same launch when storage or channel fail at the scope: it ends there, whatever the worker would
   * have said. What was not stored is quarantined, unacknowledged, and what was stored stays recorded.
   */
  lemma FailedLaunch(l: PamRelay.Launcher, a0: Answers, prompts: seq<Input>, news: ScopeNews, a1: Answers,
      last: WorkerMessage, a2: Answers, later: seq<Input>)
    requires AllRelayable(l, prompts) && GoodNews(news) && !Stored(a1)
    ensures var o := Failed(CountedAll(l, |prompts|), news, a1);
      Launched(l, Stream(l, a0, prompts, news, a1, last, a2, later))
        == o.(effects := [PreparingSeen] + Relays(prompts) + o.effects)
  {
    hide Wait, Turn, PamAnswers.Relayable, Relays;
    var counted := CountedAll(l, |prompts|);
    var scope, rest := Input(Sent(ScopeMessage(l, news)), a1), [Input(Sent(last), a2)] + later;
    var preparing := Begin(l).(phase := Preparing);
    assert [scope, Input(Sent(last), a2)] + later == [scope] + rest;
    var hello := Input(Sent(PreparingMsg(l.workerId, Named(l, "preparing"))), a0);
    WaitTurn(Begin(l), hello, prompts + ([scope] + rest), []);
    PreparingTurn(l, a0);
    assert [] + [PreparingSeen] == [PreparingSeen];
    WaitPrompts(preparing, prompts, [scope] + rest, [PreparingSeen]);
    CountedKeepsNames(l, |prompts|);
    WaitTurn(preparing.(relay := counted), scope, rest, [PreparingSeen] + Relays(prompts));
    FailedTurn(preparing.(relay := counted), counted, news, a1);
  }
}
