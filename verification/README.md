# Niralis, modelled and proved in Dafny

Niralis is a display manager: a daemon authenticates a user through PAM, starts a privileged worker,
and the worker puts the session into a transient systemd scope that it later has to prove empty. This
project models the parts of it where a mistake would be hard to see by reading: protocols that run
between two processes, proofs that are made while the world changes, state machines that must clean
up on every way out, and parsers that must undo each other. Main results hold for every input, every
run and every answer of the environment.

Everything outside the program is an arbitrary answer: systemd, the kernel, libpam, sockets, storage,
clocks and the other process. Where a result needs a law of the outside world, the law is a named
predicate (`EmptyProof.Lawful`, `EmptyProof.RemovedForGood`, `ReleaseVerifier.FindsOnly`,
`ReleaseVerifier.ExitedIsFinal`, `ReleaseVerifier.FlagTells`, `VirtualTerminal.Ticking`) and a `requires`.

Code that updates fields or loops over variables is a class or a method with a loop, proved equal to a
function on values; the theorems are about that function. Ghost out-parameters and logs record the
calls made on the outside world, in order.

| file | what it models |
|---|---|
| `DesktopValue.dfy`, `DesktopEntry.dfy` | escapes and lines of session files |
| `ExecParser.dfy`, `ExecQuoting.dfy`, `ExecWords.dfy` | the `Exec` scanner, its limits, its inverse, and what every well-written line parses to |
| `PamProtocol.dfy`, `PamAuthority.dfy`, `PamRelay.dfy`, `PamAnswers.dfy` | the PAM conversation: messages, the launcher's authority, the worker and launcher running together, and which answers reach PAM |
| `LaunchHandshake.dfy`, `LaunchOrdinary.dfy` | the launcher's loop over worker messages, the supervisor's entry, promotion; launches that go well or fail at the scope |
| `ScopeIdentity.dfy`, `ScopeWorld.dfy` | scope names; the environment a scope is observed in, instant by instant |
| `EmptyProof.dfy`, `ReleaseVerifier.dfy`, `FixedWorlds.dfy` | the worker's proof of an empty boundary and the supervisor's independent verdict; exactly when each gives which answer |
| `ScopePin.dfy` | creating, pinning, cleaning and releasing a scope |
| `Termination.dfy`, `TerminationRequests.dfy`, `TerminationOutcomes.dfy` | forced and graceful termination, and the exact condition of every ending |
| `VirtualTerminal.dfy`, `PamTransaction.dfy` | releasing a terminal; the life of a PAM handle |
| `OrderedSets.dfy`, `Groups.dfy`, `Isolation.dfy` | supplementary groups, privilege drop, capability and descriptor audit |
| `RateLimiter.dfy`, `Framing.dfy`, `Cancellation.dfy` | the daemon's rate limiter, frames, and login cancellation over many connections |

Eight statements one would expect turn out to be false of the code in general. Each has a lemma at a
failing input and a theorem that gives the exact condition for all inputs:

| statement | failing input | exact condition |
|---|---|---|
| parsing undoes quoting for every vector within the argument limits | `ExecQuoting.QuotedFormTooLong`: two arguments at their limit | `ExecQuoting.ParseUndoesQuoting`: the quoted form fits as well |
| the supervisor releases what the worker proved empty | `ReleaseVerifier.ProvedButNotReleased`: nothing resolves, the empty cgroup is left over | `ReleaseVerifier.VerifierAgreesWithProof`: the unit resolves or the directory is gone |
| a released boundary is ended and empty | `ReleaseVerifier.ReleasedButPopulated`: no member of its own, a populated cgroup below | `ReleaseVerifier.ReleasedIsStableExactly`: the directory is gone or its events file says empty |
| a scope reference is dropped at most once | `ScopePin.ReleasedThenCleaned`: a release, then a consuming cleanup | `ScopePin.HeldPinCleansUpOnce`: the pin is held when the consuming cleanup starts |
| graceful termination sends at most one SIGTERM | `TerminationRequests.TwoSignals`: two begins that lose the unit after their signal | `TerminationRequests.AtMostOneTerm`: no two begins signal before one has started |
| a PAM handle is never used after its end | `PamTransaction.SecondOpenAfterRollback`: a refused open, then another | `PamTransaction.EveryLifeInOrder`: no open reaches libpam after one that was rolled back |
| a login is cancelled at most once | `Cancellation.CancelledTwiceAfterWrap`: more than 2^64 connections, two of which share an id | `Cancellation.CancelledOnceExactly`: at most 2^64 connections |
| every well-formed answer of the greeter reaches PAM | `PamRelay.LongestSecretIsNotRelayed`: a secret of 4096 bytes | `PamRelay.ForwardSucceeds`: among its conditions, the control frame with the answer is within 4096 bytes |

The prompt counter of the PAM authority wraps. Through the launcher this cannot repeat a number, because
its shape check refuses sequence zero (`PamRelay.LauncherNeverRepeats`). The authority's typed interface,
which the launcher does not call, has no such check: there 2^64 prompts are the exact bound
(`PamAuthority.DistinctUpToTheWrap`, with `PamAuthority.SequencesRepeatAfterWrap` beyond it).

## Model

| member | source | states |
|---|---|---|
| DesktopValue.DecodeValue | crates/niralis-discovery/src/sessions/desktop_entry.rs:117-140 | the decoding loop computes the recursive meaning of an escaped value, including every refusal |
| DesktopValue.DecodeUndoesDoubling | crates/niralis-discovery/src/sessions/desktop_entry.rs:117-140 | decoding a value whose backslashes were doubled returns the value, for every string |
| DesktopValue.DecodedNeverGrows | crates/niralis-discovery/src/sessions/desktop_entry.rs:117-140 | a decoded value is never longer than its source |
| DesktopValue.DecodeUndoesEscaping | crates/niralis-discovery/src/sessions/desktop_entry.rs:117-140 | decoding undoes the escaping of blanks, newlines, tabs, carriage returns and backslashes, for every string |
| DesktopValue.EscapesExactly | crates/niralis-discovery/src/sessions/desktop_entry.rs:117-140 | after any escaped text, a quote, dollar or backquote keeps its backslash, and any unknown escape or a last lone backslash refuses the value |
| DesktopEntry.ReadAssignment | crates/niralis-discovery/src/sessions/desktop_entry.rs:96-112 | one line is split at its first equals sign, trimmed and decoded; an empty key or a bad escape refuses it |
| DesktopEntry.DesktopEntryFields | crates/niralis-discovery/src/sessions/desktop_entry.rs:86-115 | the loop over lines computes the fold over them: only lines inside the entry group count and a bad line refuses the file |
| DesktopEntry.ReadAfter | crates/niralis-discovery/src/sessions/desktop_entry.rs:86-115 | a line appended to a terminated file is read in the state the file leaves |
| DesktopEntry.LinesReadBack | crates/niralis-discovery/src/sessions/desktop_entry.rs:86-115 | any list of lines, terminated by either line ending, reads back as that list |
| DesktopEntry.HeadersExactly | crates/niralis-discovery/src/sessions/desktop_entry.rs:95-98 | a header opens the entry group if it names it and closes it otherwise |
| DesktopEntry.CommentsAreSkipped | crates/niralis-discovery/src/sessions/desktop_entry.rs:90-94 | comments of both kinds and empty lines change nothing |
| DesktopEntry.OtherGroupsAreSkipped | crates/niralis-discovery/src/sessions/desktop_entry.rs:90-101 | outside the entry group every line that is no header is skipped, however malformed |
| DesktopEntry.MalformedLinesAreRefused | crates/niralis-discovery/src/sessions/desktop_entry.rs:103-110 | inside it a line without an equals sign or with an empty key refuses the file |
| DesktopEntry.TrimSplits | crates/niralis-discovery/src/sessions/desktop_entry.rs:91-111 | trimming takes off exactly the white space at both ends |
| DesktopEntry.RequiredFieldExactly | crates/niralis-discovery/src/sessions/desktop_entry.rs:154-161 | a required field is missing if and only if it is absent or blank, and otherwise is its value without the white space around it |
| ExecParser.ParseExec | crates/niralis-discovery/src/sessions/launch.rs:42-129 | the scanner's loop over its four variables computes the recursive scan, with all limits and refusals |
| ExecParser.RunConserves | crates/niralis-discovery/src/sessions/launch.rs:52-99 | from every coherent state the scan stays coherent, control-free and within the per-argument limits, and commits no more bytes than it reads |
| ExecParser.ScanConservesBytes | crates/niralis-discovery/src/sessions/launch.rs:42-107 | argument bytes plus one terminator each never exceed the input's bytes plus one |
| ExecParser.ArgvLimitIsRedundant | crates/niralis-discovery/src/sessions/launch.rs:100-106 | the 16 KiB check can never fail after the 8 KiB check passed |
| ExecParser.AcceptedArguments | crates/niralis-discovery/src/sessions/launch.rs:42-129 | an accepted vector is non-empty, within the limits, and free of NUL and control characters |
| ExecWords.LineParsesToItsWords | crates/niralis-discovery/src/sessions/launch.rs:42-129 | a line of words, each made of any unquoted and quoted stretches, with doubled percent signs and any blanks around them, parses to exactly those words if and only if there is one, all are within the argument limits and the line within its own |
| ExecWords.PlainWordsParse | crates/niralis-discovery/src/sessions/launch.rs:42-129 | words without blanks, quotes, backslashes, percent signs and controls, separated by any number of spaces, parse to those words within the limits |
| ExecWords.MalformedRestIsRefused | crates/niralis-discovery/src/sessions/launch.rs:52-107 | after any well-written words, a control, a backslash, a lone percent sign, a bad escape in quotes or an unclosed quote refuses the line |
| ExecQuoting.ParseUndoesQuoting | crates/niralis-discovery/src/sessions/launch.rs:42-129 | parsing the quoted form returns the vector if and only if the vector is representable |
| ExecQuoting.QuotedFormTooLong | crates/niralis-discovery/src/sessions/launch.rs:42-49 | two control-free arguments at their limit do not come back, because their quoted form is too long |
| ExecQuoting.DecodeQuoted | crates/niralis-discovery/src/sessions/desktop_entry.rs:117-140 | what decoding makes of a quoted vector that was not doubled |
| ExecQuoting.DecodeKeepsQuotedForm | crates/niralis-discovery/src/sessions/desktop_entry.rs:117-140 | decoding leaves a quoted vector unchanged if and only if no argument has a backslash |
| ExecQuoting.ExecLineIsRead | crates/niralis-discovery/src/sessions/desktop_entry.rs:86-115 | the written line is one line and sets exactly the Exec field to the quoted vector |
| ExecQuoting.SessionFileRoundTrip | crates/niralis-discovery/src/sessions/desktop_entry.rs:26-48 | appending the written line to any file of complete lines that ends inside its entry group makes its Exec field parse to the vector and keeps all other fields if the file is then within 64 KiB, and is refused otherwise |
| PamAuthority.Respond | crates/niralis-session/src/pam_conversation.rs:191-232 | a typed reply is accepted if and only if the authority is not consumed, it names the prompt, style, transaction, connection, epoch and worker, and it fits the style; it is then passed on unchanged |
| PamAuthority.PamConversationAuthority.AcceptWirePrompt | crates/niralis-session/src/pam_wire.rs:2-24 | the authority after a wire prompt, accepted or refused |
| PamAuthority.PamConversationAuthority.AcceptWireResponse | crates/niralis-session/src/pam_wire.rs:26-51 | the authority after a wire response, accepted or refused |
| PamAuthority.PamConversationAuthority.TypedPromptCall | crates/niralis-session/src/pam_conversation.rs:133-164 | the authority after a typed prompt |
| PamAuthority.PamConversationAuthority.Fail | crates/niralis-session/src/pam_conversation.rs:166-169 | failing consumes the authority |
| PamAuthority.PamConversationAuthority.Authenticated | crates/niralis-session/src/pam_conversation.rs:171-183 | success consumes the authority unless it is consumed already or past its deadline; a pending prompt is not looked at |
| PamAuthority.RunNumbersPrompts | crates/niralis-session/src/pam_conversation.rs:133-183 | over any mix of typed and wire calls the accepted sequences are consecutive from the first expected one, modulo 2^64 |
| PamAuthority.FreshAuthorityNumbersFromOne | crates/niralis-session/src/pam_wire.rs:2-51 | from a fresh authority they are 1, 2, 3 and so on, and none is accepted twice if and only if at most 2^64 are accepted |
| PamAuthority.SequencesRepeatAfterWrap | crates/niralis-session/src/pam_conversation.rs:133-164 | through the typed interface 2^64 + 1 prompts, each answered, are all accepted and repeat a sequence |
| PamAuthority.DistinctUpToTheWrap | crates/niralis-session/src/pam_conversation.rs:133-164 | of the authority by itself: every run of n prompt calls accepts pairwise distinct sequences if and only if n is at most 2^64 |
| PamAuthority.RunAlternates | crates/niralis-session/src/pam_wire.rs:2-51 | accepted wire prompts and responses strictly alternate and each response answers the pending prompt on the authority's route |
| PamAuthority.ConsumedAcceptsNothing | crates/niralis-session/src/pam_wire.rs:2-51 | a consumed authority accepts nothing in any later run |
| PamAuthority.ExpiredAcceptsNoPrompt | crates/niralis-session/src/pam_wire.rs:2-51 | past the deadline no run accepts a prompt or a wire response |
| PamRelay.LauncherEnd.ForwardPamPrompt | crates/niralis-session/src/launcher/pam_prompt.rs:2-51 | the launcher's checks, the authority's two steps and the send, in order |
| PamRelay.LauncherNeverRepeats | crates/niralis-session/src/launcher/pam_prompt.rs:15-28 | over every list of messages and surroundings the sequences the launcher admits are consecutive, end at 2^64 - 1 at the latest and never repeat; a launcher that expects zero admits nothing |
| PamRelay.ForwardSucceeds | crates/niralis-session/src/launcher/pam_prompt.rs:15-51 | with both ends set up alike and nothing pending, a prompt is relayed if and only if it has no NUL, the greeter answers it in shape and in time, and the control frame fits and is taken |
| PamRelay.RelayedReplyIsSmall | crates/niralis-session/src/worker_io.rs:37-55 | a relayed answer is at most 4093 bytes once serialised, since its frame is at most 4095 |
| PamRelay.LongestSecretIsNotRelayed | crates/niralis-session/src/worker_io.rs:47-49 | a secret of the longest length a prompt allows is never relayed |
| PamRelay.WorkerPamConversationDriver.Respond | crates/niralis-session-worker/src/runtime/pam_conversation.rs:41-92 | one PAM callback on the worker, through the channel and the launcher |
| PamRelay.ExchangeInLockstep | crates/niralis-session-worker/src/runtime/pam_conversation.rs:41-92 | in step k an exchange succeeds if and only if the greeter answers this prompt in time and nothing on the way fails, and then both sides are in step k+1 |
| PamRelay.FailureDesynchronises | crates/niralis-session-worker/src/runtime/pam_conversation.rs:41-92 | a failed exchange leaves the two sides out of step |
| PamRelay.DesynchronisedForever | crates/niralis-session-worker/src/runtime/pam_conversation.rs:41-92 | out of step, every further exchange fails, even with replies left in the channel |
| PamRelay.AnswersFormAPrefix | crates/niralis-session/src/launcher/pam_prompt.rs:15-51 | in every run the answers given to PAM form a prefix of the calls; the k-th carries the k-th prompt's full binding and style, and a run without failure ends in step |
| PamAnswers.EncodedLenIsTheLength | crates/niralis-protocol/src/pam.rs:82-84 | the length counted for a reply is the length of the JSON it is sent as |
| PamAnswers.SecretReachesPam | crates/niralis-session-worker/src/runtime/pam_conversation.rs:41-92 | with both sides set up alike and nothing failing, every non-empty, NUL-free secret within the limits answers a password prompt, and PAM gets that secret |
| PamAnswers.TextReachesPam | crates/niralis-session-worker/src/runtime/pam_conversation.rs:41-92 | likewise every such text answers a visible prompt |
| PamAnswers.MessageIsConfirmed | crates/niralis-session-worker/src/runtime/pam_conversation.rs:41-92 | likewise an information or an error is answered by no reply |
| PamAnswers.AnswersAreOfTheirKind | crates/niralis-protocol/src/pam.rs:131-139 | in every run, whatever the greeter does, PAM gets secrets for password prompts, texts for visible prompts and no reply for messages |
| PamAnswers.TypedReplyByKind | crates/niralis-session/src/pam_conversation.rs:191-232 | the typed interface takes a reply with the right names if and only if the authority is not consumed and the reply is of that kind |
| PamAnswers.RelaysExactly | crates/niralis-session/src/launcher/pam_prompt.rs:15-51 | the launcher relays a prompt if and only if message, prompt, authority, answer and surroundings agree field by field, and then only its counter moves |
| LaunchHandshake.WaitLaunchResponse | crates/niralis-session/src/launcher/launch_protocol.rs:3-223 | the launcher's loop over worker messages computes the launch state, its flow and its effects |
| LaunchHandshake.TurnKeepsOrder | crates/niralis-session/src/launcher/launch_protocol.rs:20-223 | every message keeps the phase, the supervisor's entry and the effects so far in agreement |
| LaunchHandshake.WaitKeepsOrder | crates/niralis-session/src/launcher/launch_protocol.rs:20-223 | so does every stream of messages |
| LaunchHandshake.LegalLog | crates/niralis-session/src/launcher/launch_protocol.rs:20-223 | a legal log records and acknowledges at most one scope, acknowledges only what was recorded just before, and forwards prompts only while preparing |
| LaunchHandshake.LaunchRecordsBeforeAcknowledging | crates/niralis-session/src/launcher/launch_protocol.rs:20-223 | every launch, over every stream of messages, has such a log |
| LaunchHandshake.ReleaseRoundOnce | crates/niralis-session/src/launcher/supervisor_loop/release.rs:6-77 | a begun and completed release fits the held scope and leaves the entry released or terminal |
| LaunchHandshake.PromotionIsTheRecordedScope | crates/niralis-session/src/launcher/launch_completion.rs:198-283 | a promoted session has the recorded identity and nonce, the registered entry, no pending prompt and a conversation just consumed in time |
| LaunchHandshake.ReleasedLaunchIsNeverPromoted | crates/niralis-session/src/launcher/launch_completion.rs:198-283 | a launch that began a release is never promoted |
| LaunchOrdinary.OrdinaryLaunch | crates/niralis-session/src/launcher/launch_protocol.rs:3-223 | for every stream of a preparing message, any number of prompts that can be relayed, a good scope and a last message, with storage and channel working, the launch hands out that message, its log is exactly those effects and its scope is registered |
| LaunchOrdinary.FailedLaunch | crates/niralis-session/src/launcher/supervisor_loop/pending.rs:91-165 | the same stream with a failure at the scope ends there: unstored, it is quarantined and never acknowledged; stored, it stays recorded |
| LaunchOrdinary.PromotesExactly | crates/niralis-session/src/launcher/launch_completion.rs:198-283 | a launch is promoted if and only if its started message, the completion and the recorded scope agree field by field, and then as that scope |
| LaunchOrdinary.OrdinaryLaunchIsPromoted | crates/niralis-session/src/launcher/launch_completion.rs:198-283 | an ordinary launch whose started message agrees with its scope is promoted with the recorded identity, nonce and pid |
| LaunchOrdinary.OrdinaryRelease | crates/niralis-session/src/launcher/supervisor_loop/release.rs:6-77 | a release of the registered scope is begun, completed and answered with the verdict, and the wait goes on |
| ScopeWorld.ParsePopulated | crates/niralis-session-worker/src/payload_scope/empty_proof.rs:107-132 | the loop over the events file computes its populated flag |
| ScopeWorld.PopulatedIsWhatTheTextSays | crates/niralis-session-worker/src/payload_scope/empty_proof.rs:107-132 | it answers v if and only if exactly one line gives the flag, with value v, and every other line is blank or a pair with another key |
| ScopeWorld.CgroupReadExactly | crates/niralis-session-worker/src/payload_scope/empty_proof.rs:58-132 | every answer of the cgroup read at its own instants, exactly: absent, empty, still populated by the flag or by a member, unsafe path, invalid otherwise |
| ScopeIdentity.AncestorExactly | crates/niralis-session-worker/src/payload_scope/cgroup.rs:59-62 | a path is below another if and only if it is that path, a slash and a rest |
| EmptyProof.ProofBracketsTheRead | crates/niralis-session-worker/src/payload_scope/empty_proof.rs:2-50 | against a world that changes between any two calls, success means the two lookups agree, the pinned path was terminal on both sides of the cgroup read or missing on both, and that read found it empty or absent |
| EmptyProof.TerminalMeansEnded | crates/niralis-session-worker/src/payload_scope/termination_observer/terminal_proof.rs:22-52 | a terminal validation, even of properties read at different instants, means the invocation has ended |
| EmptyProof.EndedBeforeTheRead | crates/niralis-session-worker/src/payload_scope/empty_proof.rs:2-50 | the invocation had ended before its cgroup was read |
| EmptyProof.ProofIsStable | crates/niralis-session-worker/src/payload_scope/empty_proof.rs:2-93 | in every lawful world a proved boundary is ended and empty at the read and at every later instant |
| EmptyProof.DisappearanceIsStable | crates/niralis-session-worker/src/payload_scope/cleanup.rs:172-219 | so is a boundary whose disappearance was proved while its cgroup directory is absent |
| EmptyProof.AbsentThenDisappeared | crates/niralis-session-worker/src/payload_scope/cleanup.rs:101-123 | with the directory seen absent before the proof, as the cleanup does, and never created again, the boundary is ended and empty from then on |
| FixedWorlds.ProofExactly | crates/niralis-session-worker/src/payload_scope/empty_proof.rs:2-50 | in a world that stands still the proof succeeds if and only if the path is the scope's, nothing resolves or the pinned unit is found dead, the cgroup reads absent or empty, and worker and launcher are outside |
| FixedWorlds.ProofErrorsExactly | crates/niralis-session-worker/src/payload_scope/empty_proof.rs:2-50 | there the proof reports a replaced unit, a unit that still runs, or a neighbour inside, each exactly under its own condition |
| FixedWorlds.PopulatedMeansWait | crates/niralis-session-worker/src/payload_scope/empty_proof.rs:2-50 | processes left in the boundary of a dead or missing unit are answered as not empty yet |
| FixedWorlds.ChangedLookupIsReplaced | crates/niralis-session-worker/src/payload_scope/empty_proof.rs:2-50 | in a changing world a unit that comes, goes or moves between the two lookups counts as replaced |
| ReleaseVerifier.RemovalMeetsTheLaws | crates/niralis-session-worker/src/payload_scope/cleanup.rs:172-219 | a world that meets every hypothesis of the stability of a disappearance, at any instants |
| ReleaseVerifier.VerifierAgreesWithProof | crates/niralis-session/src/scope_release/verifier.rs:42-127 | in a fixed world the supervisor releases what the worker proved empty if and only if the unit resolves or the directory is gone |
| ReleaseVerifier.VerifierAgreesWithDisappearance | crates/niralis-session/src/scope_release/verifier.rs:42-127 | it releases every boundary whose disappearance was proved with an absent cgroup |
| ReleaseVerifier.ProvedButNotReleased | crates/niralis-session/src/scope_release/verifier.rs:76-84 | with nothing resolving and the empty cgroup left over, the worker's proof succeeds and the supervisor asks for recovery |
| ReleaseVerifier.ReleasedMeansEnded | crates/niralis-session/src/scope_release/verifier.rs:42-127 | in a lawful changing world a released invocation has ended before its boundary is read |
| ReleaseVerifier.ReleasedWithoutDirectoryIsStable | crates/niralis-session/src/scope_release/observation.rs:63-78 | a release that saw no directory is of a boundary that stays ended and empty |
| ReleaseVerifier.ReleasedIsStableExactly | crates/niralis-session/src/scope_release/observation.rs:63-78 | a released boundary stays ended and empty if and only if, at the instant after its members were read, its directory is gone or its events file says empty |
| ReleaseVerifier.ReleasedButPopulated | crates/niralis-session/src/scope_release/observation.rs:71-78 | a lawful world in which the members file is empty, a cgroup below is populated for ever, and the verdict is a release |
| ReleaseVerifier.ReleasedButLive | crates/niralis-session/src/scope_release/verifier.rs:114-120 | without a law for the exited sub-state a released invocation may still run |
| FixedWorlds.VerdictExactly | crates/niralis-session/src/scope_release/verifier.rs:42-127 | in a world that stands still the supervisor releases if and only if the identity is acceptable and nothing is left of it, or only a final unit without members |
| FixedWorlds.ReasonsExactly | crates/niralis-session/src/scope_release/verifier.rs:42-127 | there each reason for a recovery is given exactly under its own condition |
| FixedWorlds.ReleasedUnitIsTheScope | crates/niralis-session/src/scope_release/observation.rs:2-78 | in any changing world, every property of a released unit was read as the identity's and as final |
| ScopePin.Manager.ReadCreatedUnit | crates/niralis-session-worker/src/payload_scope/prepare.rs:89-180 | the observations on a created unit, in order, and the error of the first that fails |
| ScopePin.Manager.PinInvocationUnit | crates/niralis-session-worker/src/payload_scope/cleanup.rs:2-52 | resolve, reference, re-read, and unreference on any mismatch |
| ScopePin.Manager.PrepareScope | crates/niralis-session-worker/src/payload_scope/prepare.rs:51-212 | the result of a preparation and every call it makes that changes something |
| ScopePin.PreparationRollsBack | crates/niralis-session-worker/src/payload_scope/prepare.rs:51-212 | once systemd accepted the unit, a failing run calls start, an abandoned pin and one stop, and answers cleanup-failed if and only if that stop failed; a successful run calls start and one reference |
| ScopePin.PreparedScopeIsValid | crates/niralis-session-worker/src/payload_scope/prepare.rs:89-212 | a prepared scope has a valid identity, a held pin and the cgroup path of its identity |
| ScopePin.PreparationSucceedsExactly | crates/niralis-session-worker/src/payload_scope/prepare.rs:51-212 | a preparation succeeds if and only if every observation on the created unit and on the pinned one is as asked, and hands over exactly that scope |
| ScopePin.HexIdReadsBack | crates/niralis-session-worker/src/payload_scope/cgroup.rs:36-47 | an invocation id that was written out reads back as its sixteen bytes |
| ScopePin.PinnedScope.Cleanup | crates/niralis-session-worker/src/payload_scope/cleanup.rs:101-170 | the cleanup before commit, with or without releasing the pin: its result and its calls |
| ScopePin.CleanupSucceedsExactly | crates/niralis-session-worker/src/payload_scope/cleanup.rs:101-170 | a cleanup succeeds if and only if nothing is left and, where it drops the reference, that worked; which error it gives otherwise |
| ScopePin.PinnedScope.ReleasePin | crates/niralis-session-worker/src/payload_scope/empty_proof.rs:134-152 | a held reference is dropped and forgotten only when the drop succeeds |
| ScopePin.AtMostOneSuccessfulUnref | crates/niralis-session-worker/src/payload_scope/empty_proof.rs:134-152 | over any mix of pin-preserving cleanups and releases there is at most one successful unreference, exactly when the pin is no longer held |
| ScopePin.UnrefsWithFinalCleanup | crates/niralis-session-worker/src/payload_scope/cleanup.rs:101-170 | for each particular cleanup at the end, which of its answers keep the total at one |
| ScopePin.HeldPinCleansUpOnce | crates/niralis-session-worker/src/payload_scope/cleanup.rs:101-170 | a consuming cleanup, whatever it meets, keeps the total at one if and only if the pin is held when it starts |
| ScopePin.ReleasedThenCleaned | crates/niralis-session-worker/src/payload_scope/cleanup.rs:161-167 | a released pin and a cleanup that meets no refusal drop the reference twice |
| Termination.ForcedTerminationCoordinator.BeginForced | crates/niralis-session-worker/src/termination/forced_coordinator.rs:37-73 | a forced begin: state, outcome and events for every combination of answers |
| Termination.ForcedTerminationCoordinator.RequestKill | crates/niralis-session-worker/src/payload_scope/termination_observer/termination_requests.rs:116-164 | the request checks twice more before it signals |
| Termination.ForcedTerminationCoordinator.RecordLeaderExit | crates/niralis-session-worker/src/termination/forced_coordinator.rs:31-35 | only the first exit is kept |
| Termination.ForcedTerminationCoordinator.RefuseScope | crates/niralis-session-worker/src/termination/forced_coordinator.rs:103-131 | which scope error ends in which outcome |
| Termination.ForcedTerminationCoordinator.TryForcedEmptyProof | crates/niralis-session-worker/src/runtime/lifecycle/forced_cleanup.rs:68-104 | an attempt at the proof: which answers end the wait, which are tolerated |
| Termination.BeginKillsOnce | crates/niralis-session-worker/src/termination/forced_coordinator.rs:37-73 | a begin that signals had no attempt before it, passed every check and signals once |
| Termination.AtMostOneKill | crates/niralis-session-worker/src/termination/forced_coordinator.rs:31-131 | over any sequence of coordinator calls and answers at most one call sends SIGKILL |
| Termination.KeepsFirstExit | crates/niralis-session-worker/src/termination/forced_coordinator.rs:31-35 | after any calls the exit kept is the first one recorded |
| Termination.EmptyCarriesFirstExit | crates/niralis-session-worker/src/termination/forced_coordinator.rs:75-79 | an empty-boundary outcome carries the first recorded exit, whatever came before |
| Termination.BeginHeeds | crates/niralis-session-worker/src/termination/forced_coordinator.rs:103-131 | a begin ends in recovery for a changed identity if and only if it was told the unit was replaced |
| Termination.ProofHeeds | crates/niralis-session-worker/src/runtime/lifecycle/forced_cleanup.rs:68-104 | the same for an attempt at the proof |
| Termination.PollOnce | crates/niralis-session-worker/src/runtime/wait/forced_poll_cycle.rs:1-182 | one round of the poll loop: reap, wake-up, triggers, deadline |
| Termination.DrainSignals | crates/niralis-session-worker/src/runtime/wait/forced_poll_cycle.rs:80-100 | the loop over the signal descriptor finds duplicates only, if and only if every read is one of the three termination signals |
| Termination.WaitForForcedCleanup | crates/niralis-session-worker/src/runtime/lifecycle/forced_cleanup.rs:11-66 | begin, a first proof, then rounds until one ends the wait |
| Termination.RoundsSound | crates/niralis-session-worker/src/runtime/wait/forced_poll_cycle.rs:1-182 | any number of rounds sends no signal, never loses a known exit, and answers an empty boundary only with an accepted proof |
| Termination.ForcedCleanup | crates/niralis-session-worker/src/runtime/lifecycle/forced_cleanup.rs:11-104 | for a whole cleanup of any length: recovery for a changed identity if and only if a replaced unit was reported, the only SIGKILL is the begin's, and an empty boundary comes after a confirmed SIGKILL and an accepted proof, with the first exit known |
| TerminationOutcomes.AttemptExactly | crates/niralis-session-worker/src/runtime/lifecycle/forced_cleanup.rs:68-104 | an attempt finds the boundary empty with exit e if and only if e is known, the proof succeeded and the unit appeared terminal or was unavailable; exactly when it lets the wait go on; and how it ends otherwise |
| TerminationOutcomes.BeginExactly | crates/niralis-session-worker/src/termination/forced_coordinator.rs:37-73 | a begin signals if and only if it is the first and every check passes, and starts the wait if and only if the signal, the look after it and the timer work too |
| TerminationOutcomes.BeginFailsExactly | crates/niralis-session-worker/src/termination/forced_coordinator.rs:37-131 | a begin that does not get through ends by its first trouble, by the timer, or as a second attempt |
| TerminationOutcomes.RoundExactly | crates/niralis-session-worker/src/runtime/wait/forced_poll_cycle.rs:1-182 | a round goes on, finds the boundary empty or expires, each exactly under its own condition |
| TerminationOutcomes.RoundBreaks | crates/niralis-session-worker/src/runtime/wait/forced_poll_cycle.rs:1-182 | a source of the round that fails ends the wait, laid to its own stage and with the exit known by then |
| TerminationOutcomes.DuplicatesExactly | crates/niralis-session-worker/src/runtime/wait/forced_poll_cycle.rs:80-182 | signals and visitors are ignored if and only if they repeat the request to terminate this very session or are strangers |
| TerminationOutcomes.CleanupFindsExactly | crates/niralis-session-worker/src/runtime/lifecycle/forced_cleanup.rs:11-104 | a whole cleanup of any length answers an empty boundary with exit e if and only if its begin got through and some attempt found it after only undecided ones |
| TerminationOutcomes.TerminalUnitIsFound | crates/niralis-session-worker/src/runtime/lifecycle/forced_cleanup.rs:73-93 | begun, exit known, unit seen terminal, proof accepted: the boundary is found empty at once |
| TerminationRequests.KillOnlyTheOwnUnit | crates/niralis-session-worker/src/payload_scope/termination_observer/termination_requests.rs:63-164 | a SIGKILL implies, in the same begin, three sightings of the intact unit and two of worker and launcher outside it |
| TerminationRequests.ForcedEligibleExactly | crates/niralis-session-worker/src/payload_scope/termination_observer/termination_requests.rs:63-164 | a forced termination is eligible if and only if worker and launcher stand outside and the unit answers as the scope's, field by field |
| TerminationRequests.OutsideErrorsExactly | crates/niralis-session-worker/src/payload_scope/termination_observer/termination_requests.rs:75-86 | which of unknown members, an unknown cgroup and a neighbour inside is reported |
| TerminationRequests.PostKillExactly | crates/niralis-session-worker/src/payload_scope/termination_observer/invocation_termination.rs:1-47 | after the kill the unit may be gone or answer as itself, and nothing else will do |
| TerminationRequests.AppearsTerminalExactly | crates/niralis-session-worker/src/payload_scope/termination_observer/termination_requests.rs:11-40 | the look before a proof sees a terminal unit, or an unavailable one, exactly under these answers |
| TerminationRequests.GracefulTerminationCoordinator.BeginGraceful | crates/niralis-session-worker/src/termination/coordinator.rs:30-54 | a graceful begin: state, failure and signal for every combination of answers |
| TerminationRequests.GracefulExactly | crates/niralis-session-worker/src/payload_scope/termination_observer/invocation_termination.rs:49-106 | a graceful begin signals, and starts, if and only if these answers hold, field by field |
| TerminationRequests.StartedOnce | crates/niralis-session-worker/src/termination/coordinator.rs:30-54 | after a begin that started, any later begins send nothing and keep the first cause |
| TerminationRequests.SignalsAreTries | crates/niralis-session-worker/src/termination/coordinator.rs:30-54 | every run of begins sends exactly as many signals as begins pass the checks, up to and including the first that starts |
| TerminationRequests.AtMostOneTerm | crates/niralis-session-worker/src/termination/coordinator.rs:30-54 | a run sends at most one SIGTERM if and only if no two begins pass the checks before one has started |
| TerminationRequests.TwoSignals | crates/niralis-session-worker/src/termination/coordinator.rs:40-52 | two begins that lose the unit after their signal send two |
| TerminationRequests.EmptyForGood | crates/niralis-session-worker/src/runtime/lifecycle/forced_cleanup.rs:11-104 | in a lawful world whose answers the attempts of a cleanup are, each at its own instant: an empty-boundary outcome means that the proof accepted last succeeded at its own instant, the invocation had ended by its cgroup read, and the boundary is ended and empty at every later instant |
| TerminationRequests.EmptyForGoodIsMet | crates/niralis-session-worker/src/runtime/lifecycle/forced_cleanup.rs:11-104 | a world and a cleanup that meet every hypothesis of that law, at any instant |
| VirtualTerminal.OwnedVirtualTerminal.ConfirmPreviousActive | crates/niralis-session-worker/src/vt/control.rs:22-39 | the poll loop computes the wait for the previous terminal |
| VirtualTerminal.OwnedVirtualTerminal.ReleaseTerminal | crates/niralis-session-worker/src/vt/owned_terminal.rs:99-124 | a release: the handle after it, its result and its kernel calls |
| VirtualTerminal.AwaitIsBounded | crates/niralis-session-worker/src/vt/control.rs:22-39 | the wait polls at most once per ten milliseconds and once more |
| VirtualTerminal.AwaitExactly | crates/niralis-session-worker/src/vt/control.rs:22-39 | the wait succeeds if and only if some poll, no later than the first at or after the deadline and with no error before it, shows the previous terminal |
| VirtualTerminal.ReleaseExactly | crates/niralis-session-worker/src/vt/owned_terminal.rs:99-124 | a release succeeds if and only if the terminal was released, or can be freed and is closed or may be closed now; the handle after it, exactly |
| VirtualTerminal.ReleaseInOrder | crates/niralis-session-worker/src/vt/control.rs:2-46 | one release keeps the order of kernel calls and moves the handle only forward |
| VirtualTerminal.HistoryInOrder | crates/niralis-session-worker/src/vt/owned_terminal.rs:99-124 | in every history of releases the terminal is closed only after a query showed another one active, freed only after closing, and untouched after success |
| VirtualTerminal.VirtualTerminalGuard.ReleaseLease | crates/niralis-session-worker/src/vt/contracts.rs:93-104 | the guard asks its lease once and repeats the answer |
| VirtualTerminal.GuardReleasesOnce | crates/niralis-session-worker/src/vt/contracts.rs:72-111 | over all explicit releases and the drop the lease is released once, and there is one answer per call, each the same |
| PamTransaction.NativePamTransaction.CleanUp | crates/niralis-auth/src/pam_native/transaction.rs:208-222 | the clean-up and its libpam calls |
| PamTransaction.NativePamTransaction.OpenSession | crates/niralis-auth/src/pam_native/transaction.rs:71-115 | opening a session: flags, result and libpam calls on every way out |
| PamTransaction.NativePamTransaction.CloseSession | crates/niralis-auth/src/pam_native/transaction.rs:121-136 | closing a session, and keeping it open when libpam refuses |
| PamTransaction.OpenInOrder | crates/niralis-auth/src/pam_native/transaction.rs:71-115 | a session open keeps flags and calls in agreement, including its rollback |
| PamTransaction.OpenAnswersExactly | crates/niralis-auth/src/pam_native/transaction.rs:71-115 | an open succeeds if and only if the terminal and every entry are NUL-free and taken and libpam establishes, opens and reinitialises; success leaves an open session, a dispatched failure an ended handle, an earlier failure no change |
| PamTransaction.FlagFollowsTheLog | crates/niralis-auth/src/pam_native/transaction.rs:71-136 | in every life the session flag says what the libpam calls say |
| PamTransaction.EveryCallAnswers | crates/niralis-auth/src/pam_native/transaction.rs:71-136 | for every call of every life: an open succeeds exactly when all it needs is given, and a close exactly when the calls so far leave no session open or libpam closes it |
| PamTransaction.EveryLifeInOrder | crates/niralis-auth/src/pam_native/transaction.rs:20-136 | over any number of opens and closes, the libpam calls of a life are in order if and only if no open reaches libpam after one that was rolled back; in order: a dispatched open is followed by a close before the end, established credentials are deleted before it, no close follows a successful one without an open between, nothing follows the end |
| PamTransaction.OneOpenInOrder | crates/niralis-auth/src/pam_native/transaction.rs:20-136 | every life with at most one open is in order |
| PamTransaction.SecondOpenAfterRollback | crates/niralis-auth/src/pam_native/transaction.rs:71-115 | an open that libpam refuses, followed by another, is not in order |
| PamTransaction.FinishedEndsOnce | crates/niralis-auth/src/pam_native/transaction.rs:208-228 | such a life ends the handle exactly once, as its last call |
| PamTransaction.ClosesAnswerOpens | crates/niralis-auth/src/pam_native/transaction.rs:71-136 | in a life in order the dispatched opens are as many as the closes that answer one and the opens that overlap an earlier unanswered one |
| PamTransaction.TwoOpensShareAClose | crates/niralis-auth/src/pam_native/transaction.rs:71-136 | two successful opens, one close and the drop: in order, with one close for two opens |
| OrderedSets.SortedIsCanonical | crates/niralis-session-worker/src/isolation/mod.rs:73-76 | sorting and removing duplicates gives the one increasing list of the elements |
| Groups.GroupLimit | crates/niralis-session-worker/src/identity/groups.rs:148-155 | the limit is between one and 65536, whatever the system reports |
| Groups.RequiredCapacity | crates/niralis-session-worker/src/identity/groups.rs:103-116 | a larger buffer is granted if and only if it grows and stays within the limit |
| Groups.NormalizedIsUnique | crates/niralis-session-worker/src/identity/groups.rs:130-146 | the normalised list is the one increasing list of the groups other than the primary one |
| Groups.ResolveGroups | crates/niralis-session-worker/src/identity/groups.rs:69-101 | the retry loop computes the attempts one after the other |
| Groups.CapacitiesGrow | crates/niralis-session-worker/src/identity/groups.rs:69-101 | the capacities tried strictly increase, stay within the limit and are at most eight |
| Groups.ResolvedIsWellFormed | crates/niralis-session-worker/src/identity/groups.rs:69-146 | resolved groups always pass the structural check of the drop and the group limit |
| Groups.ResolvesExactly | crates/niralis-session-worker/src/identity/groups.rs:69-146 | a resolution returns a list if and only if the attempts lead to an answer whose groups, without the primary one, it lists in increasing order |
| Groups.DropPrivileges | crates/niralis-session-worker/src/privilege_drop/mod.rs:98-174 | groups, gid and uid are set in this order and all of them on success |
| Groups.DropSucceedsExactly | crates/niralis-session-worker/src/privilege_drop/mod.rs:98-174 | a drop succeeds if and only if every call does and the process holds the target's ids and, apart from the gid, its group set |
| Groups.DropFailsExactly | crates/niralis-session-worker/src/privilege_drop/mod.rs:98-174 | each error of a drop names the first thing that went wrong |
| Groups.ParentAcceptsWhatTheChildDid | crates/niralis-session-worker/src/session_child/validation.rs:53-62 | the parent's re-check accepts every report the child's check accepted |
| Isolation.Bits | crates/niralis-session-worker/src/isolation/linux.rs:177-188 | exactly the set positions up to the last capability, in strictly increasing order |
| Isolation.QueryEach | crates/niralis-session-worker/src/isolation/linux.rs:131-157 | the ambient and bounding lists hold exactly the capabilities answered with one, and a negative answer fails the audit |
| Isolation.OpenFds | crates/niralis-session-worker/src/isolation/linux.rs:199-219 | exactly the open candidates, in strictly increasing order |
| Isolation.Audit | crates/niralis-session-worker/src/isolation/linux.rs:105-174 | an audit succeeds if and only if the capability range is supported and every kernel call succeeds, and its proof then reflects the kernel |
| Isolation.AuditedStructureIsValid | crates/niralis-session-worker/src/isolation/mod.rs:46-85 | an audited proof never fails the capability-structure check |
| Isolation.Validate | crates/niralis-session-worker/src/isolation/mod.rs:46-81 | the policy, with the descriptor comparison stated by what the list holds |
| Isolation.PolicyAcceptsExactly | crates/niralis-session-worker/src/isolation/mod.rs:46-89 | the policy accepts if and only if no capability is active, the two dangerous securebits are clear, the structure is right and the open descriptors are the standard and the allowed ones |
| Isolation.ParentAcceptsExactly | crates/niralis-session-worker/src/session_child/validation.rs:20-52 | with its filtered allowlist the parent accepts the descriptors if and only if they are increasing, non-negative, hold 0, 1 and 2, and nothing besides those and the allowed ones |
| RateLimiter.LoginRateLimiter.IsLimited | crates/niralisd/src/handler/rate_limit.rs:26-45 | the answer is the one the history calls for: enough failures since the user's last clearing, the last within the cooldown |
| RateLimiter.LoginRateLimiter.RecordFailure | crates/niralisd/src/handler/rate_limit.rs:47-62 | recording keeps the saturating map in agreement with the history |
| RateLimiter.LoginRateLimiter.ResetUser | crates/niralisd/src/handler/rate_limit.rs:64-66 | so does a reset |
| RateLimiter.CountAfterCall | crates/niralisd/src/handler/rate_limit.rs:26-66 | how one more call changes the count since the last clearing and the last failure |
| RateLimiter.OthersDoNotMatter | crates/niralisd/src/handler/rate_limit.rs:26-66 | a user's count and last failure depend only on that user's calls |
| RateLimiter.FailuresLimitUntilCooldown | crates/niralisd/src/handler/rate_limit.rs:26-66 | a user who keeps failing is limited exactly from the configured count on until the cooldown after the last failure, whatever the clock does, and then starts anew |
| Framing.Output.WriteFrame | crates/niralis-session/src/worker_io.rs:11-55 | a frame that does not fit with its newline is refused unwritten; otherwise the stream holds as much of it as it took, and the write succeeds if and only if it took all of it and was flushed; without a failed write the stream is the encoding of the frames taken |
| Framing.Input.ReadEnvelope | crates/niralis-session/src/worker_io.rs:89-125 | the worker channel's loop computes the read of one frame |
| Framing.Input.ReadControl | crates/niralis-session/src/worker_io.rs:57-87 | the control channel's loop computes the read of one frame |
| Framing.Input.ReadGreeterFrame | crates/niralisd/src/server/client_protocol.rs:122-131 | the greeter socket's loop computes the read of one frame |
| Framing.FrameRoundTrip | crates/niralis-session/src/worker_io.rs:11-125 | a newline-free payload comes back if and only if it fits its channel, and the rest of the stream is untouched |
| Framing.StreamRoundTrip | crates/niralis-session/src/worker_io.rs:11-125 | reading an encoded list until the end gives the list back, one frame per read |
| Framing.TornFrameIsNotRead | crates/niralis-session/src/worker_io.rs:89-125 | a frame that broke off before its newline is never read: exactly the frames before it come back |
| Framing.ReadTakesOneLine | crates/niralisd/src/server/client_protocol.rs:122-131 | on any stream and channel a read takes nothing past a newline and at most the limit and one byte, and what it returns fits |
| Cancellation.TransactionTable.Begin | crates/niralisd/src/handler/transactions.rs:27-31 | the table update that the daemon's step makes when a login begins |
| Cancellation.TransactionTable.Finish | crates/niralisd/src/handler/transactions.rs:33-46 | the table update that the daemon's step makes when a login finishes |
| Cancellation.TransactionTable.Disconnect | crates/niralisd/src/handler/transactions.rs:48-83 | the loop cancels exactly the connection's open logins, once each, and leaves the table of the daemon's step |
| Cancellation.TransactionTable.Cancel | crates/niralisd/src/handler/transactions.rs:85-124 | the table update, and the decision to tell the backend, that the daemon's step makes for a cancel request |
| Cancellation.CancelsAreBacked | crates/niralisd/src/handler/transactions.rs:27-133 | in every interleaving of any number of connections a login is cancelled at most as often as begun |
| Cancellation.OnlyTheOwnerCancels | crates/niralisd/src/handler/transactions.rs:48-124 | a cancel is decided only by a connection with the login's id, epoch and seat |
| Cancellation.DisconnectKeepsTheRest | crates/niralisd/src/handler/transactions.rs:75-81 | a disconnect forgets an entry if and only if it is the connection's own and open |
| Cancellation.LoginBegins | crates/niralisd/src/handler/transactions.rs:27-31 | the next frame of an open connection that asks for a login begins it |
| Cancellation.CancelReachesBackend | crates/niralisd/src/handler/transactions.rs:85-124 | a cancel of one's own open login is decided once and reaches the backend when handed over |
| Cancellation.EndReachesBackend | crates/niralisd/src/handler/transactions.rs:48-83 | a connection that ends, however, has each of its open logins cancelled |
| Cancellation.DecidedCancelsStay | crates/niralisd/src/handler/transactions.rs:85-133 | in every run a decided cancel is pending until it was handed over |
| Cancellation.FinishedIsSettled | crates/niralisd/src/handler/transactions.rs:33-46 | a finished login is kept exactly if it was committed, and no later run cancels it unless it is begun anew |
| Cancellation.IssuedIsUnique | crates/niralisd/src/server/connection_generation.rs:27-44 | the first 2^64 connections have distinct ids |
| Cancellation.EachLoginCancelledOnce | crates/niralisd/src/server/client_protocol.rs:43-83 | from a fresh daemon with at most 2^64 connections, each login is begun and cancelled at most once |
| Cancellation.CancelledTwiceAfterWrap | crates/niralisd/src/server/connection_generation.rs:27-44 | with more than 2^64 connections two share id and epoch, and their logins are cancelled twice under one key |
| Cancellation.CancelledOnceExactly | crates/niralisd/src/server/connection_generation.rs:27-44 | no run with n connections cancels a login twice if and only if n is at most 2^64 |

## Left out

- Seat admission, the recovery ledger and the planner for a previous boot: storage and bookkeeping around the modelled entry; the supervisor's storage answers are arbitrary instead.
- The generation counter of a supervisor entry: the entry is modelled from the moment it is found.
- `issue` and `matches_transaction` of the PAM conversation authority: a list of non-empty checks and a field-by-field comparison.
- The graceful wait loop after a graceful begin: it has the same shape as the forced one, without a proof.
- D-Bus, systemd, logind, libpam, the kernel and NSS: arbitrary answers.
- JSON: payloads are byte sequences without a newline; the size of a serialised reply is counted, and the size of a control frame is given by the surroundings, at least that of the reply it holds (`PamRelay.HoldsReply`).
- A poisoned lock: the operations on the login table are taken to get the lock.
- Threads: operations under one lock are one step; the cancel call made outside the lock is a separate step.
- The allocation of a virtual terminal and its `activate` loop: allocation gives two different terminals, which is a `requires` of the theorems.
- Secret erasure, log output, configuration, path trust and file ownership checks: no functional property to state.
- `session_environment` of a PAM transaction: it reads values and changes no flag.
- Termination.WaitForForcedCleanup: the poll loop runs over any finite list of rounds, because the source's loop has no bound of its own; `None` says that the rounds ran out first.
- Termination.PollOnce: a peer on the control socket is modelled by what its uid check and its request answer, not by the bytes of the request.
- Framing.Output.WriteFrame: covers the worker and control writers; the daemon's writer to the greeter is not part of this model, and greeter frames round-trip for the payloads the daemon's reader takes.
