# Sandbox SDK: verified models of its stateful core

The sandbox package of the SDK talks to a remote sandbox session. Most of it forwards
calls; this project models the parts that keep state under concurrency or transform
data, and proves what they are for.

| file | what it models |
|---|---|
| `data_plane_pool.dfy` | the reference-counted pool of HTTP transports that sessions share |
| `data_plane_renewal.dfy` | credential renewal loops, their exit signals and the calls that drain them |
| `data_plane_session.dfy` | one session: transport, credential and its binding, close latch, requests in flight |
| `data_plane_system.dfy` | any number of sessions and every interleaving of their lock-protected blocks |
| `data_plane_configure.dfy` | what `configureDataPlane` and a request do for their callers, spelled out field by field |
| `data_plane_close.dfy` | whole calls of Close and Release as runs of their blocks |
| `data_plane_handles.dfy` | the client and session objects, as classes whose methods equal the blocks above or runs of them |
| `endpoint_hints.dfy` | the single flight that resolves an endpoint for many sessions |
| `run_pipeline.dfy` | the goroutines behind `Exec`: pump, pipes, copiers, chunk channel, consumer |
| `run_wait.dfy` | concurrent calls of `RunHandle.Wait` |
| `run_handles.dfy` | the loops and objects of that pipeline as the source writes them |
| `template_json.dfy`, `template_enums.dfy`, `template_rewriter.dfy` | the streaming rewriter of template spec JSON |
| `template_names.dfy` | the names of the enum fields as literals, and what the rewriter makes of them |
| `secret_text.dfy`, `secret_scanner.dfy`, `secret_destinations.dfy` | the scanner for secret references and the check of secret files |
| `secret_encoding.dfy`, `secret_meaning.dfy` | UTF-8 against an encoder, and what scanner and check accept in characters and path components |
| `tunnel_termination.dfy` | the one-shot termination broadcast of a host-port tunnel |
| `tunnel_multiplex.dfy`, `tunnel_outbound.dfy` | its sub-stream multiplexer |
| `tunnel_handles.dfy` | `HostPortTunnel` as a class; its methods run the two machines above |
| `session_waits.dfy` | `WaitResumed` and `WaitPaused` against a server that may lag behind |
| `ready_backoff.dfy` | the readiness budget of a probe and of a credential renewal |
| `build_events.dfy` | the event stream of a template build |

The concurrent parts are state machines. A step is one block under a mutex, one channel
operation, one read, write or callback; a run is any list of enabled steps, and every
theorem about a machine holds in every state that some run reaches. The clock, the
network, the server, dial and read results, and what callbacks do are inputs of the run.
Where the source changes an object in place there is a class beside the machine. A
method that is one block, or a few under one lock, changes the object exactly as those
steps; one that waits or loops, `Close`, `Release`, `Finish`, `Forward` and
`PumpHostToSandbox` among them, ends in a state that a run of the machine reaches.

A few history variables were added to state what is proved: the mint number of each
credential, the pairs of mint and endpoint put on the wire, the bytes a tunnel
connection has read, the part of the input during which it was registered, and the
callbacks invoked so far.

## What turned out false

- A callback that calls `Close` on its own tunnel from `OnTerminated` waits for the
  broadcast that called it, and later listeners are never called.
  `TunnelTermination.ClosingListenerHangs` is the smallest case;
  `TunnelTermination.EveryCallbackOnce` gives the exact condition.
- An accepted host connection is not always closed, and data that arrives after the
  host ended its side is dropped. `TunnelOutbound.HostEndsFirst` is a run that shows
  both; `TunnelOutbound.ClosedUnlessPumpRemoved` and `TunnelOutbound.InboundInOrder`
  say exactly when.
- `WaitResumed` and `WaitPaused` can report a failure that is none of the attempt waited
  for. `SessionWaits.ReportableIff` says for every history of the session exactly which
  of its moments can be reported: each fallen back state after the start of the wait,
  and each one within the grace before it that follows a transition. Hence three kinds of
  false reports: no attempt was made (`NeverInTransition`), the
  attempt had reached its goal and the session left it again, before the wait
  (`SucceededBefore`) or between two polls (`SucceededBetweenPolls`), or it was an earlier
  attempt that fell back (`OldFailureIff`, with the moment of acceptance as its cut).
  `AllReportsRealIff` and, for one attempt, `AllReportsOfIff` say exactly for which
  histories no report is false; a failed attempt is one that fell back and never reached
  its goal.
- A second call of `RunHandle.Wait` can block for ever: two calls that both find nothing
  settled compete for one value (`RunWait.SecondWaiterHangs`). `RunWait.AllBackIff` says
  exactly when every call returns.

## Model

| member | source | states |
|---|---|---|
| DataPlanePool.AcquireKeepsPool | sandbox/data_plane.go:125-143 | acquiring a transport keeps: references of each entry = unfired closures bound to that very entry, at least one |
| DataPlanePool.AcquireBinds | sandbox/data_plane.go:125-143 | the new closure is for the origin asked for and for the entry pooled there: the old one where there was one, else one that no closure was for |
| DataPlanePool.FireKeepsPool | sandbox/data_plane.go:144-160 | calling a release closure, first time or again, keeps the same |
| DataPlanePool.StaleLeaseIsHarmless | sandbox/data_plane.go:144-172 | a closure whose entry is gone changes no entry, also not a later one of its own origin |
| DataPlanePool.LeavesGone | sandbox/data_plane.go:150-172 | an entry that leaves by its last closure, or by the client's Close, is gone: no entry has its identity |
| DataPlaneSystem.EvictedForGood | sandbox/data_plane.go:144-172 | an entry that is gone is in no later state of any run, so none of its closures ever changes an entry again |
| DataPlanePool.AcquireThenFire | sandbox/data_plane.go:125-160 | an acquire undone by its own closure leaves the pool's entries as they were |
| DataPlanePool.LastLeaseEvicts | sandbox/data_plane.go:144-160 | an entry leaves the pool with its last closure and not before |
| DataPlaneRenewal.RestartKeeps | sandbox/session.go:565-588 | replacing the loop keeps: one uncancelled loop at most, every running loop's exit signal in exactly one place, every loop in a drain cancelled |
| DataPlaneRenewal.DrainKeeps | sandbox/session.go:600-605 | handing the exit signals to a drain keeps the same and cancels every loop |
| DataPlaneRenewal.DrainProgress | sandbox/session.go:600-611 | a drain is finished, or can take its next signal, or waits for a loop that still runs and has been cancelled |
| DataPlaneRenewal.NothingHeldNothingRuns | sandbox/session.go:600-611 | when no exit signal is held anywhere, no loop runs |
| DataPlaneSession.ApplyKeepsSession | sandbox/session.go:446-650 | every block of a session, Close and Release included, keeps the session invariant |
| DataPlaneSession.ShutStartsNothing | sandbox/session.go:454-459 | while the latch is shut no block starts a loop, takes a transport or installs a credential |
| DataPlaneSession.LatchHolds | sandbox/session.go:1493-1529 | once a session is released or closed with success, no block undoes the latch or fills the session again |
| DataPlaneSession.ClosedMeansStopped | sandbox/session.go:613-624 | with the latch shut and no drain waiting, no loop runs |
| DataPlaneSession.FailedCloseIsRecoverable | sandbox/session.go:1501-1522 | after a failed Close without Release the session can be configured and renews again, and Close may be entered |
| DataPlaneSession.CredentialForMeans | sandbox/session.go:839-852 | a refusal exactly where a credential is bound elsewhere; otherwise the session's credential, or none |
| DataPlaneConfigure.CallConfigures | sandbox/session.go:446-490 | a whole call, with no word of how it is made: nothing changes if the latch is shut or a new endpoint has no origin; a new endpoint is where the session then points, with a new closure for its origin; a credential received replaces the old one and is bound to the endpoint, a blank one leaves none, none leaves the old one, bound here if it was unbound; a new loop exactly for a credential that expires |
| DataPlaneConfigure.ConfigureMeans | sandbox/session.go:446-476 | the machine's first block is that whole call, or, where the transport changes, the acquisition of the new one |
| DataPlaneConfigure.FinishCompletes | sandbox/session.go:467-490 | the second block points the session at the endpoint of the call, with the closure acquired and the credential treated as above |
| DataPlaneConfigure.PendingLeaseKept | sandbox/session.go:459-476 | between the two blocks no event of any session or of the client touches that closure or the link |
| DataPlaneConfigure.PrepareMeans | sandbox/data_plane.go:334-349 | a request is refused exactly where the credential is bound to another endpoint than its own; otherwise it carries the credential |
| DataPlaneConfigure.ReplayMeans | sandbox/data_plane.go:267-272 | the replay goes on exactly if the session still points at the endpoint of the request |
| DataPlaneConfigure.SendMeans | sandbox/data_plane.go:254-277 | what is recorded as sent is the header and the endpoint of the request |
| DataPlaneClose.CloseCanSucceed | sandbox/session.go:1501-1529 | from every state of a session, whatever call is under way or has failed, a run ends closed, latched and with one successful termination |
| DataPlaneClose.EverySessionCanClose | sandbox/session.go:1501-1529 | the same for every session in every reachable state of the system |
| DataPlaneClose.DrainEmpties | sandbox/session.go:600-611 | waiting for a drain is a run of loops that exit and signals that are received, and nothing else changes |
| DataPlaneClose.Silences | sandbox/session.go:613-624 | closeDataPlane, from its block to its return, is a run to the state with the latch shut and its signals waited for |
| DataPlaneClose.ResetIsARun | sandbox/session.go:626-650 | resetDataPlane, from its block to its return, is a run to the empty link with the closure given back and its signals waited for |
| DataPlaneClose.ReleaseIsARun | sandbox/session.go:1493-1499 | what Release leaves behind is reached by a run of its blocks, exits and receives |
| DataPlaneClose.CloseIsARun | sandbox/session.go:1505-1529 | the same for Close, successful, failed or repeated |
| DataPlaneClose.QuiescedHoldsNothing | sandbox/session.go:1493-1499 | after either call no signal is held, no loop was added, none of the session's own runs, and none at all if no other call was draining |
| DataPlaneSystem.PoolConservation | sandbox/data_plane.go:125-172 | in every reachable state of any number of sessions, references = unfired closures of that entry, at least 1, all of them owned by existing sessions |
| DataPlaneSystem.OneClosurePerSession | sandbox/session.go:446-490 | in every reachable state a session has client, endpoint and closure or none of them, and owns exactly that closure, inside configureDataPlane also the one just acquired |
| DataPlaneSystem.OneEndpointPerMint | sandbox/data_plane.go:254-277 | over a whole run no credential is sent to two endpoints, the replay after a re-mint included |
| DataPlaneSystem.BindingsAreFinal | sandbox/session.go:478-482 | the endpoint a credential was installed for, or that adopted it, never changes in any run |
| DataPlaneSystem.RenewalOwnership | sandbox/session.go:565-624 | in every reachable state: one uncancelled loop at most, each running loop's signal in exactly one place |
| DataPlaneSystem.CloseStopsRenewal | sandbox/session.go:613-624 | when closeDataPlane has returned and no other call drains, no loop runs, and none starts in any run that keeps the latch shut |
| DataPlaneSystem.ReleaseIsPermanent | sandbox/session.go:1493-1529 | from the return of Release or of a successful Close on, every later state of every run has no client, credential or closure and no new loop |
| DataPlaneSystem.TerminatesOnce | sandbox/session.go:1501-1529 | over all Close calls the terminate RPC succeeds at most once, and exactly once when Close is done |
| DataPlaneHandles.Client.AcquireDataPlaneHTTPClient | sandbox/data_plane.go:125-161 | the client's pool changes as the acquire step, and the closure returned is the new one |
| DataPlaneHandles.Client.FireRelease | sandbox/data_plane.go:144-160 | the pool changes as the fire step, whatever closure is called and however often |
| DataPlaneHandles.Client.CloseDataPlaneHTTPClients | sandbox/data_plane.go:163-172 | every entry is evicted and every closure keeps its binding |
| DataPlaneHandles.Handle.RestartCredentialRenewalLocked | sandbox/session.go:565-588 | the handle's renewals change as the restart step, under the three guards of the source |
| DataPlaneHandles.Handle.SetDataPlaneCredentialLocked | sandbox/session.go:550-563 | link and renewals change as the install step; a shut latch changes nothing |
| DataPlaneHandles.Handle.ConfigureDataPlane | sandbox/session.go:446-490 | the whole call changes handle and pool as the two configure steps of the machine, and as `DataPlaneConfigure.CallConfigures` says: endpoint, client, closure, credential, binding and loop |
| DataPlaneHandles.ConfiguredIsTheSteps | sandbox/session.go:446-490 | the specification of one call is those two steps, one after the other |
| DataPlaneHandles.Handle.CloseDataPlane | sandbox/session.go:615-624 | the latch is shut and the signals are drained and waited for; link and flags stay |
| DataPlaneHandles.Handle.ResetDataPlane | sandbox/session.go:626-650 | the link is empty, the closure fired, the signals drained and waited for; flags stay |
| DataPlaneHandles.Handle.Release | sandbox/session.go:1493-1499 | the whole session is released, shut and empty, in a state that a run of the machine reaches |
| DataPlaneHandles.Handle.Close | sandbox/session.go:1505-1529 | unchanged if it was closed before; else shut and reset, and reopened only after a failure without release; a run of the machine reaches the state |
| DataPlaneHandles.Handle.DataPlaneCredentialForEndpoint | sandbox/session.go:839-852 | the session's credential, or none if it has none; a refusal if and only if there is one bound elsewhere |
| EndpointHints.OneFlight | sandbox/data_plane.go:196-230 | at most one caller runs the resolver at a time |
| EndpointHints.NoLostWakeup | sandbox/data_plane.go:206-229 | a caller that waits can go on, or the flight it waits for is in some caller's hands |
| EndpointHints.SingleFlight | sandbox/data_plane.go:190-230 | in every run, any number of callers cost one resolver call, plus one for each call that ended with no endpoint known and one for each clear |
| EndpointHints.LookMeans | sandbox/data_plane.go:197-210 | a caller gets the endpoint known, else waits for the flight in the air, else starts one |
| EndpointHints.LandMeans | sandbox/data_plane.go:208-221 | the resolver's error is reported; without one the endpoint known by then, or that there is none; the flight is over and its channel closed |
| EndpointHints.HintIsLatest | sandbox/data_plane.go:174-194 | in every run the endpoint known is the one remembered last, unless a clear came after it |
| EndpointHints.AnswersAreSourced | sandbox/data_plane.go:196-230 | in every run each answer was remembered and each error occurred |
| EndpointHints.AtRestAllAnswered | sandbox/data_plane.go:196-230 | where a run comes to rest, every caller has an answer or an error |
| EndpointHints.Hints.RememberEndpoint | sandbox/data_plane.go:174-182 | the remember step, or nothing for a blank endpoint |
| EndpointHints.Hints.ClearEndpoint | sandbox/data_plane.go:190-194 | the clear step |
| EndpointHints.Hints.Enter | sandbox/data_plane.go:197-226 | the first locked block is the look step |
| EndpointHints.Hints.Leave | sandbox/data_plane.go:208-221 | the block after the resolver is the landing step: channel closed, flight over, result by error and endpoint |
| RunPipeline.ByteConservation | sandbox/run.go:362-432 | when Exec returns a result, stdout and stderr are byte for byte what the pump accumulated and the server sent, for every frame sequence, chunking and interleaving |
| RunPipeline.NothingLostOnTheWay | sandbox/run.go:489-528 | at every moment: accumulated = consumed ++ in channel ++ in copier ++ in pipe |
| RunPipeline.EndAfterResult | sandbox/stream.go:28-40 | Next reports the end only after the result is published and both copiers are gone |
| RunPipeline.NoDeadlock | sandbox/run.go:489-528 | before Exec returns some goroutine can move, or the pump waits for a frame |
| RunPipeline.StuckMeansReturned | sandbox/session.go:1346-1375 | once the server said how the run ends, a run that cannot go on has returned |
| RunPipeline.StepUsesWork | sandbox/run.go:362-432 | every step uses up some of the finite work the frames can cause |
| RunPipeline.RunsAreFinite | sandbox/run.go:489-528 | no run is longer than the work its frames can cause, so no fairness is needed to end |
| RunPipeline.ExecTerminates | sandbox/session.go:1346-1375 | total correctness of Exec: every run is bounded, and one that cannot go on, on frames that end it, has returned the exit code with all bytes sent, or the server's error |
| RunPipeline.EndingIsFirst | sandbox/run.go:362-432 | a run ends as the first frame says that has an exit code or breaks the stream; by positions |
| RunPipeline.SentIsPayloads | sandbox/run.go:362-432 | what counts as sent are the payloads of the frames up to that one, that one included |
| RunHandles.RunStream.Receive | sandbox/run.go:126-137 | a pushed-back frame comes first, and no frame is lost or repeated |
| RunHandles.RunStream.SendError | sandbox/run.go:144-154 | after a send that failed with EOF the server's own verdict wins; a frame found on the way is pushed back, anything else is used up |
| RunHandles.PumpResponses | sandbox/run.go:362-432 | what is accumulated and what is written are both the bytes sent up to the ending frame, and the outcome is that frame's |
| RunHandles.CopyRunOutput | sandbox/run.go:515-528 | the chunks carry the pipe's bytes in order, marked by stream, none empty or over 32 KiB |
| RunHandles.Aggregate | sandbox/session.go:1365-1374 | per stream, the concatenation of the chunks |
| RunHandles.RunHandle.Wait | sandbox/run.go:460-473 | one call after the other: the first outcome once one was posted, every time; before that the call would block and changes nothing |
| RunWait.OneOutcome | sandbox/run.go:443-473 | under any interleaving of calls, every call that returns, returns the outcome the pump posted |
| RunWait.AllBackIff | sandbox/run.go:443-473 | at rest every call has returned if and only if at most one passed the check before the outcome was settled |
| RunWait.SecondWaiterHangs | sandbox/run.go:463-473 | a run in which two calls pass the check and the second waits for ever |
| RunWait.LaterCallsReturn | sandbox/run.go:454-466 | once an outcome is settled, in no run does another call pass the check, and at rest every later call has returned the outcome |
| RunHandles.RunHandle.Settle | sandbox/run.go:444-452 | the first outcome is kept |
| TemplateJson.ParseSound | sandbox/template_spec.go:691-774 | what the grammar parses from a position is the printed form of the tree it returns |
| TemplateJson.ParseComplete | sandbox/template_spec.go:691-774 | the printed form of any tree, standing anywhere, parses to that tree |
| TemplateRewriter.Decoder.Token | sandbox/template_spec.go:691-695 | the decoder, with its stack of open brackets, returns the next token as the cursor function says |
| TemplateRewriter.WriteValue | sandbox/template_spec.go:691-774 | succeeds exactly when one value without repeated keys stands at the cursor, leaves the cursor behind it and appends the rewritten tree |
| TemplateRewriter.WriteMembers | sandbox/template_spec.go:698-730 | the same for the members of an object; key order is kept and a repeated key is an error |
| TemplateRewriter.WriteItems | sandbox/template_spec.go:731-747 | the same for the items of an array, which do not extend the path |
| TemplateRewriter.RenameLeaf | sandbox/template_spec.go:753-767 | a string leaf is renamed by the table of its path, any other is kept; `TemplateNames.LeafRenamed` says to what |
| TemplateRewriter.Normalize | sandbox/template_spec.go:674-689 | the whole call equals parse, rewrite the tree, print, with nothing after the value; `TemplateNames.NormalizedRenames` says what becomes of each name |
| TemplateRewriter.StreamingEqualsTree | sandbox/template_spec.go:674-774 | a text gives an output exactly when it is the printed form of a tree without repeated keys and the output is that of the rewritten tree; no text is the printed form of two trees |
| TemplateRewriter.NormalizeTwice | sandbox/template_spec.go:674-774 | rewriting in one direction and then the other gives what the second gives of the original: the two undo each other and are idempotent |
| TemplateRewriter.JSONRoundTrip | sandbox/template_spec.go:605-629 | reading what ToJSON wrote gives exactly what the protobuf codec gives of its own text |
| TemplateEnums.NamesArePaired | sandbox/template_spec.go:638-671 | at every path short and protobuf names are paired off one to one and no name is both |
| TemplateEnums.FindShort | sandbox/template_spec.go:755-761 | the loop over the map finds the same name in any order of visiting; which one, `TemplateNames.LeafRenamed` says |
| TemplateEnums.RenameTwice | sandbox/template_spec.go:753-765 | the last direction alone decides what a leaf becomes |
| TemplateEnums.RewriteTwice | sandbox/template_spec.go:691-774 | the same for whole trees |
| TemplateEnums.RewriteKeepsKeys | sandbox/template_spec.go:691-774 | rewriting neither adds nor removes a repeated key |
| TemplateEnums.LeavesRenamed | sandbox/template_spec.go:753-773 | every leaf keeps its address and kind; only strings at an enum field change, by the table |
| TemplateNames.NamesSpelled | sandbox/template_spec.go:638-671 | at each of the seven fields, given as key lists, the names are exactly the literal pairs |
| TemplateNames.NoOtherField | sandbox/template_spec.go:753-755 | under keys without dots no other field has names |
| TemplateNames.LeafRenamed | sandbox/template_spec.go:753-765 | at a field, each literal name turns into its partner in the direction asked for, and any other string stays |
| TemplateNames.NormalizedRenames | sandbox/template_spec.go:674-774 | the rewriter on any text of a tree without repeated keys: the same leaves, each string at a field swapped by the literal names, every other leaf under keys without dots as it was |
| TemplateNames.BootAndBack | sandbox/template_spec.go:644-648 | the text with runtime.runAt "boot" becomes the one with TEMPLATE_RUNTIME_RUN_AT_BOOT, and back |
| SecretScanner.SecretFileNames | sandbox/secret_files.go:86-122 | the index-jumping loop agrees with the recursive reading of the text, errors included; `SecretMeaning.ContentMeans` says what that reading is |
| SecretScanner.PositionsAreLive | sandbox/secret_files.go:98-120 | the references found are exactly the unescaped markers that are not inside the name of an earlier one |
| SecretScanner.ReferencesAreNames | sandbox/secret_files.go:98-120 | the scan succeeds exactly when every reference has a valid maximal name, and returns these in order |
| SecretScanner.Acceptance | sandbox/secret_files.go:86-122 | a text is accepted exactly when it is admissible, its references are valid and at most 64 are distinct; the answer has those names without duplicates |
| SecretScanner.FirstOccurrence | sandbox/secret_files.go:112-115 | the names come in the order of their first occurrence |
| SecretScanner.AllEscaped | sandbox/secret_files.go:105-107 | a text whose markers are all escaped references nothing |
| SecretScanner.Compositional | sandbox/secret_files.go:86-122 | two texts joined by a newline: accepted exactly when both are, the size fits and the union has at most 64 names; the answer is the first's names and then the second's new ones |
| SecretScanner.CheckRunes | sandbox/secret_files.go:90-94 | on valid UTF-8 the loop over runes is a check of the bytes |
| Utf8Encoding.ValidIffEncoded | sandbox/secret_files.go:87 | a byte string is valid exactly if it is the encoding of a sequence of scalar values, which is unique and is what the reader reads; the encoder is arithmetic on scalar values |
| SecretMeaning.NameMeans | sandbox/template_spec.go:28 | a name is what the pattern says, in characters |
| SecretMeaning.AdmissibleMeans | sandbox/secret_files.go:86-94 | a content is admissible exactly if it has at most 262144 bytes and encodes scalar values none of which is below the blank but newline, return and tab |
| SecretMeaning.PositionsMean | sandbox/secret_files.go:98-120 | the references are the markers "secrets://" without a backslash before them and not inside the name of an earlier reference |
| SecretMeaning.SameReferences | sandbox/secret_files.go:98-120 | there is only one such set of positions |
| SecretMeaning.ContentMeans | sandbox/secret_files.go:86-122 | an admissible content is accepted exactly if what follows each reference matches the pattern and there are at most 64 names; the answer has these, each once |
| CleanPaths.CleanIffPlain | sandbox/secret_files.go:35 | a rooted path is its own Clean exactly when no component is empty, "." or ".." |
| CleanPaths.PrefixIsAncestry | sandbox/secret_files.go:45-49 | "equal or prefix plus slash" is component-wise ancestry |
| SecretDestinations.ValidateSecretFiles | sandbox/secret_files.go:29-77 | the loops accept exactly what the declarative check accepts |
| SecretDestinations.CheckFormat | sandbox/secret_files.go:50-74 | the format switch, its self-call for source paths and its count of references |
| SecretDestinations.SourceAsFile | sandbox/secret_files.go:52-55 | the self-call with a single made-up file accepts exactly the paths that are allowed destinations |
| SecretDestinations.StrictlyUnderRoot | sandbox/secret_files.go:38-44 | the prefix test means: the root's components and at least one more |
| SecretDestinations.Antichain | sandbox/secret_files.go:29-77 | no two accepted destinations are equal or nested, each lies strictly under an allowed root, and the references with the caller's own are at most 64 |
| SecretMeaning.DestinationMeans | sandbox/secret_files.go:35-44 | a destination is allowed exactly if it is valid text of at most 4096 bytes without NUL, newline, return and tab, all its components are ordinary, and they begin with home/tenki, workspace or app and go on |
| SecretMeaning.FormatMeans | sandbox/secret_files.go:50-74 | what each kind of value must be and how many references it adds |
| SecretMeaning.AcceptedMeans | sandbox/secret_files.go:29-77 | a list is accepted if and only if it has at most 32 files with allowed destinations and proper values, no destination is another one or above it, and the references are at most 64 |
| SecretMeaning.TotalIsSum | sandbox/secret_files.go:60-76 | the references of a list are those of its files, added up |
| TunnelTermination.OneValue | sandbox/tunnel.go:239-254 | everything published, received or passed to a callback is the argument of the first finish; the channel carries it once |
| TunnelTermination.SendNeverBlocks | sandbox/tunnel.go:248-249 | the send in finish always has room and never meets a closed channel |
| TunnelTermination.AtMostOnce | sandbox/tunnel.go:97-107 | no callback, early or late, is invoked twice, and none before the broadcast |
| TunnelTermination.ChoiceIsFinal | sandbox/tunnel.go:239-254 | the value chosen stays in every later state |
| TunnelTermination.RunIsCounted | sandbox/tunnel.go:97-107 | every registration of a run counts, and every call of finish is remembered in order |
| TunnelTermination.EveryCallbackOnce | sandbox/tunnel.go:97-107 | at rest every callback was invoked exactly once if and only if no early listener but the last calls Close; finish has returned if and only if none does |
| TunnelTermination.ClosingListenerHangs | sandbox/tunnel.go:83-91 | a run with two listeners of which the first calls Close: the second is never called and finish does not return |
| TunnelTermination.ComesToRest | sandbox/tunnel.go:239-254 | the broadcast takes a bounded number of steps of its own |
| TunnelMultiplex.RegisteredKeeps | sandbox/tunnel.go:177-237 | every step keeps: the table holds exactly the connections not yet removed, each entered right after its Accept |
| TunnelMultiplex.DeliveredKeeps | sandbox/tunnel.go:204-210 | every step keeps: a connection was written the payloads of its id that arrived while it was registered |
| TunnelMultiplex.StepMoves | sandbox/tunnel.go:177-287 | every step does one of five things to a connection: nothing, writes what was on its way, passes a frame by, puts a payload on its way, or enters it |
| TunnelOutbound.InboundInOrder | sandbox/tunnel.go:177-237 | for any input: each connection is written exactly the in-order payloads of its id from its Accept until it left the table |
| TunnelOutbound.HalfCloseIff | sandbox/tunnel.go:211-217 | for any input: the write side of a host connection is closed, or just being closed, if and only if a HalfClose of its id arrived while it was in the table |
| TunnelOutbound.LeavesTableIff | sandbox/tunnel.go:180-225 | a connection is out of the table if and only if a Close of its id came, its pump removed it, or forward is gone; the first such Close takes it out there and then |
| TunnelOutbound.OutboundInOrder | sandbox/tunnel.go:256-281 | under any interleaving the frames of one connection are nonempty Data frames that carry the bytes read, then one HalfClose after the host's end, or one Close after another error, and nothing more |
| TunnelOutbound.ReadLeadsTo | sandbox/tunnel.go:256-275 | one read leads to one Data frame with its bytes if there are any, then HalfClose at the end of data and Close at any other error |
| TunnelOutbound.OtherIds | sandbox/tunnel.go:192-198 | a failed dial gets one Close and nothing else, ids never accepted get nothing, the tunnel's own id one Close at most, and every accepted id is answered for |
| TunnelOutbound.PingsAnswered | sandbox/tunnel.go:226-227 | every ping is answered once and in order |
| TunnelOutbound.ClosedUnlessPumpRemoved | sandbox/tunnel.go:180-187 | when forward is gone a connection is closed if and only if its own pump did not remove it from the table |
| TunnelOutbound.HostEndsFirst | sandbox/tunnel.go:262-272 | a run in which the host ends first: later data is dropped and the connection never closed |
| TunnelHandles.HostPortTunnel.OnTerminated | sandbox/tunnel.go:97-107 | the tunnel changes as the registration step |
| TunnelHandles.HostPortTunnel.Finish | sandbox/tunnel.go:239-254 | ends in a reachable state of the broadcast; the first call sends its value once and calls the listeners in order, all of them or up to one that closes the tunnel, and hangs exactly in that case; a later call changes nothing |
| TunnelHandles.HostPortTunnel.Close | sandbox/tunnel.go:83-91 | the first call sends one Close for the tunnel and finishes; later ones change nothing, and hang after a finish that hangs |
| TunnelHandles.HostPortTunnel.Handle | sandbox/tunnel.go:190-231 | one round of forward equals the receive step and the steps it leads to, a HalfClose included (`TunnelOutbound.HalfCloseIff`) |
| TunnelHandles.HostPortTunnel.Forward | sandbox/tunnel.go:177-237 | ends in a reachable state of the multiplexer, past the first Terminated frame or the whole input, each connection written its payloads and half-closed exactly when told to, each ping answered, each dial answered as it went, with the matching reason; the deferred closing is skipped exactly when a listener makes finish hang |
| TunnelHandles.HostPortTunnel.PumpHostToSandbox | sandbox/tunnel.go:256-275 | ends in a reachable state; the wire grows by the frames of the reads, the entry is gone |
| SessionWaits.WaitResumed | sandbox/session.go:1196-1239 | the outcome is that of the first poll that ends the wait, each outcome spelled out in terms of the polls: reached exactly on RUNNING, in time and after polls that do not decide; no other outcome fits the polls |
| SessionWaits.WaitPaused | sandbox/session.go:1249-1292 | the same for PAUSED, with no deadline for a timeout of zero or less |
| SessionWaits.ResumedSpelled | sandbox/session.go:1196-1239 | the specification used in the theorems below is that if and only if, and exactly one outcome satisfies it |
| SessionWaits.PausedSpelled | sandbox/session.go:1249-1292 | the same for WaitPaused |
| SessionWaits.ReportableIff | sandbox/session.go:1187-1292 | for every history: a moment can be reported as a failure if and only if the session is fallen back then, and it is after the start of the wait or follows a transition with both within the grace before |
| SessionWaits.OutcomeReports | sandbox/session.go:1196-1292 | on the polls of such a server the outcome is a failure if and only if some turn reports one |
| SessionWaits.FailureIsReal | sandbox/session.go:1187-1239 | a report on an accepted attempt is that attempt's failure, or the attempt reached its goal first, or the report shows an earlier fall back within the grace before the wait |
| SessionWaits.AllReportsRealIff | sandbox/session.go:1187-1292 | for every history: all reportable failures are failures of attempts that never reached their goal if and only if every fallen back state after the start, and every one shortly before it that follows a transition, is one |
| SessionWaits.AllReportsOfIff | sandbox/session.go:1187-1292 | the same for the attempt accepted at a given moment |
| SessionWaits.NeverInTransition | sandbox/session.go:1224-1229 | a session that was stopped all along is reported as a failure after the grace |
| SessionWaits.SucceededBefore | sandbox/session.go:1224-1229 | a resume that succeeded and was paused again before the wait: one fresh answer after the grace is reported |
| SessionWaits.SucceededBetweenPolls | sandbox/session.go:1222-1229 | a resume that succeeded and was paused again between two fresh answers is reported |
| SessionWaits.SuccessIsObserved | sandbox/session.go:1217-1219 | success is only reported on an answer RUNNING or PAUSED that was true within the grace |
| SessionWaits.OldFailureIff | sandbox/session.go:1187-1292 | for every history and cut at or before the start: some wait reports a failure no later than the cut if and only if the session fell back from a transition by then, within the grace before the wait |
| SessionWaits.FalseFailureIff | sandbox/session.go:1187-1292 | if the session does not fall back once the wait has begun, some wait reports a failure if and only if it fell back from a transition within the grace before |
| SessionWaits.SettledIsReported | sandbox/session.go:1187-1292 | once the server stays in a decisive state, a poll in time and after the grace reports it: the goal as reached, a terminal state as ended, a fall back as such |
| ReadyBackoff.EnsureServing | sandbox/session.go:798-817 | the requests made and the way the loop ends are those of the reference loop |
| ReadyBackoff.RenewCredential | sandbox/session.go:924-968 | the requests and the way the loop ends are those of the reference loop; the result is what the last answer says in its own terms, or that the wait was given up |
| ReadyBackoff.DecisionSpelled | sandbox/session.go:934-964 | what each answer decides, in the order of the source: error, missing credential, failed route, endpoint, route not ready |
| ReadyBackoff.SpentClosedForm | sandbox/data_plane.go:41-43 | n waits cost 25n(n+1) ms up to 15 and 6000 + 750(n-15) ms beyond |
| ReadyBackoff.LoopBound | sandbox/session.go:970-982 | the waits of any loop fit its budget; every answer but the last is undecided, and the loop ends without a decision exactly when the last one is too |
| ReadyBackoff.GivesUpLate | sandbox/session.go:970-982 | a loop gives up only where the next wait would reach or pass the budget, or where the caller has cancelled |
| ReadyBackoff.AtMost88 | sandbox/options.go:19 | under the default budget at most 88 requests, whatever the server and the network do |
| ReadyBackoff.Exactly88 | sandbox/session.go:798-817 | a server that answers at once and is never ready is asked 88 times |
| BuildEvents.EventsFromProto | sandbox/template.go:635-648 | the filter loop keeps the recognised events in order |
| BuildEvents.PrefixStaysPrefix | sandbox/template.go:635-648 | dropping unrecognised events maps prefixes to prefixes |
| BuildEvents.RecognisedByPosition | sandbox/template.go:635-648 | the filtered list has one event for each raw event of a known kind, of that kind, behind as many others as known ones came before it |
| BuildEvents.WaitForTemplateBuild | sandbox/template.go:329-357 | each outcome in terms of the last poll; if the server only appends, the handler hears of each recognised event once and in order, of all of them when a build ends, and of none after it fails |
| BuildEvents.Deliver | sandbox/template.go:336-343 | one poll hands over the events beyond those handed over before, up to the first that the handler refuses |

## Left out

- RPC, HTTP/2, websockets, TLS, protobuf reflection and generated code: the server is an input of every model.
- Option setters, copies between protobuf and Go structs, registry, preview, volume, metrics and workspace wrappers, error classification by message text: each is one call or one assignment per field, with no state or invariant across calls.
- `dataPlaneOrigin`: what `url.Parse` says of an endpoint is a parameter; blanks are taken to be trimmed already.
- The search for a session id in a request (`findSessionID`) and the refusal of a request that names another session: it reads protobuf messages by reflection.
- The verified-client marker, the serving probe's place in `resolveDataPlane` and the warm-up goroutine: they change no state that the theorems are about.
- The wait times inside `credentialRenewalLoop` and which errors end it: a loop may exit at any step, and any response may arrive at any step, also one of a cancelled loop.
- The data plane after Pause or Resume is not proved empty: a response in flight may configure it again after `resetDataPlane`.
- DataPlaneHandles.Handle.CloseDataPlane: like ResetDataPlane, Release and Close it runs alone here, so the loops it waits for exit inside the call; interleaved with other calls it is the blocks of `data_plane_system.dfy`.
- DataPlaneHandles.Handle.ResetDataPlane: as CloseDataPlane.
- DataPlaneHandles.Handle.Release: as CloseDataPlane.
- DataPlaneHandles.Handle.Close: as CloseDataPlane.
- RunPipeline.NoDeadlock: does not model `Stream.Wait` called before the output is consumed, where a copier stops reading its pipe and the pump can block; in `Exec` nobody asks for that.
- RunHandles.RunHandle.Wait: is stated for calls one after the other; concurrent calls are the machine of `run_wait.dfy`.
- The fields of a run result other than streams, exit code and error; the `onOutput` callback.
- Keys that contain dots: the source joins them as they are, so the key `runtime.runAt` at the top counts as the field; `TemplateRewriter.Normalize` does the same, and `TemplateNames.NormalizedRenames` leaves such leaves open.
- JSON below the level of lexemes: escapes in strings, number literals and white space; a string or literal is one lexeme, and one that is not JSON is a lexeme no grammar rule uses.
- TemplateRewriter.JSONRoundTrip: takes from the protobuf codec that it prints one value without repeated keys and with protobuf enum names.
- `path.Clean` on paths that are not rooted: no allowed destination is one.
- Validation of template specs other than secret files and the builder methods of `TemplateSpec`.
- The resilient tunnel, whose state field may be written after its end, and `jitteredBackoff`.
- TunnelOutbound.OutboundInOrder: takes the engine to name accepted sub-streams by distinct ids other than 0; with a repeated id the frames of two connections share the wire (the inbound theorem needs no such condition).
- Failed sends on a tunnel: the source ignores them; what the model calls the wire is what was handed to Send.
- Failed writes to a host connection, also after it was closed for writing: the source ignores them; what the model calls written is what was handed to `conn.Write`.
- What a callback does besides closing its own tunnel; one that blocks for another reason would hold up the listeners after it in the same way.
- TunnelHandles.HostPortTunnel.Forward: runs without the pumps it starts; their interleaving is that of the machine in `tunnel_multiplex.dfy`.
- The texts of reasons and error messages, and the table from engine reasons to termination reasons.
- The number of polls of `WaitResumed` and `WaitPaused`, and the error texts they return.
- A `waitForTemplateBuild` without a handler, which hands over nothing.
- Fairness, wall-clock precision and randomness.
