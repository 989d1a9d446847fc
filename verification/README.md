# Headed-session transport: bridge, router and adapter

This project models three linked state machines of `aota_forge` and proves what they guarantee.

- **The invocation bridge** (`aota_forge/session_bridge.py`) issues HMAC credentials and verifies each
  of them at most once, in two separate critical sections with rotation possible in between.  Below it
  are its base64url codec, its dot-separated token format, its canonical JSON, the bound on its socket
  frames and its chunked line reader.
- **The session router** (`SessionScopedContextRouter`, `_SessionSlot` in `aota_forge/mcp_transport.py`)
  admits verified calls into at most 64 per-session slots, evicts and retires idle slots, runs one
  background completion cycle per slot with a hand-off from worker to worker, and drains at shutdown.
- **The adapter of one session** (`_UnboundAotaAdapter`, same file) resumes, binds, promotes and closes
  through transactions that can fail at almost every step, and leaves durable evidence in the files of the
  Projects it was bound to, which the next process resumes from.

`EndToEnd` composes the first two: whatever is executed was issued, once, for that session, operation
and arguments.  `SlotHosts` composes the last two: shutdown closes every host any slot ever composed, once.
`LockOrder` and `Deadlock` cover the locks, gates, tokens and the event loop.

## How it is built

Each machine has three layers.  A module of specification functions says what one critical section or
one operation does to the state as a value (`Bridge`, `RouterSpec`, `AdapterSpec`).  Classes with the
source's own mutable fields do the same in place, each method proved equal to its function
(`Bridge.InvocationBridge`, `Router.SessionSlot`, `Router.SessionScopedContextRouter`,
`Adapter.Process`, `Adapter.UnboundAdapter`).  A step machine over those functions has one step per
atomic section, and the main results are about every state of every run of it.

- The MAC and the digest are arbitrary functions with the output shape of HMAC-SHA-256 (section 2 of
  RFC 2104) and SHA-256.  No theorem assumes they are injective: a result that needs it says "unless this
  very token carried the right MAC of a segment never issued under that secret" (`BridgeRuns.Forged`) or
  "unless these two texts collide" (`Bridge.Collision`).
  Nonces only have their shape; bridge ids drawn by `rotate` are fresh.
- In `RouterMachine` a step is enabled only when the locks its section needs are free.  Admission takes
  several completion locks in turn; `RouterTheorems.AdmissionIsAtomic` shows that it may still be taken as
  one step.  The re-arm path holds the router lock over two completion sections, which are two steps
  (`FinishCycle`, `Rearm`) with requests allowed in between.
- `LockOrder` writes each thread as the program of what it acquires and releases; `LockSteps` ties these
  programs to the steps of `RouterMachine`.
- In `Deadlock` teardown takes the event loop in order, that is once no async call is in flight in a slot it
  will wait for; `Deadlock.TeardownExact` says what follows when it takes it out of order.
- The session's durable evidence is a map with one entry for each *home*, the root directory of a Project,
  whose `.aota` holds the file.  A home is not a project id: one id can stand in two workspaces.  Which
  homes a lookup scans is part of its `Attempt`.
- What each operation decides is also stated apart from the functions that decide it: `BridgeAnswers`,
  `TokenSizes`, `RouterAdmission`, `RouterOutcomes` and `AdapterAnswers` give the conditions and the error of
  every check from a request to its effect, in terms of inputs, calls, workers and records.
- The guarantees about runs are not empty: `BridgeWitnesses` and `EndToEndWitness` give, for everything the
  bridge issues, a run that accepts it and one that executes it.
- Time, randomness, gates of the completion path, the outcome of the operation, and whether a thread
  starts are parameters of the steps.  Whatever the adapter calls elsewhere (resolver, composer,
  materialization, read-back, file system) is an `Attempt` with an arbitrary outcome for each call.

## What the proofs found

1. A `close()` that finds the router closed already has nothing to drain and can return while calls are still
   in flight.  In any state in which a `close()` can take the router lock, it will keep its promise if and
   only if it finds the router open or everything is closed and drained already
   (`RouterLimits.CloseGuaranteeExact`).  One admitted call and one `close()` lead to a state in which a second
   `close()` can return early (`RouterWitnesses.EarlyReturn`).
2. Shutdown waits for calls, not for completion workers.  A slot can come to be closed during a completion
   cycle of it if and only if, where shutdown takes the lock, its completion is active or a caller has passed
   its launch check for it; in the latter case the worker even starts after shutdown began
   (`RouterLimits.OverlapExact`); both kinds of state are reached (`RouterWitnesses.LateWorker`,
   `RouterWitnesses.ActiveWorker`).  Retirement by an admission never overlaps a cycle.
3. `close()` runs on the event loop at lifespan teardown (`aota_forge/mcp_transport.py:3233-3241`) and blocks
   it.  Where a teardown can take the loop, a deadlock can follow if and only if an async call is then in
   flight in a slot that this teardown will wait for (`Deadlock.TeardownExact`).  The comment there relies on
   the server having ended such calls before.
4. The frame bound allows 32 bytes for an operation name, and the comment speaks of 32 ASCII bytes.  The
   bound covers every issue frame within the size limits exactly when the *escaped* name takes at most 33
   bytes; 32 ASCII control characters do not fit (`Frames.IssueBoundExact`, `Frames.AsciiNameExceedsBound`).
5. The bound adds the token's 4096 bytes unescaped.  It covers every verify frame for a token and an
   operation name exactly when the two take at most 6194 bytes as they are escaped, and a token of 4096
   quotation marks does not (`Frames.ProtocolVerifyBoundExact`, `Frames.QuotedTokenExceedsBound`).  Tokens the
   bridge issued need no escaping and always fit (`TokenFrames.IssuedTokenFits`).
6. Closing an adapter does not put the global dispatcher back.  It is left serving a closed host exactly when
   it served one of the adapter's hosts, which can happen if and only if the context may bind the global
   dispatcher, has an exact session reference, a registry path and a runtime configuration path
   (`AdapterRuns.CloseLeavesDispatcher`, `AdapterRuns.DanglingIsPossible`).
7. A bound session can be stranded: bound in good order, and yet no later process that sees all its evidence
   can resume it, because every lookup finds two records and reports a conflict.  That is so exactly when two
   homes hold evidence (`AdapterEvidence.StrandedExact`), and it is final (`AdapterEvidence.SplitIsFinal`).
   Writing evidence looks at one home only.  Three inputs lead there: bind P, close, bind Q
   (`AdapterEvidence.StrandByClose`); bind P with a write that replaces the file and whose rollback fails, then
   bind Q (`AdapterEvidence.StrandByReport`); bind P, then promote after P's workspace has moved, which the
   fingerprint does not cover (`AdapterEvidence.StrandByMove`).  Nothing else does: a session whose first
   lookup saw all there was keeps its evidence in one home until a close, a reported rollback failure, or a
   promotion in a new home (`AdapterEvidence.WholeUntilDivided`, `AdapterEvidence.StrandingExact`).
8. What keeps a promotion in its Project is the comparison of fingerprints, not the durable compare-and-swap,
   which looks only at the file of the home it writes to (`Listings.ProjectStays`).
9. The bound of 512 characters on an identity does not guarantee a credential.  One is issued exactly when the
   bridge id, the two identities and the two times together take at most 2751 bytes as they are printed
   (`TokenSizes.IssueExact`).  Identities of plain characters always leave room
   (`TokenSizes.PlainAlwaysIssues`); two of 512 characters of three bytes each never do
   (`TokenSizes.WideIdentitiesRefused`).

## Model

| member | source | states |
|---|---|---|
| Base64Url.EncodeShape | aota_forge/session_bridge.py:118-119 | the encoding is url-safe text of length ceil(4n/3), never 1 modulo 4 |
| Base64Url.RestoreUndoesStrip | aota_forge/session_bridge.py:122-130 | the padding that decoding restores is exactly the padding that encoding stripped |
| Base64Url.DecodeEncode | aota_forge/session_bridge.py:118-130 | decoding inverts encoding on every nonempty byte string whose encoding has at most 4096 characters |
| Base64Url.DecodeExact | aota_forge/session_bridge.py:122-130 | a text decodes if and only if it is nonempty, of at most 4096 characters, in the url-safe alphabet and of a length that is not 1 modulo 4; it then decodes to the bytes it spells |
| Utf8.DecodeEncode | aota_forge/session_bridge.py:255 | decoding the UTF-8 encoding of a text gives the text |
| Utf8.DecodeExact | aota_forge/session_bridge.py:255 | bytes decode to a text if and only if they are its encoding, so decoding is strict |
| Json.ParsePrint | aota_forge/core/contracts/canonical.py:31-39 | parsing canonical text gives back exactly the value that was printed |
| Json.TrailingRejected | aota_forge/session_bridge.py:255 | text that follows a value makes the whole no value |
| Json.PrintInjective | aota_forge/core/contracts/canonical.py:31-39 | two values with one canonical text are equal |
| Json.PrintNoNewline | aota_forge/session_bridge.py:313 | canonical text contains no newline, so a newline ends the frame |
| Tokens.SplitAssembled | aota_forge/session_bridge.py:223-240 | a token splits into exactly its prefix, payload segment and MAC segment |
| Tokens.SegmentDecodes | aota_forge/session_bridge.py:217-256 | a payload segment within the decoder's bound decodes to exactly the object that was put into it |
| Tokens.SegmentInjective | aota_forge/session_bridge.py:204-217 | payloads with one segment are equal |
| Tokens.IntIsDigits | aota_forge/session_bridge.py:274-276 | a number text that passes as an integer has only digits behind at most one sign |
| Tokens.ExtractInserted | aota_forge/session_bridge.py:152-167 | extracting the carrier gives the token and the logical arguments as they were before it was added |
| Tokens.ExtractExact | aota_forge/session_bridge.py:152-167 | whatever is extracted came from a carrier of exactly the right shape; the carrier is gone from the logical arguments and every other key is as it was |
| BridgeAnswers.ExtractAnswers | aota_forge/session_bridge.py:152-167 | exactly when a carrier is extracted, and which of the three errors is given otherwise |
| Bridge.CheckIssuedMac | aota_forge/session_bridge.py:237-252 | an issued token splits in three and passes the MAC section in every state with the issuing secret |
| Bridge.CheckMacExact | aota_forge/session_bridge.py:237-252 | for any token whatever: the first section passes on a segment if and only if the token has at most 4096 bytes and reads `aota-bridge-v1.<segment>.<mac>` with an ASCII segment and the base64url of that segment's MAC under the secret in force; it passes on the id in force with it |
| Bridge.CheckMacRefuses | aota_forge/session_bridge.py:237-252 | a wrong MAC over an ASCII segment is a forgery, a segment that is not ASCII an invalid request, any other form malformed |
| Bridge.CheckIssuedPayload | aota_forge/session_bridge.py:253-288 | between the sections an issued payload can fail only on epoch, then time, then the request, with those codes |
| Bridge.CheckRequestExact | aota_forge/session_bridge.py:283-288 | a request passes if and only if digest, expected session and expected call all agree, and passing changes nothing |
| Bridge.CheckPayloadExact | aota_forge/session_bridge.py:253-288 | for any payload in canonical text, issued or not: it passes as an identity if and only if it has exactly the payload fields, claims that identity in the epoch the first section read, a lifetime of at most ten seconds with the clock inside it up to two seconds of skew, and the request matches |
| BridgeAnswers.PayloadObjectExact | aota_forge/session_bridge.py:253-259 | a segment passes as a payload if and only if it is base64url of the UTF-8 of the text of an object with exactly the eleven fields |
| BridgeAnswers.PayloadAnswers | aota_forge/session_bridge.py:253-288 | between the sections a verify reports the first of its checks that fails, each stated on the payload's fields, the clock and the request |
| BridgeAnswers.CommitAnswers | aota_forge/session_bridge.py:289-302 | an ended epoch is reported before a spent nonce, and only an acceptance changes the bridge, by its nonce |
| Bridge.IssueThenVerify | aota_forge/session_bridge.py:198-302 | in its epoch a credential verifies if and only if its nonce is unconsumed, the clock second lies in [iat-2, iat+12] and the request matches; it yields exactly the issued identity and consumes exactly its nonce, and otherwise nothing changes |
| TokenSizes.TokenBytes | aota_forge/session_bridge.py:204-224 | the exact byte size of a token: 59 bytes and four for every three of its payload, whose fixed part is 180 |
| TokenSizes.IssueExact | aota_forge/session_bridge.py:198-226 | a credential is issued if and only if both identities are nonempty, free of NUL and of at most 512 characters, the operation is named, the arguments are an object, and identities and times take at most 2751 bytes as printed; otherwise exactly when which error is given |
| TokenSizes.PlainAlwaysIssues | aota_forge/session_bridge.py:198-226 | any two admissible identities of url-safe characters and dots get a credential |
| TokenSizes.WideIdentitiesRefused | aota_forge/session_bridge.py:224-225 | two admissible identities for which no credential can be issued |
| Bridge.DigestBinds | aota_forge/session_bridge.py:139-149 | equal digests mean the same operation and arguments, or exhibit two texts that collide |
| BridgeAnswers.DigestedText | aota_forge/session_bridge.py:139-149 | the text under the digest, written out with its two keys |
| Bridge.InvocationBridge.Rotate | aota_forge/session_bridge.py:190-196 | a new secret and id, nothing consumed |
| Bridge.InvocationBridge.IssueToken | aota_forge/session_bridge.py:198-226 | computes what `Issue` says, errors included, which `TokenSizes.IssueExact` states on the inputs |
| Bridge.InvocationBridge.VerifyMac | aota_forge/session_bridge.py:237-252 | the first section computes what `CheckMac` says, which `Bridge.CheckMacExact` states on the token |
| Bridge.InvocationBridge.VerifyCommit | aota_forge/session_bridge.py:289-302 | the second section does to the bridge what `Commit` says |
| Bridge.InvocationBridge.VerifyToken | aota_forge/session_bridge.py:237-302 | an uninterrupted verify does what `Verify` says |
| BridgeRuns.OneTimeUse | aota_forge/session_bridge.py:190-196 | in every interleaving no (bridge id, nonce) pair is accepted twice, although rotation clears the consumed set |
| BridgeRuns.RotationBarrier | aota_forge/session_bridge.py:244-291 | nothing accepted after a rotation carries the id of an earlier epoch, verifies that straddle one or several rotations included |
| BridgeRuns.AcceptedImpliesIssued | aota_forge/session_bridge.py:203-302 | every acceptance is of a credential issued before its MAC was checked, in the same epoch, with its session, call, nonce and digest, in its window and for its invocation, unless its token carried the right MAC of a segment never issued under that secret, or a digest collides |
| BridgeRuns.AcceptedIsSealed | aota_forge/session_bridge.py:249-252 | the token behind every acceptance carries the MAC of its segment under the secret of the epoch it was accepted in |
| BridgeRuns.FailedVerifyChangesNothing | aota_forge/session_bridge.py:237-294 | a step that accepts nothing and is no rotation leaves the bridge as it was; the consumed set counts the acceptances since the last rotation |
| BridgeRuns.HonoursIssue | aota_forge/session_bridge.py:253-302 | an acceptance whose checked segment is that of an issued credential has exactly that credential's identity, epoch, window and invocation |
| BridgePresentations.StillAccepted | aota_forge/session_bridge.py:237-294 | in any run, a credential presented and committed in its epoch, with anything before and in between, is accepted if and only if its nonce has not been accepted in the epoch, the clock is in its window and the request matches; earlier failed presentations cost nothing, and a failing one changes nothing |
| BridgeWitnesses.IssuedIsAccepted | aota_forge/session_bridge.py:198-302 | whatever the bridge issues is accepted in a run that presents it within its window for what it was issued for |
| Frames.BoundedCompact | aota_forge/core/contracts/validation.py:288-295 | arguments whose spaced text is within MAX_TOTAL_INPUT_BYTES take fewer bytes than that in a frame |
| Frames.IssueFrameBytes | aota_forge/session_bridge.py:52-65 | an issue frame is exactly its skeleton with the escaped texts and the printed arguments put in |
| Frames.VerifyFrameBytes | aota_forge/session_bridge.py:66-68 | the same for a verify frame |
| Frames.VerifyFrameFits | aota_forge/session_bridge.py:69-79 | every verify frame fits whose token takes at most 4096 bytes and whose operation name takes at most 33, as they are escaped |
| Frames.VerifyBoundExact | aota_forge/session_bridge.py:66-79 | the bound covers every verify frame with a given token and operation name, whatever arguments within the size limit, if and only if the two, as escaped, fit into the room that is left beside the largest arguments |
| Frames.ProtocolVerifyBoundExact | aota_forge/session_bridge.py:52-79 | with the bridge's own key names that room is 6194 bytes |
| Frames.ProtocolSocketMax | aota_forge/session_bridge.py:52-79 | the bound is 268392 bytes |
| Frames.QuotedTokenExceedsBound | aota_forge/session_bridge.py:73-77 | a token of 4096 bytes that does not fit beside any operation name, for some arguments within the size limit |
| Frames.IssueBoundExact | aota_forge/session_bridge.py:69-79 | every issue frame with identities of at most 512 characters and arguments whose spaced text is within MAX_TOTAL_INPUT_BYTES fits if and only if the escaped operation name takes at most 33 bytes |
| Frames.ProtocolBoundExact | aota_forge/session_bridge.py:52-79 | the same for the bridge's own key names |
| Frames.AsciiNameExceedsBound | aota_forge/session_bridge.py:45-48 | an operation name of 32 ASCII characters for which some issue frame with identities and arguments within those size limits does not fit |
| TokenFrames.IssuedTokenFits | aota_forge/session_bridge.py:66-79 | every issued credential is free of escapes and fits its verify frame |
| Reader.ReceiveLine | aota_forge/session_bridge.py:321-335 | the read loop ends, and its outcome depends on the bytes alone, however chunks of 1 to 4096 bytes cut them up |
| Reader.ResponseDelivered | aota_forge/session_bridge.py:321-337 | a printed response within the bound is returned exactly under any chunking, a longer one is rejected |
| Reader.ResponseLineExact | aota_forge/session_bridge.py:332-337 | of any stream the client takes exactly the first line, if that is not empty and within the bound |
| Reader.RequestDelivered | aota_forge/session_bridge.py:396-402 | the server accepts a request as exactly the printed object if and only if the client may send it |
| Reader.AcceptExact | aota_forge/session_bridge.py:396-402 | of any stream the server takes exactly the object that its first line is the text of, if the line with its newline is within the bound |
| RouterSpec.AdmitDecides | aota_forge/mcp_transport.py:1736-1780 | exactly when admission is refused and with which code, in terms of in-flight counts and active completions; an admission hands out a slot of the caller's session and epoch, raises only its in-flight count and unmaps at most one slot, which had neither; so capacity is never the answer after a stale slot was popped |
| RouterSpec.EvictsOldestIdle | aota_forge/mcp_transport.py:1762-1773 | a full map evicts a slot if and only if nobody is in flight and no completion active in it, and every slot inserted before it has one or the other |
| RouterAdmission.IdleExact | aota_forge/mcp_transport.py:1746 | in every reachable state the count and the flag admission looks at say whether a call has been admitted and not released, or a worker has not ended |
| RouterAdmission.RefusedExactly | aota_forge/mcp_transport.py:1736-1768 | in any run an admission is refused if and only if the router is closed, or the session's slot is of another epoch and still has a call or a worker, or the session has no slot and each of 64 mapped ones has one; with which code; and it changes nothing else |
| RouterAdmission.AdmittedExactly | aota_forge/mcp_transport.py:1745-1780 | in any run when a call joins its session's slot, when it gets a new one, and exactly which slot that one replaces: its session's own of another epoch, or the first of 64 with neither call nor worker |
| RouterAdmission.MapsInOrder | aota_forge/mcp_transport.py:1751-1780 | the slot map after an admission: a new slot comes last, the retired one leaves its place |
| RouterOutcomes.GateExactly | aota_forge/mcp_transport.py:1851-1872 | in any run a verified call goes on if and only if its session is exact, and has a slot, or asks for what an unbound session may, or has durable evidence |
| RouterOutcomes.RetireExactly | aota_forge/mcp_transport.py:1781-1787 | the retiring caller closes exactly the slot it unmapped; if that fails it leaves without executing |
| RouterOutcomes.AskExactly | aota_forge/mcp_transport.py:1931-1949 | a call asks for a pass if and only if it succeeded, is eligible, and is a task start or the slot's first eligible call; it holds the new generation |
| RouterOutcomes.LaunchExactly | aota_forge/mcp_transport.py:2010-2043 | a caller past its launch check starts a worker, with the current generation, if and only if the slot has none left and the thread starts; if the thread does not, exactly its request is dropped |
| RouterOutcomes.FailedHandOver | aota_forge/mcp_transport.py:2121-2132 | a hand-over whose thread does not start leaves the slot without a worker and records every request not captured as dropped |
| RouterOutcomes.LeaveExactly | aota_forge/mcp_transport.py:1800-1803 | a call that leaves lowers its own slot's count by one and changes nothing else |
| RouterSpec.FindExact | aota_forge/mcp_transport.py:1743 | in a coherent map a key finds the one entry that has it |
| RouterSpec.RemoveExact | aota_forge/mcp_transport.py:1751 | popping a key removes exactly its entry |
| Router.SessionSlot.RequestCompletion | aota_forge/mcp_transport.py:1945-1949 | records a request unless recovery was checked already |
| Router.SessionSlot.Start | aota_forge/mcp_transport.py:2010-2043 | starts a worker with the current generation unless another owner is active, and undoes it if the thread does not start |
| Router.SessionSlot.Clear | aota_forge/mcp_transport.py:2118-2120 | only the current owner gives completion up |
| Router.SessionSlot.Enter | aota_forge/mcp_transport.py:1882-1892 | accepts exactly the slot's own session and epoch, and only then makes an adapter |
| Router.SessionScopedContextRouter.Admit | aota_forge/mcp_transport.py:1738-1780 | does in place what `Admit` says: map, counts, new slot, retired slot and code |
| Router.SessionScopedContextRouter.ScanIdle | aota_forge/mcp_transport.py:1764-1771 | the scan stops at the first mapped slot, in insertion order, with nobody in flight and no active completion, or there is none |
| Router.SessionScopedContextRouter.FindIdle | aota_forge/mcp_transport.py:1764-1771 | finds the entry `FirstIdle` says |
| Router.SessionScopedContextRouter.Release | aota_forge/mcp_transport.py:1800-1803 | lowers the slot's in-flight count and nothing else |
| Router.SessionScopedContextRouter.LaunchRefused | aota_forge/mcp_transport.py:2002-2003 | refuses when closed or when the slot is not the one mapped |
| Router.SessionScopedContextRouter.Finish | aota_forge/mcp_transport.py:2106-2120 | the end of a cycle under both locks: re-arm, or give up the slot |
| Router.SessionScopedContextRouter.Shut | aota_forge/mcp_transport.py:2222-2225 | closes the router and hands out the slots to drain, in order |
| RouterInvariant.CheckLaunchInv | aota_forge/mcp_transport.py:2002-2009 | a caller's launch check in an open router always passes, because its slot is still mapped |
| RouterInvariant.LaunchInv | aota_forge/mcp_transport.py:2010-2043 | starting a worker after the router lock was dropped keeps the invariant, because the caller still counts as in flight |
| RouterSteps.FinishInv | aota_forge/mcp_transport.py:2106-2120 | the end of a cycle keeps the invariant: a worker leaves nothing requested behind in an open, mapped slot |
| RouterSteps.RearmInv | aota_forge/mcp_transport.py:2002-2043 | the hand-off keeps the invariant whatever was requested between the two sections, and its refusal branch is never taken |
| RouterSteps.EnterInv | aota_forge/mcp_transport.py:1736-1787 | admission keeps the invariant |
| RouterSteps.ShutdownInv | aota_forge/mcp_transport.py:2221-2225 | the start of shutdown keeps the invariant |
| RouterSteps.RunInv | aota_forge/mcp_transport.py:1716-2230 | every state of every run satisfies the router invariant |
| RouterTheorems.SlotMapCoherent | aota_forge/mcp_transport.py:1736-1803 | at most 64 slots, each key its slot's session, each in-flight count the number of calls admitted and not released |
| RouterTheorems.ExecutesInOwnSlot | aota_forge/mcp_transport.py:1875-1890 | an admitted call's slot has the call's session and epoch, so the route mismatch never fires; calls of one slot never execute together, and no call executes twice |
| RouterTheorems.AdmissionIsAtomic | aota_forge/mcp_transport.py:1738-1780 | while admission holds the router lock no other thread changes which slots are busy, or the map |
| RouterTheorems.OneCycleAtATime | aota_forge/mcp_transport.py:2010-2043 | at most one completion worker of a slot is in its cycle or handing over |
| RouterTheorems.NoRequestLost | aota_forge/mcp_transport.py:1945-2132 | in an open router with the slot mapped, no completion active and no caller between request and launch, the last worker started captured the current generation, unless a later gate failed or a thread did not start: every request it missed is one of those |
| RouterTheorems.HandsOverExactly | aota_forge/mcp_transport.py:2106-2120 | a worker hands over if and only if the router is open, the slot mapped, and a newer request is recorded or its cycle left a task active; otherwise it ends and the slot is inactive |
| RouterTheorems.SuccessorCapturesAll | aota_forge/mcp_transport.py:2121-2132 | the successor captures also what is requested during the hand-off, and owns the slot |
| RouterRequests.GenerationCounts | aota_forge/mcp_transport.py:1931-1949 | in every run a slot's generation is exactly the number of passes asked for (every eligible `task.start`, and the first eligible call whatever it is), and recovery is marked checked exactly once there was one |
| RouterTheorems.RetirementIsSafe | aota_forge/mcp_transport.py:1745-1787 | from the moment an admission unmaps a slot it has no call in flight, no active completion and no live worker, and never again |
| RouterTheorems.CloseIsComplete | aota_forge/mcp_transport.py:2221-2230 | when the close that found the router open returns, every slot and adapter ever created has been closed exactly once, slots being retired by other threads included, no call is in flight, every admission is refused, and this stays so |
| RouterTheorems.NeverClosedTwice | aota_forge/mcp_transport.py:1781-1793 | at any time a slot has been closed at most once, and only when nobody is in flight in it |
| RouterTheorems.NoWorkerStartsAfterDrain | aota_forge/mcp_transport.py:2002-2010 | once shutdown has drained no step starts a worker |
| RouterLimits.CloseGuaranteeExact | aota_forge/mcp_transport.py:2221-2230 | in any reachable state where a close can take the router lock: in all continuations in which it has returned everything is closed once and drained, if and only if it finds the router open or this holds already |
| RouterLimits.OverlapExact | aota_forge/mcp_transport.py:2226-2230 | in any such state and for any slot: a continuation closes the slot during its completion cycle if and only if its completion is active or some caller is past its launch check for it |
| RouterWitnesses.EarlyReturn | aota_forge/mcp_transport.py:2221-2230 | a reachable state where a close finds the router closed with a call admitted and can break its promise |
| RouterWitnesses.LateWorker | aota_forge/mcp_transport.py:2002-2010 | a reachable state where a caller is past its launch check, no worker has started, and a close can overlap the slot's cycle |
| RouterWitnesses.ActiveWorker | aota_forge/mcp_transport.py:2106-2120 | a reachable state where a worker is in its cycle and a close can overlap it |
| LockOrder.ProgramsAreDisciplined | aota_forge/mcp_transport.py:2169-2219 | every path of a sync call, an async call, a completion worker, a closer and teardown takes in-flight count, gate, token, event loop, execution lock, router lock and completion lock in this order, re-entering only the router lock |
| LockSteps.CallsTakeWhatTheirStepsNeed | aota_forge/mcp_transport.py:1820-1928 | a call that runs, made synchronously or on the event loop and however far its completion gets, takes in order exactly the router, execution and completion locks that the sections of its router steps need, and its in-flight mark with its admission and release |
| LockSteps.WorkersTakeWhatTheirStepsNeed | aota_forge/mcp_transport.py:2106-2132 | so does a completion worker, that hands over or not |
| LockSteps.ClosersTakeWhatTheirStepsNeed | aota_forge/mcp_transport.py:2221-2230 | so does a close, at teardown or elsewhere: it waits for exactly the slots it will close |
| LockSteps.AsyncExecutes | aota_forge/mcp_transport.py:2189-2219 | an async call waits for its session's gate holding only its mark, and for the slot's execution lock holding mark, gate and worker token but not the event loop |
| LockSteps.WorkerKeepsRouter | aota_forge/mcp_transport.py:2106-2132 | a worker that hands over holds the router lock whenever it takes the completion lock |
| Deadlock.NoDeadlock | aota_forge/mcp_transport.py:1738-2230 | with any number of such threads in any interleaving, teardown in order, if somebody is unfinished somebody can run |
| Deadlock.NoWaitingCycle | aota_forge/mcp_transport.py:1738-2230 | no reachable state has a cycle of waiting threads |
| Deadlock.TokensAndGates | aota_forge/mcp_transport.py:2196-2215 | at most two worker tokens are in use, and a call waiting for its session gate holds no token, no lock and not the event loop |
| Deadlock.TeardownExact | aota_forge/mcp_transport.py:3233-3241 | in any reachable state where a teardown can take the event loop: a state where nobody can move follows if and only if an async call is in flight in a slot this teardown will wait for |
| Deadlock.TeardownBesideCall | aota_forge/mcp_transport.py:2205-2219 | both kinds of state are reached: a call waits for its gate while a teardown can take the loop to wait for any list of slots |
| Adapter.UnboundAdapter.constructor | aota_forge/mcp_transport.py:2240-2336 | construction looks for the session's evidence in the homes the lookup sees, stays unbound with a conflict if two have some, else resumes as `Resume` says, and gives a valid adapter |
| Adapter.UnboundAdapter.BindContext | aota_forge/mcp_transport.py:2735-3016 | the transaction does to adapter and process what `Bind` says, on every path; evidence goes to the file in the root of the composed host's own Project |
| Adapter.UnboundAdapter.InvokeOperation | aota_forge/mcp_transport.py:2548-2563 | routes to promotion, bind or neither; a valid adapter stays valid and only moves forward, and unless it was bound or promoted fields, dispatcher, open hosts and evidence are as they were, but for what a reported rollback failure leaves in the attempted home |
| Adapter.UnboundAdapter.CloseAdapter | aota_forge/mcp_transport.py:2351-2357 | empties the three fields, and a valid adapter has then closed every host it ever composed exactly once, evidence and dispatcher untouched |
| Adapter.Process.WriteVerified | aota_forge/runtime/task_main/context_binding.py:551-585 | write, read back and roll back as `PersistVerified` says, in the file of one home and no other |
| Adapter.Process.PersistBinding | aota_forge/runtime/task_main/context_binding.py:587-637 | persists in one home as `Persist` says |
| Adapter.Process.RefreshForSession | aota_forge/runtime/task_main/context_binding.py:683-731 | refreshes in one home as `Refresh` says |
| Adapter.Process.Locate | aota_forge/runtime/task_main/context_binding.py:788-806 | the scan finds exactly the visible homes with evidence of the session |
| AdapterRuns.PersistIsAtomic | aota_forge/runtime/task_main/context_binding.py:551-637 | success means the new record is there, an ordinary failure the old one, a reported rollback failure one of the two; other evidence is replaced, even by a failing write, only where a promotion expects it and only by a Plan record of the same Project and fingerprint |
| AdapterRuns.RefreshIsAtomic | aota_forge/runtime/task_main/context_binding.py:683-731 | the same for a refresh, which keeps the record's Project, fingerprint, roots and Plan identity even when it fails |
| AdapterAnswers.VerifiedWrite | aota_forge/runtime/task_main/context_binding.py:551-585 | what every outcome of the writes and reads leaves in the file, and that a failure is reported as an ordinary one only if reads show the old evidence again |
| AdapterAnswers.PersistExact | aota_forge/runtime/task_main/context_binding.py:587-637 | exactly when a bind's evidence is on record afterwards and when there is a conflict |
| AdapterAnswers.RefreshExact | aota_forge/runtime/task_main/context_binding.py:683-731 | evidence is refreshed if and only if it is still what was read, Project, fingerprint, roots and Plan identity agree, and the write is verified; a Plan's revision and digest may advance, another Plan is a Plan mismatch |
| AdapterRuns.InvokeAllOrNothing | aota_forge/mcp_transport.py:2735-3016 | an invocation installs exactly the host it composed, with dispatcher and evidence in its home, or leaves fields, dispatcher and open hosts as they were, and all evidence too unless it reports a rollback failure; then only the attempted home may differ, by the attempted evidence |
| AdapterRuns.ResumeOutcome | aota_forge/mcp_transport.py:2249-2336 | a resume installs a host that agrees with the evidence of the one home it found, refreshed in place, or leaves an unbound adapter, the old dispatcher, no open host and evidence in the same homes, the same but for a reported refresh |
| AdapterRuns.BindingIsAtomic | aota_forge/mcp_transport.py:2249-3016 | after any sequence of attempts the three fields are of one host or empty, the open hosts are exactly the installed one, every other host was closed exactly once, and the evidence in the home last verified says what is installed, or after an unverifiable rollback there the Plan its promotion attempted |
| AdapterRuns.NeverTouchesDispatcher | aota_forge/mcp_transport.py:2276-2331 | without permission to bind globally the dispatcher never changes |
| AdapterRuns.BindTakesEffect | aota_forge/mcp_transport.py:2792-3004 | in any run an invocation binds an unbound session if and only if its resume has not failed, it is a valid bind of a named Project, context and calls allow it, and that Project's home holds no evidence of the session and has room, or this very evidence, whatever other homes hold; it is then bound to the Plan, else the Project, with that evidence in that home |
| AdapterRuns.PromotionTakesEffect | aota_forge/mcp_transport.py:2749-3004 | in any run an invocation promotes a Project-bound session if and only if it is a valid bind request that names a Plan, and the bound Project if any, the resolved fingerprint is the bound one, context and calls allow it, and the composed host's home holds Project evidence of the same Project, fingerprint and roots, or none and has room; otherwise the session keeps its fields |
| AdapterRuns.PromotionAtSeat | aota_forge/runtime/task_main/context_binding.py:611-623 | in the home the bound evidence is in, the compare-and-swap of a promotion with the bound fingerprint passes if and only if that evidence is still the bound one and the resolved Project the bound one |
| AdapterAnswers.BoundAnswers | aota_forge/mcp_transport.py:2474-2560 | in any run a Project-bound session runs the transaction for a valid bind request that names a Plan, and the bound Project if any, and reports the first check that fails; for every other request, and once Plan-bound, nothing of the adapter's changes |
| AdapterAnswers.UnboundAnswers | aota_forge/mcp_transport.py:2560-2735 | in any run an unbound session answers a context request with its resume error, an invalid one as such, and a bind with the first check that fails; nothing else has an effect |
| AdapterAnswers.ResumeAnswers | aota_forge/composition/unbound_resolution.py:352-507 | a resume reports the first check that fails from lookup to refresh; if none does it is bound, and the evidence is as it was with the Plan as observed now |
| AdapterRuns.CloseLeavesDispatcher | aota_forge/mcp_transport.py:2351-2357 | closing leaves the dispatcher alone, so serving a closed host exactly when it served one of the adapter's |
| AdapterRuns.DanglesExactly | aota_forge/mcp_transport.py:2351-2357 | in a reachable state the dispatcher serves a closed host exactly when it serves one of the adapter's and nothing is installed |
| AdapterRuns.DanglingIsPossible | aota_forge/mcp_transport.py:2351-2357 | such a state can be reached if and only if the context may bind globally and has what composing takes: an exact session reference, a registry path and a runtime configuration path |
| AdapterRuns.OnlyForward | aota_forge/mcp_transport.py:2474-2564 | until close a binding goes from unbound to Project-bound to Plan-bound only, never changes its fingerprint whatever the resolver says, nor its Project unless two Projects have one fingerprint, and a Plan-bound adapter keeps its very fields |
| AdapterRuns.FailedResumeIsFinal | aota_forge/mcp_transport.py:2332-2336 | after a failed resume the adapter stays unbound whatever is invoked or closed, with every host it composed closed and no evidence written |
| Listings.ListingTextInjective | aota_forge/core/project/resolver.py:32-42 | two listings with one fingerprint text agree in Project id, name, kind, status, root and manifest path |
| Listings.ProjectStays | aota_forge/mcp_transport.py:2834-2842 | a binding keeps its Project and the very listing it was made from until it is closed, promotions included, unless the texts of two listings collide |
| AdapterEvidence.RestartRoundTrip | aota_forge/composition/unbound_resolution.py:352-507 | a new adapter that finds the evidence of a bound session of any run binds if and only if it sees evidence in exactly one home and can rejoin it; if that is the session's own, to the same Project and fingerprint, and unless a rollback had failed there at the same rank with the same Plan identity and roots; if it sees two, it reports a conflict |
| AdapterEvidence.ResumableExactly | aota_forge/runtime/task_main/context_binding.py:754-806 | some process that sees all evidence of a bound session can resume it if and only if exactly one home has any |
| AdapterEvidence.EvidenceStays | aota_forge/runtime/task_main/context_binding.py:551-637 | a home that has evidence of the session never loses it in a run, whatever writes are rolled back |
| AdapterEvidence.SplitIsFinal | aota_forge/mcp_transport.py:2264-2336 | an adapter started with evidence in two homes in sight stays unbound and writes no evidence, whatever its context and whatever is invoked or closed |
| AdapterEvidence.WholeUntilDivided | aota_forge/mcp_transport.py:2980-2995 | the evidence of a session whose resume saw all there was, in at most one home, stays in one home until a close, a reported rollback failure, or a promotion in a new home |
| AdapterEvidence.NextHomeExact | aota_forge/mcp_transport.py:2980-2995 | in any reachable state some invocation would file evidence in a further home if and only if the context can compose and the session is unbound with no failed resume, or bound to a Project in a context with governance inputs |
| AdapterEvidence.StrandedExact | aota_forge/runtime/task_main/context_binding.py:801-806 | in any run a bound session is beyond resuming by any process that sees all its evidence if and only if two homes hold some |
| AdapterEvidence.StrandByClose | aota_forge/mcp_transport.py:2351-2357 | such a session is reached by bind, close, bind of another Project |
| AdapterEvidence.StrandByReport | aota_forge/runtime/task_main/context_binding.py:567-585 | and without a close by a bind whose rollback fails, then a bind of another Project |
| AdapterEvidence.StrandByMove | aota_forge/mcp_transport.py:2834-2842 | and with neither by a bind, then a promotion after the Project's workspace has moved |
| AdapterEvidence.StrandingExact | aota_forge/mcp_transport.py:2735-3016 | a session that started whole can be stranded if and only if its context can compose and at least one of close, reported rollback failure and, with governance inputs, promotion is possible |
| EndToEnd.ExecutesWhatWasIssued | aota_forge/mcp_transport.py:1267-1286 | in any run of bridge and router steps an execution runs in a slot of the session and epoch of an issued credential, with its operation and logical arguments, unless a MAC was forged or a digest collides |
| EndToEnd.AtMostOneExecution | aota_forge/mcp_transport.py:1820-1891 | no two executions share a (bridge id, nonce) pair |
| EndToEnd.NoCredentialRunsTwice | aota_forge/mcp_transport.py:1820-1891 | no issued credential is behind two executions |
| EndToEndWitness.IssuedIsExecuted | aota_forge/mcp_transport.py:1267-1286 | whatever the bridge issues for an object of arguments is executed, as that work in that session and epoch, in a run that presents it within its window |
| SlotHosts.OneOpenHostPerSlot | aota_forge/mcp_transport.py:1875-1912 | in any run of router and adapters a slot has at most one open host, a closed slot none, and no host is closed twice |
| SlotHosts.ShutdownClosesEveryHost | aota_forge/mcp_transport.py:2221-2230 | when the close that found the router open has returned, every host ever composed in any slot ever created has been closed exactly once, evicted and retired slots included, and none is composed again |

## Left out

- JSON input that is not canonical: `json.loads` also reads white space, other spellings of the version
  number, duplicate keys and lone surrogates; `Json.Parse` reads canonical text only.
- Bridge.CheckPayloadExact: covers payloads in canonical text; other spellings that `json.loads` reads as the
  same fields are not modelled, and are not behind any MAC the bridge made.
- Frames.IssueBoundExact: arguments are bounded by their total size only, as are those of the other frame
  results.  What input validation allows for a single key or string depends on the operation's descriptor and
  is not modelled; neither client nor bridge applies it to a frame.
- Key order: objects are printed in the order their fields stand in, and the frames, payloads and digests
  list theirs sorted; sorting itself is not modelled.  Numbers are lexemes, so float formatting is not.
- The socket client's timeouts and I/O errors, peer credentials, the socket file, the evidence log and the
  command line.
- HMAC, SHA-256 and random generation.
- The contents of a completion cycle, Core dispatch, and `_has_known_active_headed_execution`: a cycle ends
  in any way, and its verdict is a parameter of the step.
- The gates of `_verify_invocation` and `_maybe_start_headed_thin_completion` are boolean parameters of their
  steps; `RouterTheorems.NoRequestLost` says what a failing later gate costs.
- Request cancellation, FastMCP and `CallToolResult` wrapping.
- `Router.SessionScopedContextRouter`: waiting on the condition and the closing loop of `close()` are steps of
  `RouterMachine` (`Drained`, `CloseNext`), not a method; aliasing of the adapter object is not modelled there,
  a slot records whether it has one.
- A slot's `execution_dispatcher` and `execution_store`, which only feed the completion cycle.
- `CloseNext` has no failing variant because `_close_activation_runtime` swallows what closing raises;
  `CloseStale` has one because `_slot` handles it.
- What `compose_thin_task_main_host` leaves open when it raises: nothing, by assumption (`NotBuilt`).
- Writers of the session's durable evidence other than its adapter.
- The adapter's operations other than those that touch its binding; a bound delegate's own operations.
- Concurrent binds on one adapter: the slot's execution lock serializes them, and no lock does elsewhere.
- Exceptions from the dispatcher setter after the commit assignments.
- Trimming of selectors, the schema version of a durable record, and the records of other sessions in the
  file of one home, which a write keeps as they are.
- How the lookup finds the homes it scans (workspace registry, Project scan, worktree root): the set it scans
  and whether the scan succeeds are parameters of a resume.
- Locks of the stores an operation uses while it holds its slot's execution lock.
