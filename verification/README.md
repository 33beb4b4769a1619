# Telephone: verified models

Dafny models of Telephone's reconnection, token, connection and proxy logic, with proofs about every run,
every interleaving and every input. `dafny verify dfyconfig.toml` checks the whole project.

| file | models |
|---|---|
| `Backoff.dfy` | the jittered exponential delay, on 64-bit durations |
| `Reconnect.dfy` | the retry loop of `reconnect`, as a class with its flag |
| `Tokens.dfy` | the four copies of the token: the two procedures as methods, and all their interleavings as a machine |
| `Jwt.dfy` | the claims of a token: validity and half-life |
| `Refresh.dfy` | the token refresh loop and the waits it chooses |
| `TokenStore.dfy` | the table of stored tokens, as a class; the retrying save |
| `ResponseBody.dfy` | the response read loop on a reused array, the buffer pool, the chunked payload |
| `BackendPath.dfy` | path validation: splitting, percent-decoding, lexical cleaning |
| `ChannelsClient.dfy` | Connect, Disconnect, Close, Send and the read loops of the channel client |
| `PendingReplies.dfy` | references, the table of pending requests, reply routing |
| `WsManager.dfy` | the manager of backend WebSocket connections and its receivers |
| `Arith.dfy`, `Totals.dfy`, `Wrappers.dfy` | shared helpers |

## How concurrency is modelled

The channel client, the pending table, the manager and the token copies are step machines: a state, actions
that are enabled or not, and runs that are arbitrary sequences of enabled actions by any number of callers and
goroutines. Mutable fields are components of the state. In the client `connLock` has an explicit holder, and
every step touches shared state once; in the manager each mutex-protected region is one step, since no two of
its mutexes are held together. In the pending table looking a reply up and sending it are two steps, as in the
code. Termination is stated without fairness: after a shutdown every run, whatever peers and other callers do,
has a bounded number of steps, a fixed number more for each new call; and until everything has finished some step
is possible that needs neither the peer nor a new call. Such a step is a read only on a closed socket, a Send's
write only when no socket is open; in the manager writing the close frame is taken to return.

## What does not hold, and exactly when it does

- The delay stays in its band while `initial * 2^(attempt-1)` fits 64 bits. Beyond that Go leaves the
  conversion to the platform; where it leaves a non-positive number the delay falls back to the initial one
  (`OverflowCollapses`).
- `MaxRetries` bounds failed connection attempts, not attempts: failing joins go on for ever
  (`JoinFailuresAreUnbounded`).
- Over runs in which the writes of a refresh and of a fallback do not interleave, the client's token agrees with
  the current one whenever neither is under way if and only if the original token is empty or parses
  (`TokensAgreeIff`). Where they interleave a completed refresh can be undone in the client
  (`OverlapLosesNewToken`); over all runs the two agree if and only if there is nothing to fall back on: no
  original token, or no other token that parses (`OverlapAgreesIff`).
- A reply looked up just before its caller gives up is sent on a closed channel (`LateSendPanics`). As long as each
  channel is closed when nothing is on its way to it, that never happens (`GuardedRunsDoNotPanic`); and closing
  one makes it possible if and only if something is (`CloseIsSafeIff`).
- Validating a path twice changes nothing if and only if the cleaned path is stable (`IdempotentIff`), which
  every path without an escape is; `/%25` is not.
- Cleanup shows in `Stats`, whose counts of all rows and of expired ones miss exactly the rows deleted
  (`CleanupUnobservable`). `Stats` calls a row expired at its expiry instant, cleanup deletes it only after
  (`CleanupLeavesBoundary`).
- A refresh fires before expiry except, past half-life, when a second or less is left (`RefreshBeatsExpiry`).
- The documentation speaks of chunking large responses; the code chunks by reads, so a small body that arrives
  in two reads is chunked as well (`BodyArrives`).

## Model

| member | source | states |
|---|---|---|
| `Arith.ScaledIsProduct` | pkg/proxy/reconnect.go:226 | the doubling used in the model is multiplication by a power of two |
| `Backoff.SecureRandomDuration` | pkg/proxy/telephone.go:43-60 | a draw below the maximum, zero for a failed read or an empty range |
| `Backoff.DrawKeepsRemainder` | pkg/proxy/telephone.go:43-60 | the result and the draw differ by a whole number of limits, so every draw counts |
| `Backoff.CalculateBackoffWithJitter` | pkg/proxy/reconnect.go:224-250 | computes the specified delay with no intermediate value outside 64 bits, whatever an overflowing product converts to |
| `Backoff.JitteredInBand` | pkg/proxy/reconnect.go:224-250 | for every draw the delay is within a quarter of the capped exponential delay, and between the initial and the maximal delay |
| `Backoff.BandIsReached` | pkg/proxy/reconnect.go:233-238 | every value of the band below its open end is the delay of some draw |
| `Backoff.OverflowCollapses` | pkg/proxy/reconnect.go:225-226 | after an overflow that leaves a non-positive number the delay is the initial one, so the band holds if and only if the initial delay lies in it |
| `Backoff.SumCappedClosedForm` | pkg/proxy/reconnect.go:225-231 | the summed capped delays are geometric up to the cap and linear after it |
| `Backoff.SumBandsClosedForm` | pkg/proxy/reconnect.go:224-250 | the summed lower and upper ends of the bands in closed form, quarters rounded down as in the code |
| `Reconnect.Reconnector.Reconnect` | pkg/proxy/reconnect.go:14-103 | a call is refused while the flag is up; otherwise it plays the specified rounds, whose ends `ExitIsDetermined` gives, and every way out releases the flag |
| `Reconnect.ExitIsDetermined` | pkg/proxy/reconnect.go:34-102 | the loop goes on exactly as long as every round does, by shutdown, outcome and limit alone; the first round that does not says which way the call ends, for each way if and only if, and after how many attempts |
| `Reconnect.ReconnectsAtFirstSuccess` | pkg/proxy/reconnect.go:60-102 | without limit and shutdown the call reconnects with the first round that connects and joins, whatever failed before |
| `Reconnect.RetryBound` | pkg/proxy/reconnect.go:34-90 | at most N connection attempts fail; giving up without a failed join took exactly N; all attempts are at most N plus the failed joins |
| `Reconnect.JoinFailuresAreUnbounded` | pkg/proxy/reconnect.go:74-90 | failing joins can make any number of attempts, and the loop still runs |
| `Reconnect.UnlimitedNeverGivesUp` | pkg/proxy/reconnect.go:53-55 | without a positive limit no run gives up |
| `Reconnect.PlayKeepsBands` | pkg/proxy/reconnect.go:58-67 | the i-th wait of a run lies in the band of attempt i, after connect and join failures alike |
| `Reconnect.CumulativeWaiting` | pkg/proxy/reconnect.go:31-102 | as far as the schedule fits 64 bits or the platform saturates, the total waited after k failures, connect or join, is between the sums of the lower and of the upper ends of the bands of attempts 1 to k, both in closed form: geometric up to the cap, linear after it |
| `Reconnect.WaitingIsClamped` | pkg/proxy/reconnect.go:241-249 | whatever an overflowing product converts to, k waits take between k initial and k maximal delays |
| `Jwt.AcceptableWindow` | pkg/auth/jwt.go:88-90 | complete claims are accepted exactly from issue to the end of the expiry second |
| `Jwt.HalfLifeIsMidpoint` | pkg/auth/jwt.go:109-117 | half-life is as far from issue as from expiry |
| `Tokens.Initial` | pkg/proxy/telephone.go:142-213 | starting leaves claims that are the parse of the current token, and a client with that token; without a valid stored token it is the environment's |
| `Tokens.StartsWithPreferred` | pkg/proxy/telephone.go:142-175 | starting succeeds exactly when the preferred token, a valid stored one before the environment's, parses and is accepted; it is then current and in the client |
| `Tokens.Telephone.UpdateToken` | pkg/proxy/telephone.go:340-347 | current token, claims and configured token change together, the client's does not |
| `Tokens.Telephone.RefreshToken` | pkg/proxy/telephone.go:498-562 | succeeds exactly on a parsing, valid token, which is then in every copy; a failure changes nothing |
| `Tokens.Telephone.AttemptConnection` | pkg/proxy/reconnect.go:107-147 | when it connects, what each copy holds afterwards, and that agreement survives exactly if nothing unparsable was adopted |
| `Tokens.SingleFlightStep` | pkg/proxy/reconnect.go:14-29 | every step keeps at most one caller past the flag, and the flag up exactly while one is |
| `Tokens.CallerComesBack` | pkg/proxy/reconnect.go:14-103 | a caller alone comes back with the flag down after a success, after giving up, and after a failed join followed by another attempt |
| `Tokens.EveryInterleaving` | pkg/proxy/telephone.go:340-347 | in every interleaving the claims are the parse of the current token, the client holds the original or a token that has been current, and reconnection is single flight |
| `Tokens.TokensAgreeIff` | pkg/proxy/reconnect.go:117-146 | over all runs in which no fallback is under way between the two writes of a refresh, client and current token agree at rest if and only if the original token is empty or parses |
| `Tokens.UnparsableFallback` | pkg/proxy/reconnect.go:141-146 | an original token that does not parse breaks agreement in a run without any interleaving |
| `Tokens.OverlapLosesNewToken` | pkg/proxy/reconnect.go:117-132 | a refresh completed during a failing fallback is undone in the client |
| `Tokens.OverlapAgreesIff` | pkg/proxy/reconnect.go:114-146 | over all runs, whatever interleaves, client and current token agree at rest if and only if there is no original token or no other token parses |
| `Tokens.AttemptAlone` | pkg/proxy/reconnect.go:107-147 | a caller's own steps, undisturbed, do to the copies what the method does |
| `TokenStore.Latest` | pkg/storage/token_store.go:250-256 | a row of the selection that none was updated after, and nothing exactly when there is no row |
| `TokenStore.Store.SaveToken` | pkg/storage/token_store.go:189-240 | appends one row unless the token is empty, expired, or the database fails |
| `TokenStore.SavesWhatIsAlive` | pkg/storage/token_store.go:189-240 | a row is appended exactly for a token that is not empty and does not expire before the check, if the database works |
| `TokenStore.Store.LoadToken` | pkg/storage/token_store.go:243-278 | a row with expiry after now that no such row was saved after; nothing exactly when there is none |
| `TokenStore.Store.CleanupExpiredTokens` | pkg/storage/token_store.go:281-320 | leaves the rows whose expiry is not before now, or all of them on failure |
| `TokenStore.Store.Stats` | pkg/storage/token_store.go:335-357 | the counts add up, and none is expired exactly when every expiry is after now |
| `TokenStore.Store.PersistTokenWithRetry` | pkg/proxy/telephone.go:565-599 | stops at the first success, at a shutdown between attempts, or after all attempts; one row on success, none otherwise; the sleeps are the capped doubling schedule |
| `TokenStore.CleanupLeavesBoundary` | pkg/storage/token_store.go:301-303 | after a cleanup the rows still counted as expired are those whose expiry is that instant |
| `TokenStore.CleanupKeepsValid` | pkg/storage/token_store.go:301-303 | a past cleanup removes nothing that is valid now |
| `TokenStore.CleanupUnobservable` | pkg/storage/token_store.go:243-357 | under a clock that never runs backwards every save, load and cleanup result and every count of valid rows is that of an append-only log without cleanup, and the other two counts of Stats miss exactly the rows deleted |
| `TokenStore.LoadIsLastSaved` | pkg/storage/token_store.go:250-256 | with increasing save times a load returns the last saved row that is still valid |
| `TokenStore.LoadAfterAnyRun` | pkg/storage/token_store.go:189-320 | from an empty store, after any operations, a load returns the last token ever saved that is still valid |
| `Jwt.TimeUntilHalfLife` | pkg/auth/jwt.go:109-125 | never negative, and zero exactly from half-life on |
| `Refresh.ScheduledWait` | pkg/proxy/telephone.go:441-463 | before half-life the wait is positive and ends by 21/40 of the lifespan, rounding included |
| `Refresh.WaitAroundMidpoint` | pkg/proxy/telephone.go:441-463 | against the middle of the token's life: before it the wait is the time left, exact up to a minute and within a twentieth and rounding beyond, from below and above; after it one second |
| `Refresh.RefreshBeatsExpiry` | pkg/proxy/telephone.go:435-463 | the refresh fires before the token expires if and only if the token is before half-life or has more than a second left |
| `Refresh.TokenRefreshLoop` | pkg/proxy/telephone.go:432-494 | attempts are made at the instants of the recursive schedule, which `PassesFollow` and `ShutdownEndsAttempts` describe, for any replies, disconnections and shutdowns |
| `Refresh.PassesFollow` | pkg/proxy/telephone.go:464-493 | every pass waits its time, makes one attempt if the client is connected and none otherwise, and is followed by the next after the refresh, five seconds later unless it succeeded |
| `Refresh.ShutdownEndsAttempts` | pkg/proxy/telephone.go:465-491 | a shutdown in a wait or a pause leaves the attempts made until then |
| `Refresh.FailingAttemptsKeepComing` | pkg/proxy/telephone.go:465-493 | while refreshing fails the first attempt comes by the deadline and later ones are more than five and, past the deadline, at most sixteen seconds apart |
| `Refresh.AttemptDeadline` | pkg/proxy/telephone.go:465-493 | the k-th failing attempt comes at most 16 k seconds after the first deadline |
| `ResponseBody.BufferPool.Get` | pkg/proxy/telephone.go:66-70 | a standard-sized buffer, taken from the pool or new |
| `ResponseBody.BufferPool.Put` | pkg/proxy/telephone.go:843-848 | the pool keeps holding standard-sized buffers only |
| `ResponseBody.BufferPool.ReadBody` | pkg/proxy/telephone.go:833-869 | the read slice is always in range, and the pool stays uniform on every path |
| `ResponseBody.ReadAll` | pkg/proxy/telephone.go:850-869 | stops at the first end, failure or excess and says which; chunks are the non-empty reads although every read reuses the buffer |
| `ResponseBody.ChunksPreserveBody` | pkg/proxy/telephone.go:829-859 | the chunks concatenate to the bytes read, each is between one byte and the chunk size, and a longer body has more than one |
| `ResponseBody.SizeBound` | pkg/proxy/telephone.go:857-868 | an accepted body exceeds the limit by at most its last read; a size rejection really exceeded it |
| `ResponseBody.LoopTerminates` | pkg/proxy/telephone.go:850-869 | a reader that never returns nothing without an error is read at most limit plus one times |
| `ResponseBody.BodyArrives` | pkg/proxy/telephone.go:880-921 | the receiver reassembles exactly the bytes read; the payload is chunked exactly when more than one read had data, and whenever the body is longer than a chunk; the chunks sent are the non-empty reads, each of at most the chunk size |
| `BackendPath.RewriteKeepsMeaning` | pkg/proxy/telephone.go:683-684 | no cleaning rule changes what the segments resolve to |
| `BackendPath.AnyDerivationResolves` | pkg/proxy/telephone.go:683-684 | the cleaning rules applied in any order until none applies give the stack resolution |
| `BackendPath.SomeDerivationEnds` | pkg/proxy/telephone.go:683-684 | the cleaning rules can always be applied until none applies |
| `BackendPath.CleanSegments` | pkg/proxy/telephone.go:683-684 | the segments of a cleaned path are real names, none empty, "." or ".." |
| `BackendPath.CleanIsNormal` | pkg/proxy/telephone.go:683-689 | a cleaned path is a fixed point of cleaning and never protocol-relative |
| `BackendPath.CleanShrinks` | pkg/proxy/telephone.go:683-684 | cleaning never lengthens a path |
| `BackendPath.PrefixesOf` | pkg/proxy/telephone.go:667-681 | of any raw text, a parsed scheme starts with a letter and a host without a scheme stands behind exactly two slashes |
| `BackendPath.GuardedUrl` | pkg/proxy/telephone.go:657-681 | behind the two prefix checks a parsed path has no scheme and no host and is rooted, so the later checks for them never fire |
| `BackendPath.UnescapeUndoesEscape` | pkg/proxy/telephone.go:667-671 | percent-decoding undoes percent-encoding, whichever characters are escaped and in either case of the digits |
| `BackendPath.ControlRefused` | pkg/proxy/telephone.go:667-671 | a control character before the fragment is refused |
| `BackendPath.BadEscapeRefused` | pkg/proxy/telephone.go:667-671 | a percent sign in the path without two hexadecimal digits behind it is refused |
| `BackendPath.SchemeIsSeen` | pkg/proxy/telephone.go:657-676 | without the check for a leading slash any scheme would be found |
| `BackendPath.HostIsSeen` | pkg/proxy/telephone.go:661-681 | without the check for two slashes any host behind them would be found |
| `BackendPath.AcceptedIsNormal` | pkg/proxy/telephone.go:683-696 | an accepted result starts with a clean path and with one slash only |
| `BackendPath.CleanPathPasses` | pkg/proxy/telephone.go:683-696 | a clean path and a query that need no escape come back verbatim, without the fragment |
| `BackendPath.IdempotentIff` | pkg/proxy/telephone.go:656-697 | validating the result again changes nothing if and only if the cleaned path is stable: it holds no fragment mark, control character or escape, and what stands before a question mark in it is the root or ends in a real name, with something behind |
| `BackendPath.PlainPathsAreStable` | pkg/proxy/telephone.go:656-697 | without an escape in the path the validator is idempotent |
| `BackendPath.EscapesAreNotStable` | pkg/proxy/telephone.go:668-671 | an escaped percent sign is accepted once and rejected the second time |
| `ChannelsClient.SocketsConserved` | pkg/channels/client.go:136-213 | in every run each socket dialled is the one in the slot or closed, so at most one is open |
| `ChannelsClient.ConnectedIsOwedReset` | pkg/channels/client.go:174-183 | whenever the flag is up, the loop of the last Connect that raised it has still to lower it |
| `ChannelsClient.FlagFollowsSteps` | pkg/channels/client.go:174-206 | in every run the flag is up if and only if the last step that wrote it was a Connect raising it |
| `ChannelsClient.ConnectLeavesItsSocket` | pkg/channels/client.go:136-189 | when a successful Connect releases the lock its own socket is open in the slot, its read context is current and all earlier ones are cancelled, and its loop is spawned |
| `ChannelsClient.DisconnectLeavesNothingOpen` | pkg/channels/client.go:192-213 | when a Disconnect releases the lock the slot is empty, every socket closed and the flag down |
| `ChannelsClient.OldContextsAreCancelled` | pkg/channels/client.go:146-178 | in every run each loop's read context is the current one or cancelled |
| `ChannelsClient.LedgerFollowsSteps` | pkg/channels/client.go:136-222 | in every run sockets, slot, read contexts and shutdown are what the names of its steps say, whatever the callers' positions |
| `ChannelsClient.ConnectAlone` | pkg/channels/client.go:136-189 | an undisturbed Connect closes the old socket, cancels the old context and leaves a new socket, raised flag, new context and a loop about to start |
| `ChannelsClient.ConnectFailsAlone` | pkg/channels/client.go:136-172 | a Connect whose dial fails has closed the old socket and cancelled the old context, and nothing else |
| `ChannelsClient.DisconnectAlone` | pkg/channels/client.go:192-213 | an undisturbed Disconnect closes the socket, empties the slot, cancels the context and lowers the flag |
| `ChannelsClient.CloseAlone` | pkg/channels/client.go:216-222 | an undisturbed Close without loops disconnects, cancels the client's context and returns |
| `ChannelsClient.LoopStarts` | pkg/channels/client.go:314-329 | a loop starts with a watcher on the read context current then |
| `ChannelsClient.LoopReads` | pkg/channels/client.go:346-357 | a loop reads the socket in the slot, message after message, and leaves when the slot is empty |
| `ChannelsClient.WatcherUnblocks` | pkg/channels/client.go:322-338 | a watcher whose context is cancelled closes the socket in the slot and ends |
| `ChannelsClient.LoopCleansUp` | pkg/channels/client.go:298-344 | after a failed read the watcher ends, the slot is cleared, the flag lowered and the wait group released |
| `ChannelsClient.CloseLeavesNothing` | pkg/channels/client.go:216-222 | when Close can return and no Connect is under way the flag is down, the slot empty, all sockets closed, all loops and watchers gone |
| `ChannelsClient.CloseWaitsQuietly` | pkg/channels/client.go:192-222 | a Close with no Connect overlapping or following waits in a quiet state with every loop's read context cancelled |
| `ChannelsClient.PairProgress` | pkg/channels/client.go:298-385 | in a quiet state every unfinished loop or its watcher can move, or the holder of the lock they wait for can |
| `ChannelsClient.ShutdownIsBounded` | pkg/channels/client.go:298-385 | from a quiet state loops and watchers take boundedly many steps, whatever other callers do |
| `ChannelsClient.QuietMovesOrReturns` | pkg/channels/client.go:216-222 | Close may return exactly when every loop has finished, and until then a loop, a watcher or the lock's holder can move |
| `ChannelsClient.ShutdownTerminates` | pkg/channels/client.go:192-222 | from a quiet state every run has boundedly many steps, a fixed number more per new call, and can be extended without the peer and without a new call exactly until every call has returned and every loop and watcher has finished |
| `PendingReplies.DecimalInjective` | pkg/channels/client.go:292-295 | different numbers have different decimal references |
| `PendingReplies.PendingTableExact` | pkg/channels/client.go:251-265 | below 2^64 references the table's keys are exactly the references of calls between registration and cleanup, each mapped to its own call |
| `PendingReplies.ReplyFindsItsCaller` | pkg/channels/client.go:388-416 | a reply is routed to a call exactly when that call waits for its reference; other messages go to their handler or nowhere |
| `PendingReplies.RepliesCorrelate` | pkg/channels/client.go:251-281 | in every run a call returns only a reply with its own reference, no reply is returned twice, and what was delivered is returned or left in the channel |
| `PendingReplies.OnlyDuplicatesAreDropped` | pkg/channels/client.go:395-401 | in every run a dropped message carries the reference of a call to which a different reply was delivered |
| `PendingReplies.DeliveredIsTaken` | pkg/channels/client.go:272-274 | a waiting call to which a reply was delivered can take it, and returns exactly that message |
| `PendingReplies.ResultsFollowSteps` | pkg/channels/client.go:267-281 | a call has a result if and only if a failed send, a receipt, a timeout or a shutdown ended it, and the result is the one that goes with that |
| `PendingReplies.LogsFollowSteps` | pkg/channels/client.go:284-295 | references drawn, messages parsed and handlers registered are those of the run's steps |
| `PendingReplies.AnsweredCall` | pkg/channels/client.go:251-281 | an answered call, undisturbed, returns its reply and leaves the table as it was |
| `PendingReplies.UnansweredCall` | pkg/channels/client.go:251-281 | an unanswered call, undisturbed, gives up with its reason and leaves the table as it was |
| `PendingReplies.FatesAreFinal` | pkg/channels/client.go:388-416 | what became of a message and what a call returns never change afterwards |
| `PendingReplies.GuardedRunsDoNotPanic` | pkg/channels/client.go:260-265 | if every channel is closed when no message is on its way to it, no send meets a closed channel, whatever interleaves |
| `PendingReplies.CloseIsSafeIff` | pkg/channels/client.go:260-265 | after such a run, closing a channel makes a panic possible if and only if a message is on its way to it |
| `PendingReplies.LateSendPanics` | pkg/channels/client.go:260-265 | a caller that gives up between lookup and send leaves the send on a closed channel |
| `PendingReplies.FirstReplyInFlight` | pkg/channels/client.go:390-397 | the first call already reaches a state where that can happen |
| `WsManager.EventTrace` | pkg/websocket/manager.go:300-369 | in every run the frames raised are, by wire number and data (section 11.8 of RFC 6455), the messages read of the four known types, in order; at most one close or error follows, with the failed read's code and text; a receiver that leaves with no context cancelled has raised it |
| `WsManager.ConnectDelivers` | pkg/websocket/manager.go:80-162 | an undisturbed Connect stores the connection under its id, and whatever the backend then sends is read and forwarded |
| `WsManager.ReceiverFails` | pkg/websocket/manager.go:300-343 | a receiver whose read fails reports it, takes its entry out and is done |
| `WsManager.ReceiverStops` | pkg/websocket/manager.go:300-314 | a receiver that finds its context done leaves without an event |
| `WsManager.LeavingIsSilent` | pkg/websocket/manager.go:316-343 | a receiver on its way out reads and raises nothing more |
| `WsManager.OneCloseFrame` | pkg/websocket/manager.go:259-279 | however closers race, closeConnection writes at most one close frame per connection (section 5.5.1 of RFC 6455) |
| `WsManager.CloseAlone` | pkg/websocket/manager.go:218-297 | an undisturbed Close marks, cancels, writes one close frame with its code, closes the socket and removes the entry; an unknown id or a connection already marked changes nothing |
| `WsManager.CloseAllAlone` | pkg/websocket/manager.go:231-253 | an undisturbed CloseAll cancels the parent, closes every connection in the map with code 1001, leaves the map empty and waits |
| `WsManager.NoOrphanReceivers` | pkg/websocket/manager.go:145-153 | without id reuse every receiver in its loop is in the map under its id or marked closed |
| `WsManager.CloseAllReachesAll` | pkg/websocket/manager.go:231-253 | when CloseAll waits, every receiver in its loop is marked closed or was stored after the cancel and will never forward |
| `WsManager.LateForwardsNothing` | pkg/websocket/manager.go:309-314 | a connection stored after the parent cancel reads and forwards nothing |
| `WsManager.CloseAllLeavesNothing` | pkg/websocket/manager.go:252-253 | when CloseAll can return and no Connect is under way the map is empty and every receiver has finished |
| `WsManager.ReceiverProgress` | pkg/websocket/manager.go:259-343 | while CloseAll waits every unfinished receiver can move, or the closer of its connection can |
| `WsManager.DrainIsBounded` | pkg/websocket/manager.go:300-369 | after the cancel, with no Connect, receivers take boundedly many steps whatever closers, senders and peers do |
| `WsManager.WaitEnds` | pkg/websocket/manager.go:231-253 | CloseAll may return exactly when no receiver is left, and until then an unfinished receiver or the closer of its connection can move |
| `WsManager.CloseAllTerminates` | pkg/websocket/manager.go:231-297 | once CloseAll has cancelled the parent, with no Connect under way, every run has boundedly many steps, a fixed number more per new call, and can be extended without the peer and without a new call exactly until every Close and CloseAll has returned, every receiver has finished and the map is empty |

## Left out

- Network, TLS, HTTP, SQLite, AES-GCM, PBKDF2, JWT decoding, JSON and base64: library calls. Sockets, readers and rows are abstract, and the JWT parser is a function parameter.
- The payload before JSON encoding: `json.Marshal` replaces invalid UTF-8, which the body round trip does not cover.
- Update in place for the channel client, the pending table and the manager: their fields are components of a machine state, because the claims are about interleavings of steps rather than about single calls.
- Fairness: termination is stated as bounded runs and possible steps, not as completion under a scheduler while callers keep coming.
- A Send that blocks in its write to an open socket: it keeps `connLock`, and a Close waits for it before it disconnects.
- Initial backoffs below zero and durations of 2^53 nanoseconds or more, where Go's float arithmetic rounds.
- `NewClient`, URL building, the hop-by-hop header filter, protocol selection and `CheckSupport`: one-branch plumbing.
- Choice among rows saved at the same instant: the store's query may return any; the model takes the first.
- Path bytes are characters. What the URL parser checks inside an authority (ports, user information) and its lower-casing of schemes: the prefix checks leave neither.
- Frames the WebSocket library writes by itself while reading, such as the echo of a close frame.
- Manager invariants under reuse of a connection id, and frames written by `SendFrame` after the close frame, which the code does not rule out.
- A new connection is not safe from the cleanup of an older read loop; only what holds in spite of that is stated.
- Configuration, logging, health endpoints, the command-line tools, heartbeats and request validation other than the path.
