# Verification of the gateway's scheduling, streaming and caching cores

This project models five stateful parts of the Go server in Dafny and proves what they promise
over every input, every interleaving or every run. Run `dafny verify dfyconfig.toml` in this
directory to check it.

## The parts

**Scheduler and its protocols** (`GateProtocol`, `GateTable`, `SnapshotProtocol`, `RefreshProtocol`,
`Scheduling`, `Pool`, `Cooldowns`, `Sessions`, `Acquire`, `Rotation`). The pool hands out capped
leases on accounts, remembers cooldowns and sticky sessions, caches model views and keeps a
snapshot fresh by a version counter. The gate, the snapshot load and the token refresh are state
machines over the steps of any number of callers; the load and the refresh run on the gate's own
state machine. The pool is a class with the source's fields; its leases hold reservation objects
by reference, as the release closures do. What makes an account fit to serve is said by its fields
and proved to be what the selection loop computes. `Acquire` runs with other callers acting between
its critical sections. What they do is an input, so no caller can invent it, and so is what network,
store and context do in each round; a log of every critical section and the state after it is
kept as a run of the scheduler.

**Streams** (`Decoder`, `DecoderLaws`, `EarlyDispatch`, `Replay`, `Gemini`, `WalkLaws`, `ToolRegistry`,
`OpenAIMessages`, `OpenAIStream`, `OpenAIReader`, `OpenAITrace`, `Collector`, `CollectedRuns`, `Agreement`,
`ClaudeStream`, `ClaudeReader`, `ClaudeEnding`, `ResponsesStream`, `ResponsesReader`,
`ResponsesItems`). Bytes are decoded into payloads, one walker drives four consumers. For each consumer there is a pure specification of what it writes, the writer in
place, and a reader: an automaton for a client that goes to `Broken` on any ill-formed trace. The
theorems say what the reader has learnt when the writer is done. What parts mean is defined
without events, and the two are proved equal.

**Schema rewriter** (`Schema`, `SchemaForm`, `SchemaVisits`, `SchemaCleaner`, `SchemaLaws`,
`SchemaMeaning`, `SchemaTwice`). The rewriting as a function of JSON values, its target grammar, what
each construct means key by key, its fixed points,
the number of nodes it visits, and the recursion in place with its node counter and its loops over
maps in any order.

**Bounded caches** (`Recency`, `SignatureCache`, `ResponseHistory`, `CacheLaws`). Map, recency list and byte
counter against a plain sequence with the most recent entry first.

**Retry loop** (`ProxyLoop`, `ProxyLaws`). Everything around the loop answers arbitrarily; the loop's
budgets and leases are proved bounded, and what every reply leads to is proved over all runs.

`Text`, `Sets` and `Wrappers` hold what these share.

## Where code and promise differ

Each of these has a row with an exact condition and one with a concrete input.

- A cooldown is stored under the normalised model name but looked up under the mapped name as it
  is, so a mapped name that is not normal escapes its own cooldown. This is about the model that
  `Acquire` is called with; the model of an HTTP request has lost two `models/` prefixes before.
- A later empty `finishReason` overwrites an earlier one in the collected response but not in the
  stream, so the two finish reasons can differ.
- A candidate with a null `index` takes its position in its frame in the stream, and its rank among the
  collected candidates when the collected response is converted.
- The Responses writer keeps the first finish reason that is not `STOP`, so an answer that a later reason
  limits is called completed after, say, `OTHER`.
- Blank data lines after an event's object stay pending and count against the next event.
- A payload that itself holds an object-valued `response` is unwrapped again on replay, and when a
  collected response is converted.
- An array at depth 24 gets default items at the depth limit, and default items are inserted without
  being counted as visited, so cleaning twice is not always cleaning once.
- Signature keys join family and identifier with a NUL that the model name may contain.

## What is assumed

A part carries one kind of payload, as the Gemini API defines it: the collector joins neighbouring parts
by their text and their number of keys alone. Generated identifiers are fresh: distinct, and none
that upstream sends. Equal digests mean equal content. JSON texts obey `Decoders.Lawful`: printing and parsing are inverse, printed objects lie
on one line, and no proper non-blank prefix of an object is valid (section 4 of RFC 8259). Writers
do not fail. Store writes are atomic commits followed by a version bump, and a listing is one read
of the table. Each critical section reads the clock once. The retry loop takes from the pool that
`Acquire` returns no excluded account.

## Model

| member | source | states |
|---|---|---|
| `GateProtocol.StepKeepsInv` | server/internal/pool/lifecycle.go:17-46 | Every step of any caller (enter, take, cancel, return the token, drop the reference) keeps the invariant: every caller's gate is the table's gate for its identifier, the reference count is the number of waiting, holding and leaving callers, and free tokens plus holders is one. |
| `GateProtocol.RunKeepsInv` | server/internal/pool/lifecycle.go:17-46 | The invariant holds in every state of every run, over gate creation, cancellation, deletion and re-creation. |
| `GateProtocol.MutualExclusion` | server/internal/pool/lifecycle.go:17-46 | No two callers hold the gate of one identifier, even when its entry was deleted and created anew in between. |
| `GateProtocol.ReturnNeverBlocks` | server/internal/pool/lifecycle.go:42-45 | When a holder returns its token the channel of capacity one has room. |
| `GateProtocol.EntryIffReferenced` | server/internal/pool/lifecycle.go:17-46 | The table has an entry for an identifier exactly when some caller still references its gate. |
| `GateProtocol.WaiterCanTake` | server/internal/pool/lifecycle.go:38-45 | No token is lost: while nobody holds an identifier, any caller waiting for it can take its token. |
| `GateTables.GateTable.Enter` | server/internal/pool/lifecycle.go:21-29 | Finds or creates the gate and counts the caller; the table's abstract state makes exactly the protocol's step. |
| `GateTables.GateTable.Take` | server/internal/pool/lifecycle.go:42 | Takes the token as the protocol's step does. |
| `GateTables.GateTable.Return` | server/internal/pool/lifecycle.go:43-44 | Gives the token back as the protocol's step does. |
| `GateTables.GateTable.Drop` | server/internal/pool/lifecycle.go:30-37 | Counts the caller out and deletes the entry at zero; the invariant shows that the entry deleted is this gate's own. |
| `RefreshProtocol.StepKeepsInv` | server/internal/pool/lifecycle.go:48-115 | Every step of queued callers, upstream refreshes, persisting, failing, clock ticks and outside writes keeps the single-flight invariant. |
| `RefreshProtocol.OneRefreshInFlight` | server/internal/pool/lifecycle.go:48-115 | Two callers never have a refresh of one account in flight at the same time. |
| `RefreshProtocol.EarlierResultLapsed` | server/internal/pool/lifecycle.go:60-90 | While a refresh is in flight, every earlier result of the account in the same epoch has lapsed: a stored token is within the skew of its expiry, a remembered failure is over. |
| `RefreshProtocol.RunKeepsInv` | server/internal/pool/lifecycle.go:48-115 | The single-flight invariant holds in every state of every run. |
| `RefreshProtocol.StoredTokenIsShared` | server/internal/pool/lifecycle.go:48-115 | Over every run: after a refresh stored a token, the account's next upstream refresh in the epoch starts no earlier than 900 seconds before that token's expiry; after a failure, no earlier than its five seconds. So callers queued on one expired token cause one call whenever the new lifetime exceeds the skew. |
| `RefreshProtocol.RefreshBeginsWhenNeeded` | server/internal/pool/lifecycle.go:68-84 | In every reachable state a refresh begins only under the account's gate, for a caller that read no token or one within 900 seconds of its expiry, while no failure is remembered; what it read is what is stored unless something else wrote the account since. |
| `RefreshProtocol.RefreshEndsAsTold` | server/internal/pool/lifecycle.go:84-112 | A failure is remembered for five seconds, a token is stored with the lifetime it had when it came, and nothing else but giving up ends a call. |
| `SnapshotProtocol.StepKeepsInv` | server/internal/pool/scheduler.go:122-173 | Every interleaved step of commits, bumps, returns, version reads, listings, installs and gate steps keeps the invariant that a version read covers every mutation bumped before it. |
| `SnapshotProtocol.RunKeepsInv` | server/internal/pool/scheduler.go:122-173 | The snapshot invariant holds in every state of every run. |
| `SnapshotProtocol.SuccessfulLoadIsFresh` | server/internal/pool/scheduler.go:122-173 | Over every run: when a call of `loadSnapshot` succeeds, the scheduler's accounts are the replay of a commit prefix that contains every mutation whose store call had returned before the load was called. |
| `SnapshotProtocol.VersionNeverDecreases` | server/internal/pool/scheduler.go:134-167 | Along a run neither the installed version nor the shown commit prefix ever goes back. |
| `SnapshotProtocol.CallRemembers` | server/internal/pool/scheduler.go:122-139 | What had returned when a load began stays fixed during the load, so freshness is measured against the state before the call. |
| `SnapshotProtocol.MatchingQuietSnapshotIsExact` | server/internal/store/scheduling.go:77-91 | Once every commit was bumped, equal versions mean that the snapshot is the account table itself, apart from `last_used`. |
| `Scheduling.MakeRoom` | server/internal/pool/scheduler.go:332-345 | The eviction loop removes lapsed entries as it meets them and, if the table is still full, one that lapses first; the result is one of the tables that iteration in any order can give. |
| `Scheduling.RoomIsFree` | server/internal/pool/scheduler.go:332-345 | After making room in a table within its bound there is a free place. |
| `Pools.Pool.Release` | server/internal/pool/scheduler.go:349-350 | Idempotent release: the first call takes one from the reservation the lease holds, later calls change nothing; the invariant `active` = number of unreleased leases <= cap is kept, also for accounts that were deleted and inserted again. |
| `Pools.Pool.Take` | server/internal/pool/scheduler.go:327-350 | Taking a slot charges the reservation in the table, stamps it with the next sequence number and issues a lease on that very object. |
| `Pools.Pool.ModelView` | server/internal/pool/scheduler.go:194-226 | The cached or computed view equals the view recomputed from the current snapshot, and at most 128 views are kept. |
| `Pools.Pool.Scan` | server/internal/pool/scheduler.go:259-303 | The selection loop returns a free bound account, else a free account that is least by (active, last), the earliest in listing order among equals; without one it says whether an account is busy and when the first stops waiting. |
| `Pools.Pool.Select` | server/internal/pool/scheduler.go:242-351 | One locked selection, by the fields of the accounts: it takes an account that is neither excluded nor disabled, expired nor forbidden, that has quota for the model it maps to and no limit in force on it, and that has a free slot; the session's account if that is one of these, else one that none of them precedes by requests in flight, last choice and listing. Busy means that some account could serve but none has a slot; otherwise none could, and the earliest time from which one could is given. The states are related as `Selected` or `NothingSelected`, and the whole invariant is kept. |
| `Scheduling.VerdictByFields` | server/internal/pool/scheduler.go:259-284 | The loop finds an account ready exactly when its fields let it serve, and makes it wait until `t` exactly when `t` is when its listed model is reset or when the last of its three limits ends: nothing that may serve is passed over. |
| `Sessions.SessionIsSticky` | server/internal/pool/scheduler.go:256-297 | Over every run: within 30 minutes a session is given the same account again whenever that account may serve and has a free slot, unless another selection for the session, an eviction from a full table, a cooldown or a deletion of the account came between. |
| `Sessions.SessionsAreFreed` | server/internal/pool/scheduler.go:480-485 | A cooldown of an account, or a listing without it, leaves no session bound to it. |
| `Pools.Pool.Install` | server/internal/pool/scheduler.go:146-172 | Installing a listing drops limits, sessions and idle reservations of vanished accounts, keeps every reservation in use, and empties the view cache. |
| `Pools.Pool.MarkLimited` | server/internal/pool/scheduler.go:450-487 | A mark with a future time keeps the later of the two times, evicts within 8192 limits and unbinds the account's sessions; one with a past time only deletes its scope. |
| `Pools.Pool.ClearLimited` | server/internal/pool/scheduler.go:490-496 | Removes exactly the scope and nothing else. |
| `Pools.Pool.ClearLimitedBefore` | server/internal/pool/scheduler.go:500-509 | Removes the scope only if it was last marked no later than the attempt began. |
| `Pools.Pool.Revalidate` | server/internal/pool/scheduler.go:399-413 | The repeated checks succeed exactly when the account is in the current snapshot and may serve the request by its fields, whatever the caller excludes; they call it invalid exactly when something other than a cooldown prevents that. |
| `Acquisition.Scheduler.Confirm` | server/internal/pool/scheduler.go:375-435 | For every outcome of refresh, reload and recheck: a refused refresh excludes the account, a failed reload gives up, an account that may serve at that time, in the state the pool had then, is confirmed unless the context ended or its use could not be recorded, one that only a cooldown keeps back is tried again, any other is excluded. The slot is given back unless it is confirmed. Others act in between. |
| `Acquisition.Scheduler.Acquire` | server/internal/pool/scheduler.go:358-437 | The log of critical sections after the call is a run of the scheduler that goes on from the log before it, in which the caller itself only selected, released and limited accounts that failed. A granted account is not excluded by the caller, the caller holds exactly the returned lease, and at one time during the call, in the state the pool had then, the account could serve by its fields. A refusal names a time during the call at which no account could serve but those the caller had excluded and those this call had selected and given back, and the earliest time from which one could. The call fails only when its context ends or the store does; every exit but a grant holds nothing. |
| `Cooldowns.CooldownIsRespected` | server/internal/pool/scheduler.go:450-509 | Over every run: a limit marked until `u` keeps the account from being selected for its scope before `u`, unless a mark of another scope found the table full of limits in force none of which ends earlier, its account was deleted, it was cleared explicitly, or a success that began at or after the latest mark cleared it. |
| `Cooldowns.CooldownHasCause` | server/internal/pool/scheduler.go:450-509 | Over every run from an empty table: a limit has the end that some mark of its scope gave it, and since that mark no explicit clear, no success of an attempt that began at or after the latest mark, no mark with a past time and no listing without the account came. |
| `Cooldowns.NormalizeMeans` | server/internal/pool/scheduler.go:194-195 | A normalised model name is the name without the blanks around it and without one leading `models/`. |
| `Cooldowns.OtherMarkSparesIff` | server/internal/pool/scheduler.go:464-479 | A mark of another scope is sure to leave a limit in the table if and only if the table is not full, or the limit is in force and dropping lapsed ones makes room or another limit in force ends earlier. |
| `Cooldowns.StepHolds` | server/internal/pool/scheduler.go:461-463 | A later mark never shortens a cooldown, and every operation that spares it leaves it as long. |
| `Cooldowns.LimitBlocks` | server/internal/pool/scheduler.go:275-284 | A limit in force on the whole account or on the mapped model makes the account wait. |
| `Cooldowns.MarkReachesLookup` | server/internal/pool/scheduler.go:184-190 | A mark made under a mapped model with no limit on it yet, in any table, is found by the lookup for that model if and only if the name is already normal (no blanks around it, no `models/` prefix) or normalises to nothing: marking normalises names, looking up does not. |
| `Cooldowns.DoublePrefixEscapes` | server/internal/pool/scheduler.go:184-190 | A concrete escape: asked for `models/models/x`, a pool of one account maps it to `models/x`; after a mark of that account for `models/x` the account is free for the very next selection. |
| `Cooldowns.StepStaysBounded` | server/internal/pool/scheduler.go:332-345 | No operation lets the limits exceed 8192 or the sessions exceed 4096. |
| `Rotation.RepeatTakesFullTurn` | server/internal/pool/scheduler.go:294-303 | Without session and with idle accounts at every selection, an account is chosen again only after all others were. |
| `Rotation.EveryWindowVisitsAll` | server/internal/pool/scheduler.go:259-303 | With n accounts selectable and idle at every selection, any n consecutive selections choose each of them exactly once. |
| `Rotation.EveryWindowOfRunVisitsAll` | server/internal/pool/scheduler.go:259-303 | The same of the selections extracted from any run of the scheduler, whatever releases, limits, empty selections and listings that keep the accounts happen in between. |
| `ToolRegistries.KeyIsInjective` | server/internal/convert/stream.go:424 | The key `index:id` determines both the candidate index and the identifier. |
| `ToolRegistries.ToolRegistry.Prepare` | server/internal/convert/stream.go:399-456 | The registry in place answers and changes exactly as the specification function. |
| `ToolRegistries.RepeatIffAcceptedBefore` | server/internal/convert/stream.go:425-431 | Over any call sequence: a call is a repeat, with identifier `id`, exactly when an earlier one with its index, upstream identifier, name and arguments was accepted as `id`. |
| `ToolRegistries.ConflictIsRejected` | server/internal/convert/stream.go:433 | Reusing an accepted index and identifier with another name or other arguments fails. |
| `ToolRegistries.AcceptedOnce` | server/internal/convert/stream.go:425-434 | One index and upstream identifier is accepted at most once. |
| `ToolRegistries.AcceptedIdsAreDistinct` | server/internal/convert/stream.go:443-446 | Any two accepted calls of a sequence have different identifiers, when generated ones are fresh. |
| `ToolRegistries.AtMostMaxAccepted` | server/internal/convert/stream.go:437-440 | The counter is the number of accepted calls, and never exceeds 4096. |
| `ToolRegistries.AnswersByCalls` | server/internal/convert/stream.go:403-440 | Over any call sequence: a call is accepted exactly when it has a name, an identifier no longer than 512, none accepted before it under its index and identifier, and fewer than 4096 accepted before it; it is a repeat exactly when it has name and length and an accepted one before it is alike. All others are rejected. |
| `ToolRegistries.IdIsKeptIff` | server/internal/convert/stream.go:443-446 | An accepted call keeps the identifier upstream gave it unless that is blank or an accepted call before it has it; then it is given the next generated one. |
| `ToolRegistries.AnswersMatchUpToMint` | server/internal/convert/stream.go:399-456 | Two runs over the same calls with different generated identifiers accept, repeat and reject the same calls, with identifiers equal up to renaming the generated ones. |
| `Gemini.Walker.Admit` | server/internal/convert/stream.go:305-328 | The walker's checks on a frame's candidates: an index outside 0..63 or a non-object fails, otherwise the last nonempty finish reason and the presence of output are noted per index. |
| `Gemini.FailureIsFinal` | server/internal/convert/stream.go:294-332 | Nothing is visited after a failure. |
| `WalkLaws.WalkSucceedsIff` | server/internal/convert/stream.go:294-350 | For every consumer: a stream succeeds if and only if the source ends cleanly, every candidate is an object with an index from 0 to 63, the consumer refuses no frame, and every index that appears has a nonempty finish reason, with something shown unless that is another than STOP. The separate limit of 64 indices never matters. |
| `OpenAIMessages.GeminiToOpenAI` | server/internal/convert/openai.go:479-544 | One choice per candidate with its index, or its position in the list where the `index` member is null, content (null when there are calls and no text), reasoning, last signature outside calls, calls and finish reason; no candidates is a failure. |
| `OpenAIStreams.Write` | server/internal/convert/stream.go:469-568 | The nested loops over frames, candidates and parts write exactly the specified output: role once per choice, deltas, then finish chunks by increasing index, usage and the end mark, or one error. |
| `OpenAIReaders.EndingIsHeard` | server/internal/convert/stream.go:546-557 | A client of any open choice hears exactly one finish chunk with its reason; other indices stay unheard of. |
| `OpenAITraces.OpenAITrace` | server/internal/convert/stream.go:484-566 | Every run, failed ones included: the client of a choice knows exactly the message that the parts of its candidate form. After a success the choice is finished with length for MAX_TOKENS, content_filter for SAFETY, tool_calls if it has tools and neither holds, stop for STOP or no reason, and else the reason in lower case; after a failure it is still open. A choice is heard of exactly when its candidate appeared. |
| `OpenAITraces.StreamEndsProperly` | server/internal/convert/stream.go:542-566 | A successful stream is chunks, one closing per choice by increasing index, the last usage of any frame if there is one, and the end mark; a failed one is chunks and one error. |
| `OpenAIMessages.PresentedReason` | server/internal/convert/openai.go:758-778 | The finish reason of a converted choice, by its tools and the candidate's last finish reason, in the same cases. |
| `Collectors.Collect` | server/internal/convert/stream.go:724-811 | The collector in place yields exactly the specified candidates by increasing index, or fails. |
| `CollectedRuns.CollectedPartsAreRuns` | server/internal/convert/stream.go:757-792 | The parts of every collected candidate are the maximal runs of the parts it keeps: neighbouring unsigned texts of one kind with at most two keys are joined, everything else stays as it came, calls carry the identifiers they were given, and nothing is lost or reordered. |
| `Agreement.JoiningKeepsMessage` | server/internal/convert/stream.go:781-788 | Merging a text part into its neighbour changes nothing that a message shows. |
| `Agreement.CollectingSucceedsIffStreamingDoes` | server/internal/convert/stream.go:729-734 | Collecting succeeds exactly when streaming does and the payloads total at most 128 MiB. |
| `Agreement.StreamReadsAsCollected` | server/internal/convert/stream.go:469-568 | When both succeed, the chunks of every index read as the message of the collected candidate: content, reasoning, last signature, ordered tool names and arguments equal, identifiers equal up to renaming; tool deltas are numbered 0, 1, … and roles come first; an index is heard of exactly when it was collected. |
| `Agreement.StreamReadsAsConverted` | server/internal/convert/openai.go:479-544 | Unless the last `response` member that a payload itself has is an object, conversion of the collected response succeeds. Its choices are what was streamed (each reads as the chunks of its index, with equal finish reasons when the candidate's last finishReason is nonempty, and every index heard of has a choice) if and only if below every candidate whose last `index` member is null all smaller indices appear in the stream too. Candidates whose last `index` is a number, or never given, cannot break this. |
| `Agreement.NullIndexDisagrees` | server/internal/convert/openai.go:521-524 | A concrete stream of candidate 5 and, at position 1, a candidate with a null index: both forms succeed, the stream speaks at 5 and 1, conversion shows 5 and 0. |
| `Agreement.NestedIsConverted` | server/internal/convert/openai.go:487-489 | If it is an object, conversion shows its candidates, whatever was streamed, and fails if it has none or is an error. |
| `Agreement.DoubledDisagrees` | server/internal/convert/stream.go:739-743 | A concrete stream that says `a` while its payload holds a `response` that says `b`: both forms succeed, and conversion shows `b`. |
| `Agreement.FinishReasonsAgreeIff` | server/internal/convert/stream.go:495-497 | The finish reasons agree if and only if the candidate's last finishReason field is nonempty, or the last nonempty one reads like an empty one (STOP; or any but MAX_TOKENS and SAFETY when some call is delivered to the candidate): the collector lets an empty field overwrite, the stream does not. |
| `Agreement.ToolsAreCalls` | server/internal/convert/stream.go:425-434 | A choice ends with tools exactly when some call was delivered to its index: a repeated call had its first time there. |
| `Agreement.GivenReasonsAgree` | server/internal/convert/stream.go:748-752 | On streams whose finishReason fields are nonempty when present they agree. |
| `Agreement.StreamKeepsLatestFinish` | server/internal/convert/stream.go:495-497 | The stream keeps the last nonempty finish reason of each candidate. |
| `Agreement.CollectorKeepsLatestFinish` | server/internal/convert/stream.go:748-752 | The collector keeps the last finish reason of each candidate, empty ones included. |
| `Agreement.CutOffDisagrees` | server/internal/convert/stream.go:748-752 | A concrete stream, MAX_TOKENS followed by an empty finishReason, where both succeed and the stream says `length` but the conversion `stop`. |
| `ClaudeStreams.Write` | server/internal/convert/stream.go:570-713 | The writer in place emits exactly the specified output for every source. |
| `ClaudeReaders.ClaudeTrace` | server/internal/convert/stream.go:570-713 | Every run is one whole message (start, blocks numbered from 0 that open and close once, message_delta, message_stop) or a prefix of one followed by a single error; a thinking block's one signature delta comes last. The blocks are those that the first candidates' parts form up to the end or the failure, and the stop reason is theirs; at a failure the last block is open, its signature still to come, unless it is a call. |
| `ClaudeReaders.ClaudeSaysTheParts` | server/internal/convert/stream.go:617-693 | Character by character, what a client has heard at the end or at the error is what the first candidates' text, thinking and accepted calls say up to there, in their order, and nothing else. |
| `ClaudeReaders.BlocksAreNeat` | server/internal/convert/stream.go:602-612 | No block is empty, and neighbouring blocks never continue one another. |
| `ClaudeEndings.StopsAsTold` | server/internal/convert/stream.go:703-708 | A whole message stops for `tool_use` if and only if one of its blocks is a tool use, for `max_tokens` if and only if none is and the last nonempty finish reason of the first candidates is MAX_TOKENS in any case, and with `end_turn` otherwise. |
| `ClaudeEndings.MessageReportsUsage` | server/internal/convert/stream.go:617-636 | A whole message starts with the usage known at the first frame that has candidates and ends with the last usage of any frame. |
| `ResponsesStreams.Write` | server/internal/convert/responses.go:83-311 | The writer in place emits exactly the specified events and reports an error exactly in the specified cases. |
| `ResponsesReaders.ResponsesTrace` | server/internal/convert/responses.go:83-311 | Every run, failed streams included, is created, in progress, items that open and close once each in index order without overlap, and one terminal event; each item's deltas concatenate to its done text and to the terminal output, and the items say exactly what the parts said before the end or the failure. |
| `ResponsesReaders.CompletedIff` | server/internal/convert/responses.go:183-185 | The terminal status is `completed` if and only if the stream did not fail, an answer text or a call was said, and one reason neither limits the length nor filters: the first nonempty finishReason of any candidate in any frame that is not exactly `STOP`, else `STOP`. |
| `ResponsesReaders.CompletedAsPromisedIff` | server/internal/convert/responses.go:183-185 | Against the promise that no finishReason of any frame limits or filters a completed answer: a promised answer is always `completed`, and the two agree if and only if it is not so that the stream delivered, some reason limits or filters, and the first that is not exactly `STOP` does neither. |
| `ResponsesReaders.CutOffLateCompletes` | server/internal/convert/responses.go:183-185 | A concrete stream: a text with reason `OTHER`, then the reason `MAX_TOKENS`; the answer is called `completed`. |
| `ResponsesReaders.TerminalByReasons` | server/internal/convert/responses.go:272-305 | The terminal event gives max_output_tokens exactly for a successful stream that ends with MAX_TOKENS, content_filter exactly for one that ends with one of seven named reasons, interrupted exactly when the stream failed or said nothing actionable and no limit applies, and no reason exactly when it is completed; it reports an error exactly for interruptions. |
| `ResponsesReaders.TerminalUsage` | server/internal/convert/responses.go:173-179 | It reports the last usage of the frames that were visited, which for a failing stream includes the failing frame if that is well formed and within 128 MiB with all before it. |
| `ResponsesItems.ItemsAreThePieces` | server/internal/convert/responses.go:111-262 | The items at the end of every run are the pieces that the parts form, in order, with identifier, whole text or arguments and last signature; all are completed, but the last is incomplete if it was open and the response is not completed. |
| `ResponsesItems.ItemsAreNeat` | server/internal/convert/responses.go:149-156 | No text item is empty, and neighbouring items of one kind come from different candidates. |
| `ResponsesReaders.SequenceNumbersCountUp` | server/internal/convert/responses.go:86-92 | The sequence numbers of every run are 0, 1, …, n - 1. |
| `ResponsesReaders.TerminalIsLast` | server/internal/convert/responses.go:286-310 | A terminal event is the last event, and the only one. |
| `Decoders.GeminiDecoder.NextPayload` | server/internal/convert/stream.go:144-210 | The decoding loop in place returns the specified payload, end or failure and leaves the specified state. |
| `DecoderLaws.UnprefixedIsYielded` | server/internal/convert/stream.go:178-188 | A JSON object over several lines without `data:` is decoded to one payload, as long as none of its lines is blank or looks like a control line and it fits into 32 MiB. |
| `DecoderLaws.StrayLineFails` | server/internal/convert/stream.go:178-187 | Any other line that is no data, control or blank line fails the stream. |
| `DecoderLaws.TruncatedFails` | server/internal/convert/stream.go:171-206 | At a blank line and at the end of the input pending data that is no JSON text and no end mark fails the stream. |
| `DecoderLaws.IdleLineIsSkipped` | server/internal/convert/stream.go:171-177 | With nothing pending, blank and control lines are skipped. |
| `DecoderLaws.LimitsAreKept` | server/internal/convert/stream.go:105-107 | A 4097th data line, data beyond 32 MiB and a line beyond 32 MiB fail the stream as too large. |
| `DecoderLaws.DecodedIff` | server/internal/convert/stream.go:114-143 | A text is decoded to its object, or to the object under its `response`, provided neither is an error; a text without an object is invalid. |
| `EarlyDispatch.EarlyDispatchIsBuffering` | server/internal/convert/stream.go:190-202 | On every stream of blank-line-terminated events holding one JSON object or [DONE] split over data lines, the decoder yields the payloads obtained by buffering to the blank line (section 9.2.6 of the WHATWG HTML Standard), or is cut short by its size limits. It yields exactly those if and only if there is room for every line, counted from the last completed object on; that holds when every event fits together with the one before it. |
| `EarlyDispatch.PrefixOfData` | server/internal/convert/stream.go:190-202 | A prefix of an event's data is blank, incomplete, or complete with only blanks to come. |
| `EarlyDispatch.LeftoverLinesAreCounted` | server/internal/convert/stream.go:158-162 | Per-event limits are not enough: two events of 4096 and 2 data lines, where blank data lines after the first object make the decoder refuse the second event. |
| `Replay.PrepareStream` | server/internal/convert/stream.go:239-267 | The prelude check in place returns the printed consumed payloads in front of the unread bytes, or fails. |
| `Replay.StreamIsAcceptedIff` | server/internal/convert/stream.go:239-267 | A stream is accepted if and only if, among the payloads decoded from it, the first candidate that shows something or gives a finish reason shows something or gives another reason than STOP, and the payloads up to it, written back, are no longer than 32 MiB; those are the ones consumed. |
| `Replay.ReplayRoundTrip` | server/internal/convert/stream.go:239-267 | Decoding the prepared reader gives the same payloads and the same end as decoding the source with one decoder, if and only if no consumed payload itself holds an object-valued `response`. |
| `Replay.NestedResponseIsLost` | server/internal/convert/stream.go:128-130 | A concrete stream whose payload holds a `response` again: it is accepted, and its replay decodes to something else. |
| `Replay.ConsumedComesFirst` | server/internal/convert/stream.go:242-265 | The whole source decodes to the consumed payloads followed by what the stopped decoder goes on to yield. |
| `Replay.TallyIsLawful` | server/internal/convert/stream.go:114-143 | The laws assumed of JSON texts are met by a concrete codec with nested responses. |
| `SchemaCleaners.CleanWhole` | server/internal/convert/schema.go:10-215 | The recursion in place, with maps ranged over in any order: always of the target grammar; it stays within the node limit exactly when the schema needs at most 4096 visits, visits exactly those and equals the function then; a schema of the grammar that it gives back had at most 4096 nodes other than the replacement. |
| `SchemaCleaners.SchemaCleaner.CleanNode` | server/internal/convert/schema.go:17-213 | Terminates for every input, cyclic references included; the result has the target grammar even past the node limit, and the counter moves by the visits the input needs, or past the limit. |
| `SchemaForms.SchemaHasForm` | server/internal/convert/schema.go:154-212 | Every output node has only the eight keys, an upper-case type, OBJECT with properties and no items, ARRAY with items, no properties or items without a type, string enums, and a nonempty required list free of duplicates that names declared properties. |
| `SchemaForms.CleanHasForm` | server/internal/convert/schema.go:17-213 | The same for every recursive call, at every depth and with any references being visited. |
| `SchemaForms.RequiredKeepsDeclared` | server/internal/convert/schema.go:195-211 | A name is kept in `required` exactly when it was listed and is declared. |
| `SchemaForms.FormIsFixedIff` | server/internal/convert/schema.go:17-213 | Without the node limit, cleaning any node of the grammar changes nothing exactly when its nodes at depth 25 are the depth limit's replacement. |
| `SchemaMeanings.PlainNodeMeans` | server/internal/convert/schema.go:131-212 | A node without reference, union, conjunction or type list, key by key: the type in upper case or guessed from its children, constants as enumerations, a list with other than strings turned into a note, a note for every constraint in order, properties and items cleaned one level down, required names as far as declared, and no other key. |
| `SchemaMeanings.AllOfProperty` | server/internal/convert/schema.go:108-130 | A property of a conjunction is what the last member that declares it was cleaned to, although it is cleaned again. |
| `SchemaMeanings.AllOfOwnProperty` | server/internal/convert/schema.go:108-130 | A property that no member declares is the node's own, cleaned, or absent if there is none. |
| `SchemaMeanings.AllOfRequired` | server/internal/convert/schema.go:122-124 | A conjunction requires exactly what it or any member requires and its result declares. |
| `SchemaMeanings.AllOfOthers` | server/internal/convert/schema.go:124-127 | Nullability, property order and type are the node's own, or else those of the first member that says anything. |
| `SchemaMeanings.TypeListMeans` | server/internal/convert/schema.go:97-107 | A list of types becomes the first that is not `null`, and the node is nullable exactly when the list holds `null` or it was anyway. |
| `SchemaMeanings.OnlyNullMeans` | server/internal/convert/schema.go:97-107 | A list of nothing but `null` makes the node nullable and leaves its type to its other keys. |
| `SchemaMeanings.NullUnionMeans` | server/internal/convert/schema.go:50-65 | A union of nothing but `null` cleans like the node without it, nullable. |
| `SchemaMeanings.OneOptionMeans` | server/internal/convert/schema.go:50-71 | A node with a union of one option, with or without `null`, cleans like the node filled up with the keys of the cleaned option, nullable if `null` was listed. |
| `SchemaMeanings.ManyOptionsMean` | server/internal/convert/schema.go:72-95 | A node with several options cleans like the node that takes the keys it lacks, or has as null, from the first branch of greatest weight (ten for each property, five for items) and notes all their types in its description. |
| `SchemaMeanings.ReferenceFills` | server/internal/convert/schema.go:23-43 | A node whose reference is followed cleans like the node filled up with the keys of the cleaned target. |
| `SchemaMeanings.OtherReferenceFills` | server/internal/convert/schema.go:43-49 | Any other reference makes the node a string, whatever its type was. |
| `SchemaMeanings.ConstMeans` | server/internal/convert/schema.go:131-153 | A string constant of any node becomes its only enumerated value, any other constant none. |
| `SchemaMeanings.ConstraintsAreNoted` | server/internal/convert/schema.go:135-140 | Whatever else a node is, its description ends with a note of each of its constraints, in order, and at most the note of allowed values behind them. |
| `SchemaMeanings.NoSchemaMeans` | server/internal/convert/schema.go:11-14 | A schema that is no object becomes an object without properties. |
| `SchemaVisits.FormIsVisited` | server/internal/convert/schema.go:17-21 | Cleaning a schema of the grammar needs exactly as many visits as it has nodes down to depth 25. |
| `SchemaTwice.CleanTwice` | server/internal/convert/schema.go:10-215 | For every schema, references, unions and allOf included: the second pass stays within the limit exactly when the cleaned schema has at most 4096 nodes, and then twice equals once if and only if every node at depth 25 is the replacement. Whenever twice equals once all of that holds and at most 4096 nodes are not the replacement; so if no node is the replacement, twice equals once if and only if it bottoms out and has at most 4096 nodes. |
| `SchemaTwice.CleanWideTwice` | server/internal/convert/schema.go:186-188 | Three thousand array properties: 3001 visits the first time, 6001 the second, because default items are inserted without a visit; the second pass changes the schema. |
| `SchemaLaws.ShallowIsFixed` | server/internal/convert/schema.go:17-21 | A cleaned schema that does not reach depth 25 and has at most 4096 nodes needs no more visits than the limit and is given back. |
| `SchemaLaws.NestedArraysAreNotFixed` | server/internal/convert/schema.go:186-188 | Twenty-five nested arrays are not fixed: the default items of the innermost lie at the depth limit and are replaced the second time. |
| `SchemaLaws.ReferenceIsTransparent` | server/internal/convert/schema.go:23-43 | Within the node limit, a followed reference cleans to exactly what its target cleans to one level down, although the result is merged and cleaned again. |
| `SchemaLaws.ReferenceVisits` | server/internal/convert/schema.go:23-43 | What that costs: the visits of the target, and one for each node of what the target was cleaned to. |
| `SchemaLaws.OtherReferenceIsString` | server/internal/convert/schema.go:43-49 | A cyclic, dangling or outside reference becomes a plain STRING. |
| `SchemaLaws.SingleUnionIsTransparent` | server/internal/convert/schema.go:50-71 | Within the node limit, a union of one option cleans to what the option cleans to. |
| `SchemaLaws.SingleUnionVisits` | server/internal/convert/schema.go:50-71 | What that costs: the visits of the option, and one for each node of what the option was cleaned to. |
| `SchemaLaws.BestIsFirstHighest` | server/internal/convert/schema.go:72-87 | Of several branches the first with the highest score is merged. |
| `SchemaLaws.PointerFinds` | server/internal/convert/schema.go:26-30 | A pointer written with escaped tokens (section 4 of RFC 6901) finds the value its tokens lead to, for every list of tokens. |
| `SchemaLaws.UnescapeInvertsEscape` | server/internal/convert/schema.go:28 | Unescaping inverts escaping for every token. |
| `Recency.Table.Remove` | server/internal/convert/signature_cache.go:35-40 | Map, list and byte counter lose the element together; the contents are the old sequence without it. |
| `Recency.Table.PushFront` | server/internal/convert/signature_cache.go:64-66 | Map, list and counter gain the entry together, at the front. |
| `Recency.Table.MoveToFront` | server/internal/convert/signature_cache.go:84 | The element moves to the front and the others keep their order. |
| `Recency.Table.MakeRoom` | server/internal/convert/signature_cache.go:57-63 | Eviction from the old end terminates, and its contents are the longest prefix that leaves room. |
| `Recency.FittedIsPrefix` | server/internal/convert/signature_cache.go:57-63 | Dropping from the old end keeps a prefix; one entry more would not have fitted. |
| `SignatureCaches.SignatureCache.Remember` | server/internal/convert/signature_cache.go:45-67 | The cache in place equals the recency sequence: drop the key, drop from the tail until it fits, prepend. The exit on an empty list is never taken. |
| `SignatureCaches.SignatureCache.Recall` | server/internal/convert/signature_cache.go:68-86 | Returns the live signature and moves it to the front, or removes it once its hour is over. |
| `SignatureCaches.RoomIsFound` | server/internal/convert/signature_cache.go:46-61 | An entry that passes the length checks always fits after eviction. |
| `SignatureCaches.RunStaysBounded` | server/internal/convert/signature_cache.go:57-66 | After any operations at any times: at most 4096 entries and 16 MiB, each key once. |
| `SignatureCaches.RecallIsLatest` | server/internal/convert/signature_cache.go:45-86 | A recalled signature is the one remembered last under the same key, less than an hour before. |
| `SignatureCaches.EntryStaysIff` | server/internal/convert/signature_cache.go:45-86 | One operation leaves an entry in the cache exactly when it stores nothing else under its key, does not ask for it too late, and a new entry fits beside those used since it was. |
| `SignatureCaches.EntryStaysIffSpared` | server/internal/convert/signature_cache.go:45-86 | Over every run: a stored entry is still there exactly when every operation since left it. |
| `SignatureCaches.RecallAfterRemember` | server/internal/convert/signature_cache.go:45-86 | With nothing stored under its key since, a signature is recalled within its hour if and only if every operation since left its entry. |
| `SignatureCaches.KeyTellsFamily` | server/internal/convert/signature_cache.go:26-34 | A key of the claude or the gemini family determines the family and the identifier, whatever the other model is called. |
| `SignatureCaches.RecalledWithinFamily` | server/internal/convert/signature_cache.go:26-86 | Over every run: a signature recalled for a claude or gemini model was remembered for a model of that family under the same identifier. |
| `SignatureCaches.FamiliesShareKeysIff` | server/internal/convert/signature_cache.go:33 | Two families can share a key if and only if one followed by NUL is a prefix of the other followed by NUL. |
| `SignatureCaches.KeyIsInjective` | server/internal/convert/signature_cache.go:26-34 | For model families without a NUL equal keys mean equal families and identifiers. |
| `SignatureCaches.KeysCanCollide` | server/internal/convert/signature_cache.go:33 | Two concrete models and identifiers with the same key. |
| `CacheLaws.FamilyMeans` | server/internal/convert/signature_cache.go:26-32 | Model names that hold claude in any case are one family, those that hold gemini another, and every other name is its own in lower case. |
| `CacheLaws.RememberedIsRecalled` | server/internal/convert/signature_cache.go:45-86 | A signature with an identifier of 1 to 4096, a model name up to 512 and 1 to 262144 characters that is not the validator's placeholder is recalled at once and for an hour, by every model of its family and whatever the cache held; any other changes nothing. |
| `CacheLaws.RecallingKeepsAnswers` | server/internal/convert/signature_cache.go:68-86 | Asking takes no later answer away. |
| `CacheLaws.SignaturesStayFew` | server/internal/convert/signature_cache.go:57-66 | After any operations: at most 4096 signatures, and with their keys at most 16 MiB. |
| `ResponseHistories.ResponseHistory.Put` | server/internal/httpapi/responses.go:62-88 | The history in place equals the recency sequence: drop the key, drop the expired, drop from the tail until it fits, prepend; an oversized input changes nothing. |
| `ResponseHistories.ResponseHistory.Get` | server/internal/httpapi/responses.go:41-61 | Returns the live input and moves it to the front, or removes it; an entry is still live at its very expiry time, unlike a signature. |
| `ResponseHistories.ResponseHistory.RemoveExpired` | server/internal/httpapi/responses.go:72-78 | The walk from the back removes exactly the expired entries and keeps the order. |
| `ResponseHistories.OversizedKeepsOldBinding` | server/internal/httpapi/responses.go:63-66 | An oversized or unencodable input leaves an old binding in place. |
| `ResponseHistories.StoredIffFitsAlone` | server/internal/httpapi/responses.go:79-88 | An input within 2 MiB is stored exactly when it fits into an empty history; otherwise the history is emptied. |
| `ResponseHistories.RunStaysBounded` | server/internal/httpapi/responses.go:62-88 | Capacity and byte limit hold after any operations at any times, each key once. |
| `ResponseHistories.FoundIsLatest` | server/internal/httpapi/responses.go:41-88 | What is found is the last input put under the key that was not too large, no older than the lifetime. |
| `ResponseHistories.EntryStaysIff` | server/internal/httpapi/responses.go:41-88 | One operation leaves an entry in the history exactly when it puts nothing else under its key, does not meet it after its expiry, and what it puts fits beside the entries used since; an input that is too large changes nothing. |
| `ResponseHistories.EntryStaysIffSpared` | server/internal/httpapi/responses.go:41-88 | Over every run: an entry that was put is still there exactly when it fitted and every operation since left it. |
| `ResponseHistories.FoundAfterPut` | server/internal/httpapi/responses.go:41-88 | With nothing else put under its key since, an input is found within its lifetime if and only if it fitted and every operation since left its entry. |
| `CacheLaws.PutIsFound` | server/internal/httpapi/responses.go:62-88 | An input of at most 2 MiB that fits an empty history is found at once and up to the end of its lifetime, whatever the history held; a larger one, or one that cannot be encoded, changes nothing. |
| `CacheLaws.GettingKeepsAnswers` | server/internal/httpapi/responses.go:41-61 | Asking takes no later answer away. |
| `CacheLaws.ResponsesStayFew` | server/internal/httpapi/responses.go:79-88 | After any operations the history holds no more inputs and bytes than it was set up for. |
| `ProxyLoops.Proxy.Run` | server/internal/httpapi/proxy.go:296-536 | The loop terminates for every behaviour of the context, the pool, the upstream and the retry policy, by the lexicographic measure of accounts left and favours left, and ends in the specified state. |
| `ProxyLaws.CallLeads` | server/internal/httpapi/proxy.go:390-533 | Over every run, what each reply leads to: success, a done context or a failure not to be retried ends the run; a penalty strip, a repairing refresh or the account's one short wait keeps the account; any other failure excludes it, and the run goes on exactly while attempts are left and the wait is not cut short. Favours are recorded exactly when granted. |
| `ProxyLaws.NoCallConcludes` | server/internal/httpapi/proxy.go:297-349 | A pass without a call ends the run: the context is done, no account is to be had, or the request cannot be built. |
| `ProxyLaws.NoCallAfterTheEnd` | server/internal/httpapi/proxy.go:296-533 | After a reply that ends the run no later call is made, however long one waits. |
| `ProxyLaws.SameAccountIff` | server/internal/httpapi/proxy.go:481-523 | Of two calls in a row the second goes to the same account if and only if the first was followed by a penalty strip, a successful refresh or a short wait. |
| `ProxyLaws.GoesOnIff` | server/internal/httpapi/proxy.go:510-533 | A run goes on after a call if and only if the account is kept, or it is excluded with attempts left and the wait over. |
| `ProxyLoops.RunKeepsInv` | server/internal/httpapi/proxy.go:296-533 | The invariant of the loop holds after any number of passes. |
| `ProxyLoops.CallsAreBounded` | server/internal/httpapi/proxy.go:296-533 | At most 3 × MaxRetryAttempts + 1 upstream calls are made, whatever happens. |
| `ProxyLoops.CallBoundIsReached` | server/internal/httpapi/proxy.go:296-533 | That bound is reached for every positive number of attempts. |
| `ProxyLoops.FavoursAreOncePerAccount` | server/internal/httpapi/proxy.go:492-523 | No account is acquired twice, and none gets two grace retries or two token refreshes. |
| `ProxyLoops.LeasesAreReturned` | server/internal/httpapi/proxy.go:304-330 | At most one lease is held at any time, and none after the loop. |
| `ProxyLoops.ExcludedIsNotAcquired` | server/internal/httpapi/proxy.go:481-486 | Given that the pool never offers an excluded account, as its `Acquire` promises: no pass acquires one; exclusions and the one penalty strip are never undone. |
| `ProxyLoops.StepKeepsInv` | server/internal/httpapi/proxy.go:296-533 | Every pass keeps the invariant that ties calls to acquisitions and favours, and the open lease to the kept account. |

## Left out

- HTTP routing, authentication, media upload, OAuth and Cloud Code clients, outbound transport: code over libraries that are not part of this model.
- SQL text, dashboard and log queries, the store's writer queue: the store is an account table with commits and a version counter.
- Wrap-around of the 64-bit account version after 2^64 mutations.
- `store.PickAccount`, `Pool.Next` and the background refresh workers: they add no rule of their own to selection.
- `RewriteToAvailable`, the alias tables and the tier rules: a function parameter of the scheduler.
- `retryPolicy`, retry hints and error classification: an arbitrary decision in every pass of the retry loop. Statuses, headers, logs and messages of the proxy are not modelled.
- Panics between acquiring and releasing, which the deferred release covers.
- `InvalidateTokenContext` and administrator writes appear in the refresh protocol as outside writes that begin a new epoch; what they write is arbitrary.
- Acquisition.Scheduler.Acquire: its own reloads count among the installs of the others, because a listing comes from the store whoever installs it, and a context that ends within a round is noticed at the round's checks, all of them or none.
- Waiting of busy callers: a selection that finds only busy accounts is one round of `Acquire`; how long it waits, and that it ends, is left to the context.
- `WriteGeminiSSE`, usage figures in the collected response and first-token times: no rule beyond copying.
- Writers that fail. A failing writer ends the call at once, with its error.
- Parts with two kinds of payload, parts that are no objects, and media parts that give both `inlineData` and `inline_data`. A text part's keys other than text, thought and signature are only counted.
- Tool-call signatures in OpenAI chunks, the late signature that a repeated call adds in the collector, and `RememberToolSignature` calls made while streaming.
- JSON encoding, UTF-8 checks, SHA-256 and UUIDs. Lengths are in characters where the source counts bytes.
- Letters outside ASCII in case mapping; trimming knows all Unicode White_Space.
- A single carriage return as a line ending: the decoder and this model end lines at '\n' and drop one '\r' before it.
- In `CleanSchema` a nil slice and an empty slice are both the empty array.
- SchemaCleaners.CleanWhole: past 4096 nodes the contents are not promised beyond the grammar, because which nodes are replaced then depends on Go's random map order.
- SchemaTwice.CleanTwice: with more than 4096 nodes of which at most 4096 are not the replacement, whether a schema that bottoms out is given back depends on that order too.
- SchemaMeanings.PlainNodeMeans: it and the other rows of this module are about the function without the node limit; `CleanWhole` says when the code computes it.
- SchemaLaws.ReferenceIsTransparent: about the function without the node limit; `ReferenceVisits` and `CleanWhole` say when the code computes it.
- SchemaLaws.SingleUnionIsTransparent: about the function without the node limit; `SingleUnionVisits` and `CleanWhole` say when the code computes it.
- RefreshProtocol.StoredTokenIsShared: promises nothing across a write to the account that does not come from a refresh, because such a write may bring the expired token back.
- Cooldowns.CooldownIsRespected: a limit that a mark of another scope may evict is an exception; `OtherMarkSparesIff` says exactly which.
- Request-side conversion, `GeminiToClaude` and the stop reasons it gives.
- The web console.
