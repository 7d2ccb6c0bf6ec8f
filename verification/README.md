# KAVACH: verified models of the audit log, approvals, permits and guards

KAVACH is a default-deny runtime for agent tool calls. This project models the parts that its
guarantees rest on and proves what they promise:

- **Audit log** (`Canonical`, `AuditEvents`, `AuditChain`, `AuditStore`): the canonical encoding of
  an event, the hash chain over encodings, appends, and full and range verification.
- **Approvals** (`Approvals`, `ApprovalBroker`, `ApprovalSafety`, `ApprovalSequential`,
  `ApprovalConcurrent`, `ApprovalLimits`, `ApprovalVerdicts`, `ApprovalService`, `Identifiers`): the approvals table and its transactions; the broker as a step machine in which
  any number of calls, of any number of brokers, interleave at the granularity of load, audit append
  and transaction, and in which every step may fail; and the broker and store as classes, each call
  proved equal to a run of that machine with nothing in between.
- **Permits and gateway state** (`PermitRegistry`, `RateLimiter`).
- **Paths** (`Paths`): lexical normalisation of resource paths.
- **Guards** (`Network`, `Readers`, `Shell`): the guarded request with its redirects, the two bounded
  read loops, and the shell-hazard scanner.

Text is the sequence of its UTF-8 bytes (`Text`). SHA-256 is an arbitrary function from bytes to 32
bytes: results that depend on it say "this holds, or these are two inputs with the same digest". Clock
readings, token bytes, fresh IDs, failures of the database, resolver answers and server replies are
parameters, so every statement is for all of them. An instant is an integer number of nanoseconds. The
approvals table is a map, the audit table its rows in key order, and a transaction is one step.

## Results to read first

- `AuditChain.TamperEvidence`, `AuditStore.FullIffBlocks`, `Canonical.RoundTripExact`
- `ApprovalSafety.AtMostOnce`, `ApprovalSafety.ConsumeIsEarned`, `ApprovalSafety.WriteAhead`,
  `ApprovalSequential.SequentialRuns`, `ApprovalConcurrent.ApartExactly`, `ApprovalConcurrent.ReferencedExactly`
- `PermitRegistry.EachPermitOnce`, `RateLimiter.AtMostBound`, `Paths.BodyMeaning`,
  `Paths.PathMeaning`,
  `Paths.IdempotentExactly`, `Network.Execute`, `Shell.ReportedIffHazard`

## Where the code differs from what one might expect

- The canonical encoding is not injective on all events. It is invertible exactly on events without a
  newline in a value or rule ID, a quote in a rule ID or a colon in a metadata key
  (`Canonical.RoundTripExact`); five lemmas give collisions.
- Deleting the newest events is not detected by verification; deleting others is
  (`AuditChain.DeletionVerdict`).
- At most one active approval per request can fail when calls interleave: the count and the insert of
  `request_approval` are separate steps. It holds in every run that keeps calls for one digest from
  being between count and insert together (`ApprovalConcurrent.UniqueWhenApart`); once two such calls
  are, they can break it, whatever the pending limit (`ApprovalConcurrent.ApartExactly`).
- The pending limit fails in the same way. With at most c calls at once between their pending count and
  their insert it is exceeded by at most c - 1 (`ApprovalConcurrent.PendingBound`), and by that much in
  some run, for every limit and every c (`ApprovalConcurrent.PendingBoundIsReached`).
- The audit reference of a decided row can be that of its request: `request_approval` writes its
  reference after the row is visible, and a decision may come first
  (`ApprovalConcurrent.LateWriteHappens`). The reference is right if and only if that write did not
  come after the decision (`ApprovalConcurrent.ReferencedExactly`).
- Approvals accept summaries of up to 4,096 bytes and do not check rule IDs; the audit log accepts
  summaries of up to 2,048 bytes and at most 64 rule IDs, and decisions check each stored rule ID. A
  request over those limits reports an audit failure but leaves its row
  (`ApprovalVerdicts.RequestVerdict`), which then refuses retries (`ApprovalVerdicts.RetryIsRefused`) and
  can only expire: a pending row can be decided if and only if it is within the limits
  (`ApprovalLimits.DecidableExactly`).
- A denial passes its reason as the audit event's reason code, so a reason of more than 128 bytes makes
  the denial fail (`ApprovalVerdicts.DenyVerdict`, `ApprovalLimits.DenialReasonsFit`), although the
  declared maximum is 1,024.
- A decision refuses an approval at the very instant of its expiry, the sweep only after it. A decision
  at that instant logs an expiry event and leaves the row as it was
  (`ApprovalSequential.ExpiredDecision`).
- `normalize_lexical` is not idempotent on relative paths that leave their starting level for good by a
  name that reads as a drive, such as `./c:x` (`Paths.IdempotentExactly`, `Paths.DriftExample`).
- A request's URL puts the path straight after the port, and a resource path may be relative: port 443
  and path `5/x` give a URL whose port is 4435, while the address check used 443
  (`Network.RelativePathChangesPort`). `Network.UrlRoundTrip` says exactly when the URL reads back.
- A comment in `strip_known_prefix` says that the marker `\\?\UNC\` has seven bytes. It has eight: the
  code tests for all eight and splits after seven. The model follows the code.
- The metadata-address test in `NetworkEnforcer::execute` can never be reached: the address lies in a
  blocked block, so `Network.CheckAddresses` proves that only blocked-address errors come out.

## Model

| member | source | states |
|---|---|---|
| Text.SortDedupCanonical | crates/kavach-audit/src/store.rs:221-222 | two ID lists have the same sorted and deduplicated form if and only if they have the same elements |
| Text.SortDedupCorrect | crates/kavach-audit/src/store.rs:221-222 | sorting and deduplicating keeps exactly the elements and gives a strictly increasing list |
| Canonical.Buffer.WriteFmt | crates/kavach-audit/src/canonical.rs:53-59 | appends one `key: value` line to the buffer and nothing else |
| Canonical.Buffer.WriteOpt | crates/kavach-audit/src/canonical.rs:61-65 | appends a line for a present value and nothing for an absent one |
| Canonical.Buffer.WriteArray | crates/kavach-audit/src/canonical.rs:67-80 | the element loop appends exactly the bracketed list of quoted IDs |
| Canonical.Buffer.WriteMap | crates/kavach-audit/src/canonical.rs:82-92 | the entry loop appends the header and one line per entry, in key order |
| Canonical.EncodeCanonical | crates/kavach-audit/src/canonical.rs:26-51 | the buffer ends up holding exactly the encoding that the decoder below inverts |
| Canonical.EncodingFormat | crates/kavach-audit/src/canonical.rs:26-51 | the encoding spelled out: every field in its place under its own name, absent optional fields without a line |
| Canonical.DecimalRoundTrip | crates/kavach-audit/src/canonical.rs:26-51 | the decimal text of a number reads back as that number and holds no newline |
| Canonical.RoundTrip | crates/kavach-audit/src/canonical.rs:26-92 | decoding the encoding of a clean event gives the event: optional fields, numbers, ID array and map |
| Canonical.DecodedIsClean | crates/kavach-audit/src/canonical.rs:26-92 | whatever bytes the decoder accepts, the event it returns is clean |
| Canonical.RoundTripExact | crates/kavach-audit/src/canonical.rs:26-92 | decoding inverts the encoding of an event if and only if the event is clean |
| Canonical.EncodingInjective | crates/kavach-audit/src/canonical.rs:26-92 | clean events with equal encodings are equal |
| Canonical.NewlineCollides | crates/kavach-audit/src/canonical.rs:53-65 | for every event and every optional field but the last, a newline in the field can imitate the optional field that follows it: different events, equal bytes |
| Canonical.MetadataNewlineCollides | crates/kavach-audit/src/canonical.rs:82-92 | for every event, a newline in a metadata value can imitate a second entry |
| Canonical.ReasonNewlineCollides | crates/kavach-audit/src/canonical.rs:26-92 | for every event and any rule IDs, a newline in the reason code, the last optional field, can imitate the lists that follow it |
| Canonical.QuoteCollides | crates/kavach-audit/src/canonical.rs:67-80 | for every event, a quote in a rule ID can imitate two rule IDs |
| Canonical.ColonCollides | crates/kavach-audit/src/canonical.rs:82-92 | for every event, a colon in a metadata key can move the boundary between key and value |
| AuditEvents.NameInjective | crates/kavach-audit/src/event.rs:78-100 | different categories have different names |
| AuditEvents.ContentDecodes | crates/kavach-audit/src/verification.rs:200-215 | the hashed bytes of a clean record decode to that record, field by field |
| AuditEvents.ContentInjective | crates/kavach-audit/src/verification.rs:200-215 | records whose hashed fields are clean and encode equally agree on everything but the two hashes |
| AuditEvents.Validate | crates/kavach-audit/src/event.rs:176-225 | the check with its early exits accepts exactly the inputs within every length and count limit |
| AuditEvents.AuditableIsValid | crates/kavach-audit/src/event.rs:176-225 | with metadata within their limits, an input is valid if and only if summary, reason code and rule IDs are within theirs |
| AuditChain.RecomputeHash | crates/kavach-audit/src/verification.rs:241-259 | hashes the previous hash followed by the canonical bytes of the stored fields |
| AuditChain.CheckEvent | crates/kavach-audit/src/verification.rs:158-228 | the gap, link and hash findings for one event |
| AuditChain.VerifyEvents | crates/kavach-audit/src/verification.rs:142-238 | the loop reports all errors in order, the count and the last sequence, and `chain_valid` if and only if every event is linked from the expected start |
| AuditChain.AcceptsIffNoErrors | crates/kavach-audit/src/verification.rs:142-238 | there is no error if and only if the events form a linked, consecutive, correctly hashed chain |
| AuditChain.TamperEvidence | crates/kavach-audit/src/verification.rs:142-238 | two accepted lists of any lengths with the same end hash have equal length, content and hashes everywhere, or `FindCollision` returns two different inputs with equal digest |
| AuditChain.TamperEvidenceOfRecords | crates/kavach-audit/src/verification.rs:142-238 | for clean events, such lists are equal record by record, or a collision exists |
| AuditChain.ModificationIsLocal | crates/kavach-audit/src/verification.rs:158-228 | changing the hashed content of one event of an accepted list gives exactly one error, a hash mismatch at its sequence, unless the two contents collide, and then none |
| AuditChain.LinkChangeIsLocal | crates/kavach-audit/src/verification.rs:158-228 | changing the stored previous hash of one event of an accepted list gives exactly a broken link at its sequence, and for the first event a genesis mismatch before it |
| AuditChain.HashChangeIsLocal | crates/kavach-audit/src/verification.rs:158-228 | changing the stored hash of one event gives exactly a hash mismatch there, a broken link at the next event, and a hash mismatch at the next event unless the inputs collide |
| AuditChain.Consecutive | crates/kavach-audit/src/verification.rs:158-228 | in a linked list the sequences count up by one |
| AuditChain.DeletionVerdict | crates/kavach-audit/src/verification.rs:158-228 | deleting a block is accepted if and only if the block is a suffix, or a prefix whose last hash equals genesis, which is a collision; deleting an interior block reports a sequence gap |
| AuditChain.SuffixVerdict | crates/kavach-audit/src/verification.rs:142-238 | a proper suffix of a linked list verifies from exactly one start hash, that of the event before it |
| AuditStore.AuditStore.RedactMetadata | crates/kavach-audit/src/store.rs:516-535 | the loop redacts every value, keeps every key, and fails when one value cannot be redacted |
| AuditStore.AuditStore.Append | crates/kavach-audit/src/store.rs:176-284 | the outcome, with an error for each step that can fail, and the new rows; a log that verified before still verifies |
| AuditStore.AppendVerdict | crates/kavach-audit/src/store.rs:176-284 | when an append is accepted and which error it gives otherwise; the stored record has the next sequence, the call's ID and time, the input's fields, each free text as the redactor answers it under its own key, and the rule IDs in strictly increasing order |
| AuditStore.AuditStore.VerifyFull | crates/kavach-audit/src/verification.rs:89-92 | the report on all rows from genesis |
| AuditStore.AuditStore.VerifyRange | crates/kavach-audit/src/verification.rs:110-129 | too large a range (in 64-bit arithmetic) and a missing predecessor are errors; otherwise the report on the rows of the range from the predecessor's hash |
| AuditStore.AppendKeepsHealthy | crates/kavach-audit/src/store.rs:176-284 | any append, accepted or refused, keeps sequences 1..n and a log that full verification accepts |
| AuditStore.EveryRunVerifies | crates/kavach-audit/src/store.rs:176-284 | after every run of appends from an empty store, the log has sequences exactly 1..n, n is the number of accepted appends, and full verification accepts it |
| AuditStore.AppendIgnoresIdOrder | crates/kavach-audit/src/store.rs:176-284 | rule IDs in another order or repetition give the same outcome, stored record and hash |
| AuditStore.RangeIsSlice | crates/kavach-audit/src/store.rs:571-601 | on a log numbered 1..n the range query is the slice of the rows |
| AuditStore.BlockVerdict | crates/kavach-audit/src/verification.rs:110-129 | range verification of a block accepts if and only if every event of the block is linked within the whole log |
| AuditStore.FullIffBlocks | crates/kavach-audit/src/verification.rs:110-129 | for any partition of 1..n into blocks within the range limit, full verification accepts if and only if range verification accepts every block |
| ApprovalService.Store.InsertPending | crates/kavach-approval/src/store.rs:150-179 | adds the row, or fails and changes nothing when the ID exists |
| ApprovalService.Store.TransitionToApproved | crates/kavach-approval/src/store.rs:257-315 | the approve transaction on the table, with its refusals and its expiry write |
| ApprovalService.Store.TransitionToDenied | crates/kavach-approval/src/store.rs:318-356 | the deny transaction |
| ApprovalService.Store.TransitionToCancelled | crates/kavach-approval/src/store.rs:359-395 | the cancel transaction |
| ApprovalService.Store.ExpireOverdue | crates/kavach-approval/src/store.rs:413-449 | expires and returns exactly the overdue rows |
| ApprovalService.Store.ConsumeRow | crates/kavach-approval/src/store.rs:452-505 | the consume transaction, with its refusals and its expiry write |
| ApprovalService.Store.UpdateAuditSequence | crates/kavach-approval/src/store.rs:609-624 | sets one row's audit reference and nothing else |
| ApprovalService.Broker.AppendAuditEvent | crates/kavach-approval/src/broker.rs:119-148 | appends one event and returns its sequence if and only if the input is within the audit log's limits and the database works; otherwise changes nothing |
| ApprovalService.Broker.EnsureTransitionable | crates/kavach-approval/src/broker.rs:150-187 | returns a row only when it is in the expected state and unexpired, changing nothing; otherwise the call ends as the step machine says |
| ApprovalService.Broker.LogAndExpire | crates/kavach-approval/src/broker.rs:169-184 | logs one expiry event and then sweeps, as the step machine's last two steps, for every failure pattern |
| ApprovalService.Broker.LogRequest | crates/kavach-approval/src/broker.rs:242-257 | logs the stored request and writes the reference to its event, as the step machine's last two steps, for every failure pattern |
| ApprovalService.Broker.RequestApproval | crates/kavach-approval/src/broker.rs:191-260 | reply and new state equal the step machine run alone, for every failure pattern; what holds between calls is kept |
| ApprovalService.Broker.Approve | crates/kavach-approval/src/broker.rs:268-309 | reply and new state equal the step machine run alone; what holds between calls is kept |
| ApprovalService.Broker.Deny | crates/kavach-approval/src/broker.rs:311-351 | reply and new state equal the step machine run alone; what holds between calls is kept |
| ApprovalService.Broker.Cancel | crates/kavach-approval/src/broker.rs:353-379 | reply and new state equal the step machine run alone; what holds between calls is kept |
| ApprovalService.Broker.Consume | crates/kavach-approval/src/broker.rs:381-441 | reply and new state equal the step machine run alone; what holds between calls is kept |
| ApprovalService.Broker.ExpireOverdue | crates/kavach-approval/src/broker.rs:443-465 | reply and new state equal the step machine run alone; what holds between calls is kept |
| ApprovalBroker.AfterLoad | crates/kavach-approval/src/broker.rs:279-308 | what a decision does once its row was found: rule-ID and token checks, token generation, event before write, and each way to fail in between |
| ApprovalSafety.HistoryRecordsReplies | crates/kavach-approval/src/broker.rs:268-441 | a token is returned, a digest is returned or a row is created exactly when the history records it, so counting history counts successful calls |
| ApprovalSafety.AtMostOnce | crates/kavach-approval/src/broker.rs:268-441 | in every interleaving, each approval has at most one successful approve and at most one successful consume |
| ApprovalSafety.ConsumeIsEarned | crates/kavach-approval/src/broker.rs:381-441 | in every interleaving, a successful consume presented a token whose hash is that of the one issued token, before expiry, and returned the digest of the one request that created the approval |
| ApprovalSafety.ConsumeAnswers | crates/kavach-approval/src/broker.rs:381-441 | in every interleaving, a successful consume answers with the digest and the rule IDs of the creating request, and the sequence of the event that announced it |
| ApprovalSafety.WriteAhead | crates/kavach-approval/src/broker.rs:284-308 | in every interleaving with failures anywhere, an approved, denied, cancelled or consumed row has its event in the log already |
| ApprovalSafety.EveryActionMoves | crates/kavach-approval/src/store.rs:257-505 | every step keeps all rows and what was requested, moves states only along the allowed edges, and only extends the log |
| ApprovalSafety.RunsEvolve | crates/kavach-approval/src/store.rs:257-505 | over any continuation of any run, rows only move from pending and approved forward, and final states stay |
| ApprovalSequential.CallKeeps | crates/kavach-approval/src/broker.rs:191-465 | every whole call, failed ones included, keeps uniqueness, the pending limit, lifetimes and audit references |
| ApprovalSequential.SequentialRuns | crates/kavach-approval/src/broker.rs:196-260 | when calls run one at a time: one active row per digest, at most `max_pending` pending rows, lifetimes of at most 86,400 seconds, and each decided row's audit sequence is that of its event |
| ApprovalSequential.SequentialIsInterleaved | crates/kavach-approval/src/broker.rs:191-465 | every run of whole calls is a run of interleaved steps with the same final state, so the safety results hold of it |
| ApprovalConcurrent.UniqueWhenApart | crates/kavach-approval/src/broker.rs:209-240 | in every interleaved run in which no two calls for one digest are ever both between count and insert, at most one approval per digest is active; calls for different digests interleave freely |
| ApprovalConcurrent.ClosingKeepsApart | crates/kavach-approval/src/broker.rs:209-240 | letting the calls under way go on, with no further request counting, keeps calls for one digest apart |
| ApprovalConcurrent.SharedBreaks | crates/kavach-approval/src/broker.rs:209-240 | from every run in which two calls for one digest are between count and insert, and for every pending limit of at least one, some continuation under that limit and with no further count leaves two active approvals for the digest |
| ApprovalConcurrent.ApartExactly | crates/kavach-approval/src/broker.rs:209-240 | for every pending limit of at least one: a run keeps calls for one digest apart if and only if at none of its points the calls under way, with no further count, can break uniqueness |
| ApprovalConcurrent.InsertUniqueness | crates/kavach-approval/src/broker.rs:240-240 | the single insert step keeps digests unique if and only if the digest has no active row at that step |
| ApprovalConcurrent.EveryLifetimeIsShort | crates/kavach-approval/src/broker.rs:196-219 | in every interleaved run, no row's lifetime exceeds 86,400 seconds |
| ApprovalConcurrent.PendingBound | crates/kavach-approval/src/broker.rs:214-240 | in every interleaved run with at most c calls at once between pending count and insert, there are at most `max_pending` + c - 1 pending rows |
| ApprovalConcurrent.PendingBoundIsReached | crates/kavach-approval/src/broker.rs:214-240 | for every request, every limit above zero and every c, some run with at most c calls at once between pending count and insert leaves exactly `max_pending` + c - 1 pending rows |
| ApprovalConcurrent.ReferencedExactly | crates/kavach-approval/src/broker.rs:245-257 | in every interleaved run a decided row refers to the event of its decision if and only if the creating call did not write its reference after that decision; otherwise it refers to the event of its request |
| ApprovalConcurrent.LateWriteHappens | crates/kavach-approval/src/broker.rs:256-257 | for every request that can be logged and decided, a run leaves an approved row that refers to the event of its request |
| ApprovalVerdicts.RequestVerdict | crates/kavach-approval/src/broker.rs:191-260 | every answer of a request when the database works: the four refusals that change nothing; otherwise a pending row with the request's ID, digest, summary and sorted rule IDs, created now, and living for the requested or default seconds up to a day; the ID is answered if and only if the audit log accepts summary and rule IDs |
| ApprovalVerdicts.RetryIsRefused | crates/kavach-approval/src/broker.rs:209-212 | while a row for a digest is active, a request with that digest is a duplicate and changes nothing |
| ApprovalLimits.UndecidableStays | crates/kavach-approval/src/broker.rs:279-308 | in every interleaved run, a row with a summary or rule IDs over the limits is only ever pending or expired |
| ApprovalLimits.DecidableExactly | crates/kavach-approval/src/broker.rs:279-308 | a pending row of any run can be decided in some continuation if and only if summary and rule IDs are within the limits |
| ApprovalLimits.DenialReasonsFit | crates/kavach-approval/src/broker.rs:333-344 | in every interleaved run, a stored denial reason has at most 128 bytes |
| ApprovalVerdicts.DecisionRefused | crates/kavach-approval/src/broker.rs:150-187 | for every decision: no row, another state, refused rule IDs, a wrong token or a refused audit input is that error, and changes nothing |
| ApprovalVerdicts.ApproveVerdict | crates/kavach-approval/src/broker.rs:268-309 | an approval in time answers with the token, stores its hash, the actor, the time and the reference, and logs the event; if time runs out before the write the row expires |
| ApprovalVerdicts.ConsumeVerdict | crates/kavach-approval/src/broker.rs:381-441 | a consume in time with the right token answers with digest, rule IDs and sequence, marks the row consumed and clears the token hash; if time runs out before the write the row expires |
| ApprovalVerdicts.CancelVerdict | crates/kavach-approval/src/broker.rs:353-379 | a cancellation in time marks the row cancelled and logs a denial event that says so |
| ApprovalVerdicts.DenyVerdict | crates/kavach-approval/src/broker.rs:311-351 | a denial in time of a decidable row stores actor, reason, time and reference if its reason has at most 128 bytes; otherwise it is an audit failure that changes nothing |
| ApprovalVerdicts.DecisionFaults | crates/kavach-approval/src/broker.rs:268-441 | which error a failing load, random generator, audit append or write gives, and what it leaves behind |
| ApprovalVerdicts.RequestFaults | crates/kavach-approval/src/broker.rs:191-260 | the same for a request: nothing up to the insert, then the row, then the row and its event |
| ApprovalVerdicts.SweepFaults | crates/kavach-approval/src/broker.rs:443-465 | the same for the sweep |
| Identifiers.IdVerdict | crates/kavach-core/src/ids.rs:16-34 | UTF-8 text is an identifier if and only if it has 1 to 256 characters, none of them a control character |
| ApprovalConcurrent.ConcurrentRequestsCollide | crates/kavach-approval/src/broker.rs:209-240 | for every request, two concurrent calls from an empty table can leave two active, pending rows for its digest |
| ApprovalSequential.SweepIsExact | crates/kavach-approval/src/broker.rs:443-465 | the sweep returns exactly the overdue IDs, changes exactly those rows, and logs one event if and only if there is one |
| ApprovalSequential.SweepAgainIsIdle | crates/kavach-approval/src/broker.rs:443-465 | a second sweep at the same instant or an earlier one returns nothing, changes nothing and logs nothing |
| ApprovalSequential.ExpiredDecision | crates/kavach-approval/src/broker.rs:150-187 | a decision at or after expiry is refused and logs one expiry event; the row becomes expired if and only if the expiry is strictly past |
| PermitRegistry.Gateway.Register | crates/kavach-gateway/src/state.rs:85-101 | the new state; refused exactly when 10,000 usable entries remain |
| PermitRegistry.RegisterVerdict | crates/kavach-gateway/src/state.rs:85-101 | a registration keeps exactly the usable entries and, unless 10,000 remain, adds the permit under its own token hash |
| PermitRegistry.Gateway.Get | crates/kavach-gateway/src/state.rs:105-117 | purges, then hands out the entry of the token hash, if any |
| PermitRegistry.GetVerdict | crates/kavach-gateway/src/state.rs:105-117 | a lookup keeps exactly the usable entries and hands out the permit if and only if its entry is unexpired and unconsumed; other clients are unaffected |
| PermitRegistry.Gateway.Remove | crates/kavach-gateway/src/state.rs:120-124 | removes one entry; permits already handed out are unaffected |
| PermitRegistry.Gateway.VerifyAndConsume | crates/kavach-enforcement/src/lib.rs:503-523 | the error, in the order expired, consumed, digest mismatch, or none, and the new state |
| PermitRegistry.ExecuteVerdict | crates/kavach-enforcement/src/lib.rs:503-523 | an execution with a held permit passes if and only if the permit is unexpired, unconsumed and bound to the digest; it then records one pass and consumes that permit only; otherwise nothing changes |
| PermitRegistry.EachPermitOnce | crates/kavach-core/src/permit.rs:105-131 | for any interleaving of register, get, execute and remove: each permit passes at most once, only for its bound digest and before expiry; the registry holds at most 10,000 entries |
| PermitRegistry.NeverReturnedAgain | crates/kavach-gateway/src/state.rs:105-117 | after a permit has passed, no later get returns it to any client, whatever happened in between |
| PermitRegistry.HandedOutUntilUsed | crates/kavach-gateway/src/state.rs:85-117 | an accepted permit is handed out for its token hash until it passes, expires, or is replaced or removed |
| PermitRegistry.PassesInTime | crates/kavach-gateway/src/routes/execute.rs:18-62 | register, get and execute: an accepted permit that was not used, fetched and executed in time for its own digest, passes |
| RateLimiter.RateLimiter.Check | crates/kavach-gateway/src/state.rs:246-263 | one check as a step on the timestamps |
| RateLimiter.HeldIsWindow | crates/kavach-gateway/src/state.rs:246-263 | dropping old timestamps at each check loses nothing: what is held counts exactly the accepted checks of the last second |
| RateLimiter.RefusedExactly | crates/kavach-gateway/src/state.rs:246-263 | in clock order, a check is refused if and only if as many checks as the burst or the per-second limit were accepted in the preceding second |
| RateLimiter.AtMostBound | crates/kavach-gateway/src/state.rs:235-263 | any set of accepted checks spanning less than one second is within both the burst and the per-second limit |
| Paths.NormalizeBodyLoop | crates/kavach-core/src/resource.rs:325-339 | the loop over segments computes the joined names that resolving the moves leaves |
| Paths.FailsIffClimbs | crates/kavach-core/src/resource.rs:325-339 | resolving fails if and only if some prefix of the moves climbs above its start |
| Paths.BodyMeaning | crates/kavach-core/src/resource.rs:325-339 | normalising fails if and only if the raw walk climbs above its start; otherwise the result is made of plain names, leads from every base to where the raw path leads, and the raw walk stays under the base throughout |
| Paths.ReachesHolds | crates/kavach-enforcement/src/lib.rs:667-675 | from every base, every intermediate place of the raw walk is lexically under it |
| Paths.SplitRaw | crates/kavach-core/src/resource.rs:325-339 | a path is the segments between its slashes and backslashes |
| Paths.MeaningVerdict | crates/kavach-core/src/resource.rs:325-339 | trailing NULs of a segment are dropped; then nothing and `.` stay, `..` goes up, and anything else is a name |
| Paths.PathMeaning | crates/kavach-core/src/resource.rs:284-353 | for paths of every kind: normalising fails if and only if the walk of the text after the root climbs above its start; otherwise the result is the same root, set off by a slash after a drive or UNC, and the names that the rest leads to from every base |
| Paths.SlashPathMeaning | crates/kavach-core/src/resource.rs:313-322 | a path that starts with a slash keeps it and leads to the same place from every base |
| Paths.NewPathVerdict | crates/kavach-core/src/resource.rs:126-157 | when a path is accepted and which error it gives otherwise; the value keeps the text, says whether it is absolute, and holds its normal form |
| Paths.IdempotentExactly | crates/kavach-core/src/resource.rs:284-353 | normalising twice equals normalising once if and only if the path is not a relative one with a step down, from the starting level and never back to it, by a name that reads as a drive |
| Paths.DriftsByFirstName | crates/kavach-core/src/resource.rs:325-339 | that condition on the raw walk holds if and only if the first name the stack machine keeps reads as a drive |
| Paths.DriftExample | crates/kavach-core/src/resource.rs:307-322 | `./c:x` normalises to `c:x`, which normalises to something else |
| Paths.ValidatedIffConstructed | crates/kavach-core/src/resource.rs:205-245 | the invariant check accepts a path if and only if the constructor returns it for some text |
| Network.BlockedIsRanges | crates/kavach-enforcement/src/network.rs:149-163 | the octet patterns are exactly nine blocks of 32-bit addresses |
| Network.BlockedIsV6Ranges | crates/kavach-enforcement/src/network.rs:165-180 | the segment patterns are exactly these 128-bit values: `::`, `::1`, ff00::/8, fe80::/16, fc00::/7 and the IPv4-mapped forms of the nine blocks |
| Network.AddressChecks | crates/kavach-enforcement/src/network.rs:182-187 | blocked and loopback addresses of both kinds, as ranges of numbers |
| Network.MappedAgrees | crates/kavach-enforcement/src/network.rs:165-187 | an IPv4 address and its IPv4-mapped IPv6 form are blocked alike |
| Network.CheckAddresses | crates/kavach-enforcement/src/network.rs:320-335 | accepts if and only if every address is outside the forbidden ranges or an allowed loopback; a refusal names an address of the list that is neither |
| Network.HostVerdict | crates/kavach-enforcement/src/network.rs:426-442 | which hosts are accepted, and the error for the others |
| Network.MetadataVerdict | crates/kavach-enforcement/src/network.rs:190-198 | the metadata host and the names under it, after lower-casing, and no others |
| Network.CheckRedirectAddresses | crates/kavach-enforcement/src/network.rs:598-608 | accepts the same lists as the check of the first request |
| Network.RedirectUrlExactly | crates/kavach-enforcement/src/network.rs:711-756 | a redirect URL is rejected if its scheme is not allowed, and otherwise judged by the host it parses to |
| Network.UrlRoundTrip | crates/kavach-enforcement/src/network.rs:336-336 | parsing a request's URL gives back its scheme, host and port if and only if the host has no slash or colon and the text before the path's first slash is empty, or digits that leave port zero zero, or not readable with the port while the port is the default one |
| Network.SlashPathRoundTrip | crates/kavach-enforcement/src/network.rs:336-336 | for a path that starts with a slash, the URL reads back if and only if the host has no slash or colon |
| Network.UrlWithoutPort | crates/kavach-enforcement/src/network.rs:711-736 | a URL without a port has port 443 or 80 by its scheme |
| Network.PlusPort | crates/kavach-enforcement/src/network.rs:723-727 | a plus sign before a port is accepted |
| Network.RelativePathChangesPort | crates/kavach-enforcement/src/network.rs:336-336 | for every host without slash or colon, port 443 followed by the path `5/x` is read as port 4435 |
| Network.ResolveHost | crates/kavach-enforcement/src/network.rs:485-497 | an empty answer is a failure |
| Network.NextHop | crates/kavach-enforcement/src/network.rs:587-611 | a redirect is followed if and only if its target parses, resolves and passes every check, and then with the addresses that were checked; otherwise the error says which check failed |
| Network.ExecuteHttp | crates/kavach-enforcement/src/network.rs:518-660 | for every server and resolver: the requests form a chain in which each was checked in its own hop and the previous reply pointed to it, within the redirect limit, and the last reply decides the result |
| Network.Execute | crates/kavach-enforcement/src/network.rs:277-362 | for every server and resolver: at most `redirect_limit + 1` requests, all guarded, https when plain HTTP is disabled and to a forbidden address only as an allowed loopback; the first is sent if and only if its checks pass, to the addresses that were checked, and otherwise the error says which check failed |
| Network.EveryHopIsSafe | crates/kavach-enforcement/src/network.rs:503-511 | every request of a guarded chain is https when plain HTTP is disabled, and goes to a blocked address only as an allowed loopback |
| Readers.ReadStream | crates/kavach-enforcement/src/command.rs:907-930 | however the stream is split into reads, the first min(limit, length) bytes; an error if and only if a read fails before data arrives past the limit, and then the first such error |
| Readers.ReadBody | crates/kavach-enforcement/src/network.rs:631-647 | the whole body if and only if no read fails or takes it over the limit; otherwise the error of the first read that does |
| Readers.PiecesJoin | crates/kavach-enforcement/src/network.rs:631-647 | a text cut at any places and read piece by piece is joined to that text again |
| Readers.FitsIffNoStop | crates/kavach-enforcement/src/network.rs:631-647 | a body read without failures is returned if and only if its length is within the limit, however it is split |
| Shell.ScanDangerousShellConstructs | crates/kavach-core/src/shell.rs:75-148 | the variable-stride loop reports, in order and without dropping repeats, the hazards at the positions that no earlier pair has used up |
| Shell.KindVerdict | crates/kavach-core/src/shell.rs:80-142 | each kind is reported for its own text and no other |
| Shell.PairVerdict | crates/kavach-core/src/shell.rs:80-142 | which texts are read as two bytes together |
| Shell.ReportedIffHazard | crates/kavach-core/src/shell.rs:151-153 | something is reported if and only if some position holds a hazard, whatever the stride skips |
| Shell.SubstitutionReportedIff | crates/kavach-core/src/shell.rs:159-169 | a substitution is reported if and only if some position holds one |
| Shell.HasDangerousShellConstruct | crates/kavach-core/src/shell.rs:151-153 | true if and only if some position holds a hazard |
| Shell.HasSubstitutionHazard | crates/kavach-core/src/shell.rs:159-169 | true if and only if some position holds a backtick or a dollar sign that starts an expansion |
| Shell.DangerousJoin | crates/kavach-core/src/shell.rs:75-153 | joined text is dangerous if and only if a part is, or a dollar sign at the seam is completed |
| Shell.SubstitutesJoin | crates/kavach-core/src/shell.rs:159-169 | the same for substitutions |

## Left out

- Policy evaluation, runtime orchestration, the redaction detectors and the gateway's route handlers. Redaction inside an append is an arbitrary function that may fail.
- SHA-256, random generation, constant-time comparison, hexadecimal and JSON text, UUIDs and timestamp text. Rows whose stored text does not parse, and the error kinds for them, are not modelled.
- The broker's audit metadata: approval IDs, request IDs and actors are bounded by their own types, so the metadata are taken to fit.
- The detail strings of errors; an error is its kind and the values that identify it.
- SQLite: locking, journaling and migrations. An immediate transaction is one step.
- `verify_from_checkpoint`: it asks for a range that the size guard refuses for ordinary checkpoints.
- Canonical.EncodingInjective: one direction only. Which pairs of unclean events collide is not characterised; RoundTripExact gives the exact set on which the decoder inverts the encoding.
- ApprovalSequential.SequentialRuns: for calls one at a time only, because uniqueness, the pending limit and the audit references can fail when calls interleave; ApprovalConcurrent gives the conditions, and the lifetime bound for every interleaving.
- ApprovalSafety.ConsumeIsEarned: the presented token has the hash of the issued one; that the tokens are equal would need a collision-free hash.
- RateLimiter.AtMostBound: calls in clock order only. The clock is read before the lock, so concurrent checks may be out of order.
- PermitRegistry.NeverReturnedAgain: a `get` is one step with one clock reading, so this is about a `get` that starts after the pass. The code purges entry by entry, and a `get` that overlaps a pass can return the permit just consumed.
- PermitRegistry.Gateway: the permit objects behind the shared pointers are entries of a sequence and a pointer is an index. Poisoned locks, the permit secret and the scope check are not modelled.
- The registry of approval tokens, listing and pagination queries, and the other gateway settings: they would only add easy members.
- Network.Execute: request validation, the permit check that precedes it, headers, the request body and its limit, and timeouts are not modelled. Lower-casing of host names is an arbitrary function. A transport failure is an opaque value.
- Network.ExecuteHttp: the method, headers and request body are not modelled, and a status that the client reports as an error is one of the transport failures.
- The filesystem: canonicalisation, symbolic links and file operations. Process spawning and termination.
- The MCP proxy, dashboards, command line and configuration loading.
