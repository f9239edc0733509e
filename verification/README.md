# Latiq: a verified model of its core algorithms and protocols

Latiq runs SQL over "ponds": small databases, each owned by one node, placed by a control plane.
DuckDB executes the SQL and is opaque here. This project models the code around it that decides
something hard, and proves what that code promises.

| module | what it models |
|---|---|
| `Chars`, `Options` | character classes and string helpers; an optional value |
| `Redaction`, `RedactionTheorems` | the audit log's SQL redactor: two loops, refined to recursive specifications, then shown to be one tokeniser |
| `RedactedStatements` | what the redactor makes of statements, spelled out without its own lists and classes |
| `SqlLiterals` | the SQL text a node builds, and what the redactor makes of it |
| `ReadPool` | the bounded pool of read connections, under every interleaving of readers |
| `WriterAbort` | the writer connection, its queue, and the interrupt watchers |
| `Jwks` | the signing-key cache: import, lookup, single flight, backoff |
| `InFlight` | the registry of running operations, and drops and their tombstones under every interleaving |
| `Registry` | the control plane's tables of nodes and ponds |
| `Routing` | placement and forwarding of a request, while the registry goes on working |
| `CreateSaga` | place, materialise, compensate |
| `ExternalAttach` | mounting an external catalog for one pull |
| `FactTemplate`, `QuotedString`, `Traceparent` | message templates, header encoding, trace context |

Text loops are methods with invariants, proved equal to recursive functions; objects whose fields
change are classes, each method tied to a function of the old state. Protocols are step relations:
a world, a `Step`, `Enabled`, `Apply`, and an inductive invariant over every finite run. A few
fields of these worlds are marked as proof records: no step reads them to decide anything. Two more
remember what has been generated, so that a new id is new: `checkedAt` in `InFlight`, which is
otherwise a record of times, and `used` in `Registry`. Methods that change state, and steps, use the
same functions.

Eight properties one might expect of the code do not hold of it. Each is stated with a run or input
that breaks it and with the exact condition under which it holds:

* A reader can stay parked beside free capacity: the path for a failed clone frees a slot and
  notifies nobody (`ReadPool.FailedCloneStrands`, `ReadPool.StrandsOnlyIfClonesFail`).
* A query can run on a pond while a drop deletes its files. A comment in `inflight.rs` says that
  tombstones close that race. They do not, for two reasons: `register` looks at the tombstones and
  inserts into the map under two separate locks, and a whole `begin_drop` fits in between; and two
  drops of one pond share one tombstone, which the first to end clears
  (`InFlight.OvertakenRegistration`, `InFlight.OverlappingDrop`, `InFlight.DropsAreQuietExactly`).
* A tombstone outlives a drop whose future is abandoned at an await
  (`InFlight.AbandonedDropLeavesTombstone`, `InFlight.TombstonesEndUnlessAbandoned`).
* A reference can mean two ponds, because creation checks names against names only and never against
  ids; a drop by that reference removes both (`Registry.DropCanTakeTwo`, `Registry.RefsAreExactUnless`,
  `Registry.RefsAreExactIfNothingClashes`).
* Forwarding can go on without end. Every hop forwards the reference and every node resolves it
  again, so an ambiguous reference is passed back and forth between two owners, in a registry at rest
  and with honest nodes; so is any request if a node advertises another address than it answers at
  (`Routing.AmbiguousReferenceLoops`, `Routing.ForwardingIsBoundedExactly`,
  `Routing.HonestForwardingIsBoundedIfNothingClashes`).
* A creation can report success although another pond was made real, and a failed one can remove
  another pond, if a pond is called by the new pond's id (`CreateSaga.StrangerIsMadeReal`,
  `CreateSaga.SuccessIsTheOwnersExactly`, `CreateSaga.CompensationTakesStranger`,
  `CreateSaga.CompensationTakesItsOwnExactly`).
* The rate of key fetches is bounded only if no caller's future is dropped in mid-fetch
  (`Jwks.DroppedFetchIsRepeated`, `Jwks.RateIsBoundedExactlyWithoutDrops`).
* Percent-decoding does not recover a URL that carries escapes of its own, deliberately: what it does
  recover, for every URL, is what decoding the URL itself gives
  (`QuotedString.EncodingRoundTrips`, `QuotedString.EncodingKeepsMeaning`).

One more remark. The comment on `compensate` describes every `compensated: false` as an orphaned row.
When the registry's answer was that there is no such pond, no row is left
(`CreateSaga.CreatesAreAllOrNothing`).

## Model

| member | source | states |
|---|---|---|
| Redaction.TakeQuoted | crates/latiq-agent-core/src/ops.rs:2368-2377 | consumes exactly the literal: doubled quotes do not close it, an unclosed one runs to the end |
| Redaction.SkipLine | crates/latiq-agent-core/src/ops.rs:2379-2387 | drops a line comment through its newline, and keeps the newline if there was one |
| Redaction.SkipBlock | crates/latiq-agent-core/src/ops.rs:2388-2396 | drops a block comment through its first closer, which may not share the opener's star |
| Redaction.StripSqlComments | crates/latiq-agent-core/src/ops.rs:2360-2403 | the loop computes `Strip`, whose agreement with the second pass is `Fusion` |
| Redaction.SkipRun | crates/latiq-agent-core/src/ops.rs:2318-2320 | drops exactly the maximal run of digits and dots |
| Redaction.CopyFlags | crates/latiq-agent-core/src/ops.rs:2326-2350 | the flag updates compute `Copied`, whose meaning is `TrackMeaning` |
| Redaction.RedactSql | crates/latiq-agent-core/src/ops.rs:2282-2356 | both loops together compute `RedactSpec`, the subject of the theorems below |
| RedactionTheorems.TokenLocal | crates/latiq-agent-core/src/ops.rs:2282-2403 | a token that ends inside a prefix common to two texts is the same token in both, with at most a digit for a digit after it |
| RedactionTheorems.Fusion | crates/latiq-agent-core/src/ops.rs:2282-2403 | the two passes agree on every boundary: stripping then collapsing, from any flags, is one pass of one tokeniser |
| RedactionTheorems.SecretIsOneToken | crates/latiq-agent-core/src/ops.rs:2282-2403 | any complete literal, comment or number is read as one token, whatever it says |
| RedactionTheorems.OnePassIgnores | crates/latiq-agent-core/src/ops.rs:2282-2403 | the same from any flags: replacing a secret changes neither what is emitted nor the flags at which it is met |
| RedactionTheorems.RedactionIgnoresSecrets | crates/latiq-agent-core/src/ops.rs:2282-2403 | for every statement, replacing the text of a complete quoted literal, line comment, block comment or numeric literal by another of its kind leaves the redacted text unchanged |
| RedactionTheorems.TrackMeaning | crates/latiq-agent-core/src/ops.rs:2286-2296 | after any text the flags say exactly: what word it ends in, whether a type word precedes, whether its last parenthesis opened a type |
| RedactionTheorems.CleanFromMeaning | crates/latiq-agent-core/src/ops.rs:2247-2356 | being left alone by the tokeniser is the declarative `Clean`, position by position |
| RedactionTheorems.RedactionIsClean | crates/latiq-agent-core/src/ops.rs:2247-2403 | the output has no quote and no comment opener, each digit continues an identifier or lies in a type's parentheses, it is no longer than the input; the fixed points are exactly the clean texts; redacting twice is redacting once |
| RedactedStatements.NumbersAreKeptAfterTypesOnly | crates/latiq-agent-core/src/ops.rs:2247-2352 | a number in parentheses after a word, white space or not between, is kept exactly when the word is one of the sixteen names written out in the statement, whatever its case; after any other word, or none, it is redacted |
| RedactedStatements.DigitsBelongToNames | crates/latiq-agent-core/src/ops.rs:2286-2318 | a digit run right after a character is kept exactly after an ASCII letter or an underscore |
| RedactedStatements.SecretsAreMarked | crates/latiq-agent-core/src/ops.rs:2282-2403 | between words, any string or number becomes one question mark, any block comment one space, any line comment nothing, and the rest stays |
| RedactedStatements.UnclosedTextIsHidden | crates/latiq-agent-core/src/ops.rs:2298-2311 | a string or block comment that is never closed hides all that follows it |
| Chars.AsciiWhitespace | crates/latiq-agent-core/src/ops.rs:2345-2347 | among ASCII characters, which six are white space |
| SqlLiterals.EscapedReadsBack | crates/latiq-engine-duckdb/src/attachers.rs:66-68 | reading an escaped value back with the literal rule returns it and stops at its own closing quote |
| SqlLiterals.IdentifierReadsBack | crates/latiq-agent-core/src/ops.rs:2076-2078 | a quoted identifier reads back as the name, whatever the name |
| SqlLiterals.SchemaStatementIsKept | crates/latiq-agent-core/src/ops.rs:2080-2082 | the redactor leaves the schema statement for an identifier as it is |
| SqlLiterals.PlainIsCopied | crates/latiq-agent-core/src/ops.rs:2326-2352 | text without quote, dash, slash or a digit outside a word is copied, from any flags |
| SqlLiterals.FramedLiteralIsRedacted | crates/latiq-agent-core/src/ops.rs:2282-2403 | plain text around one escaped literal is redacted to itself around `?` |
| SqlLiterals.LoadIsRedacted | crates/latiq-agent-core/src/ops.rs:2084-2104 | for identifier-shaped schema and table, the recorded load statement is its fixed frame with `?`, whatever the URI contains |
| SqlLiterals.LoadReadsTheUri | crates/latiq-agent-core/src/ops.rs:2084-2104 | for any names and any URI, what the load statement reads is the URI to the letter, and nothing but the closing parenthesis follows it |
| SqlLiterals.ReaderIsChosen | crates/latiq-agent-core/src/ops.rs:2085-2100 | a named format decides the reader whatever its case and padding; any other leaves it to the end of the URI, whatever its case |
| SqlLiterals.FixedTextIs | crates/latiq-agent-core/src/ops.rs:2080-2104 | the fixed parts of both statements, to the letter |
| FactTemplate.Find | crates/latiq-common/src/error.rs:320-321 | `str::find`: cuts the text around the first occurrence |
| FactTemplate.FindHole | crates/latiq-common/src/error.rs:320-324 | the two searches of one turn find the first hole exactly when there is one |
| FactTemplate.RenderFacts | crates/latiq-common/src/error.rs:317-336 | the loop renders the template's tokens once, left to right, and never rescans a fact's text; it terminates on `rest` |
| FactTemplate.TokeniserIsExact | crates/latiq-common/src/error.rs:317-336 | a token sequence is the template's tokenisation if and only if it is well shaped and writes the template back |
| FactTemplate.RenderInStages | crates/latiq-common/src/error.rs:317-336 | rendering with `f1` and then `f2` is rendering once with both, `f1` preferred, when no `f1` value holds an opening brace; so unresolved placeholders stay as they were |
| FactTemplate.HolesAreFilled | crates/latiq-common/src/error.rs:324-332 | a placeholder is replaced by its fact, and one without a fact is left as written |
| QuotedString.EncodeQuoted | crates/latiq-auth/src/metadata.rs:93-103 | the loop computes `Encode` |
| QuotedString.EncodingIsSafe | crates/latiq-auth/src/metadata.rs:70-103 | every byte of the output may stand in a quoted-string (section 5.6.4 of RFC 9110), its length is between n and 3n, and exactly the legal URLs are unchanged |
| QuotedString.LegalUrlsAreUnchanged | crates/latiq-auth/src/metadata.rs:96-98 | exactly the URLs of printable ASCII without a double quote or a backslash are written as they are |
| QuotedString.EscapesAreUpperCase | crates/latiq-auth/src/metadata.rs:99 | any other byte is written as a percent sign and two upper-case hexadecimal digits |
| QuotedString.EncodingIsIdempotent | crates/latiq-auth/src/metadata.rs:88-103 | encoding twice is encoding once |
| QuotedString.EncodingKeepsMeaning | crates/latiq-auth/src/metadata.rs:88-103 | for every URL, decoding the encoded URL gives what decoding the URL gives: a pre-escaped URL is not corrupted |
| QuotedString.EncodingRoundTrips | crates/latiq-auth/src/metadata.rs:93-103 | decoding recovers the URL if and only if it carries no escape; in particular when it has no percent sign |
| QuotedString.HeaderIsOneParameter | crates/latiq-auth/src/metadata.rs:55-68 | a reader of quoted-strings gets exactly the encoded URL and finds nothing after it, whatever the URL |
| QuotedString.ChallengeIsOneParameter | crates/latiq-auth/src/metadata.rs:63-68 | the same of the challenge header itself |
| QuotedString.ChallengeIsSpelled | crates/latiq-auth/src/metadata.rs:63-68 | the challenge header, to the letter |
| Traceparent.New | crates/latiq-common/src/trace.rs:70-76 | a new context is well formed, its ids non-zero because of the UUID's version digit, and sampled |
| Traceparent.ParseAcceptsTheGrammar | crates/latiq-common/src/trace.rs:88-119 | `parse` accepts exactly the positional grammar (section 3.2 of W3C Trace Context), longer headers of higher versions included; it keeps the trace id and, for each last digit of the flags, the sampled bit, and mints its own span |
| Traceparent.PaddingIsIgnored | crates/latiq-common/src/trace.rs:89 | white space around a header is nothing to it |
| Traceparent.HeadersAreVersionZero | crates/latiq-common/src/trace.rs:133-137 | what is sent is a header of version 00 with our trace and span ids and flags 01 or 00 |
| Traceparent.HopsKeepTheTrace | crates/latiq-common/src/trace.rs:88-137 | from any well-formed context, along a chain of any number of hops, no hop refuses the header, trace id and sampled bit arrive unchanged, and the span is the last hop's |
| Traceparent.InboundTracesArrive | crates/latiq-common/src/trace.rs:121-137 | whatever header a request brings, or none, its context is well formed and reaches the end of every chain of hops: the caller's trace id and sampled bit when the header is a `traceparent`, a new sampled trace otherwise |
| ReadPool.Pool.TryTake | crates/latiq-engine-duckdb/src/duck_engine.rs:274-301 | one turn under the lock: pop, take a slot, or wait |
| ReadPool.Pool.Return | crates/latiq-engine-duckdb/src/duck_engine.rs:179-194 | a guard's drop pools a reusable connection and gives up the slot of any other |
| ReadPool.Pool.GiveUpSlot | crates/latiq-engine-duckdb/src/duck_engine.rs:290-293 | a failed clone gives its slot back |
| ReadPool.StepKeepsInv | crates/latiq-engine-duckdb/src/duck_engine.rs:149-302 | every atomic step of every reader keeps the invariant, including the gap between unlocking and notifying, newcomers that steal, and spurious wakeups |
| ReadPool.PoolIsSafe | crates/latiq-engine-duckdb/src/duck_engine.rs:149-348 | in every reachable state: created = idle + held + cloning, at most max; each connection in one place; one that errored or panicked never pooled again; and while anyone is parked, free capacity is at most the wakeups on their way plus the clones that failed since somebody has been parked |
| ReadPool.OnlySuccessfulReadsArePooled | crates/latiq-engine-duckdb/src/duck_engine.rs:337-348 | the connection of a successful read is pooled when its guard is dropped, as the next to be lent; that of any other read is discarded with its slot |
| ReadPool.FailedCloneStrands | crates/latiq-engine-duckdb/src/duck_engine.rs:281-300 | for every pool size there is a run, with one failed clone, that leaves a reader parked beside free capacity |
| ReadPool.StrandsOnlyIfClonesFail | crates/latiq-engine-duckdb/src/duck_engine.rs:271-302 | no run strands a reader if and only if clones cannot fail |
| ReadPool.WaitersWaitForWork | crates/latiq-engine-duckdb/src/duck_engine.rs:269-302 | without wakeups on their way, and with no clone failed since somebody has been parked, a parked reader waits for a full pool of connections in use |
| WriterAbort.StepKeepsInv | crates/latiq-engine-duckdb/src/duck_engine.rs:356-382 | every step of every caller and watcher thread keeps the invariant |
| WriterAbort.WriterSurvives | crates/latiq-engine-duckdb/src/duck_engine.rs:483-534 | in every reachable state, a call that gives the writer back leaves it outside any transaction, no recovery rollback is interrupted, and one call at a time has the writer |
| WriterAbort.AnswerIsTheClosures | crates/latiq-engine-duckdb/src/duck_engine.rs:508-534 | told from the run's steps: a call answers what its closure returned, and never the other answer; a success ran no recovery rollback, and a failure did |
| WriterAbort.UndisturbedWriteReturns | crates/latiq-engine-duckdb/src/duck_engine.rs:483-534 | from any state in which nobody has the writer, a new call gets it, runs its statement and returns its closure's answer, with the writer outside any transaction even if the statement left one open |
| WriterAbort.OnlyTheCancelledAreInterrupted | crates/latiq-engine-duckdb/src/abort.rs:77-83 | a running statement that has been interrupted belongs to a cancelled call |
| WriterAbort.DisarmReturns | crates/latiq-engine-duckdb/src/abort.rs:95-108 | once `done` is set the watcher takes at most four more steps, can take its next as long as it cannot be joined, and can be joined after four |
| WriterAbort.InterruptsHitOnlyTheirOwn | crates/latiq-engine-duckdb/src/abort.rs:66-109 | an interrupt is issued only before its `disarm` returns, and can only meet a statement of its own caller's closure |
| WriterAbort.NoInterruptAfterDisarm | crates/latiq-engine-duckdb/src/abort.rs:95-108 | once a call has joined its watcher, no continuation of the run holds another interrupt of that call |
| WriterAbort.CancelReachesStatement | crates/latiq-engine-duckdb/src/abort.rs:66-93 | told from the run alone: a cancelled call's statement that still runs after four steps of its own watcher has been interrupted, wherever the watcher stood, whatever the others did, and even if the cancel came between statements |
| WriterAbort.CancelledCallDoesNotQueue | crates/latiq-engine-duckdb/src/duck_engine.rs:250-267 | however the others run, a cancelled caller takes at most two more turns of the queue loop |
| WriterAbort.OnlyTheCancelledGiveUp | crates/latiq-engine-duckdb/src/duck_engine.rs:250-267 | a call that gives up was cancelled and never armed a watcher or held the writer |
| Jwks.ImportsSigningKeysOnly | crates/latiq-auth/src/jwks.rs:270-320 | a key is known if and only if the document publishes it for signing; the last such entry wins, and its declared algorithm stays with it |
| Jwks.JwksCache.RefreshInner | crates/latiq-auth/src/jwks.rs:266-322 | a successful fetch replaces the keys wholesale, a failed one leaves them |
| Jwks.JwksCache.Refresh | crates/latiq-auth/src/jwks.rs:248-264 | completion is recorded on success and failure alike |
| Jwks.JwksCache.RefreshGuarded | crates/latiq-auth/src/jwks.rs:206-210 | fetches exactly if nothing completed since the snapshot and the floor allows it |
| Jwks.JwksCache.KeyFor | crates/latiq-auth/src/jwks.rs:170-190 | a hit, or a miss too soon, changes nothing; any other miss fetches once, stamps the completion, and learns the document: the key is found exactly if the response offers it, and is that of its last such entry; a failed fetch learns nothing and reports the issuer; an unknown kid is reported only if the last refresh succeeded and its document has no such signing key |
| Jwks.FloorFormula | crates/latiq-auth/src/jwks.rs:222-233 | neither the saturating product nor the 32-bit shift ever changes the floor |
| Jwks.FetchesAreAllowedAfterTheFloor | crates/latiq-auth/src/jwks.rs:213-233 | a fetch is too soon exactly before the last completion plus the wait: the interval after a success, the doubled and capped base after failures |
| Jwks.DueMissesAreFetched | crates/latiq-auth/src/jwks.rs:192-211 | from any state in which nobody has the guard, a new miss is fetched if the wait is over, told from what has been fetched, and returns without asking if not |
| Jwks.FloorIsMonotone | crates/latiq-auth/src/jwks.rs:222-233 | the floor grows with consecutive failures, between the smaller of base and interval and the interval |
| Jwks.SumIsGeometric | crates/latiq-auth/src/jwks.rs:226-232 | under the interval, n failures cost base * (2^n - 1) |
| Jwks.SingleFlight | crates/latiq-auth/src/jwks.rs:192-211 | in every interleaving, dropped futures included, at most one fetch is in flight, and none has completed since its caller's snapshot |
| Jwks.WaitersRide | crates/latiq-auth/src/jwks.rs:201-211 | a caller queued behind a fetch that completed never fetches, however the run goes on and whatever the floor |
| Jwks.FetchesAreSpaced | crates/latiq-auth/src/jwks.rs:213-264 | each fetch that was not dropped starts at least the floor after the previous completion |
| Jwks.FailuresBackOff | crates/latiq-auth/src/jwks.rs:222-264 | n failures in a row keep the next fetch away for at least the sum of their floors, which `SumIsGeometric` computes |
| Jwks.FetchesInWindow | crates/latiq-auth/src/jwks.rs:194-264 | the fetches in any window, dropped ones aside, are linear in its length |
| Jwks.DroppedFetchIsRepeated | crates/latiq-auth/src/jwks.rs:194-264 | a run with two fetches at one instant: a caller dropped in mid-fetch stamps nothing |
| Jwks.RateIsBoundedExactlyWithoutDrops | crates/latiq-auth/src/jwks.rs:194-264 | the bound covers every fetch issued if and only if no caller is dropped in mid-fetch |
| InFlight.Registry.Register | crates/latiq-agent-core/src/inflight.rs:47-66 | adds one operation, with a new token that is already cancelled exactly if its pond is tombstoned |
| InFlight.Registry.Complete | crates/latiq-agent-core/src/inflight.rs:68-71 | removes that operation and no other |
| InFlight.Registry.CancelOp | crates/latiq-agent-core/src/inflight.rs:73-78 | cancels that operation's token, if it runs, and no other |
| InFlight.Registry.CancelForPond | crates/latiq-agent-core/src/inflight.rs:80-88 | cancels the tokens of exactly the pond's operations; every other token is as before |
| InFlight.Registry.BeginDrop | crates/latiq-agent-core/src/inflight.rs:93-96 | tombstones the pond and cancels exactly what runs on it; every other token is as before |
| InFlight.Registry.EndDrop | crates/latiq-agent-core/src/inflight.rs:98-102 | clears the tombstone and nothing else |
| InFlight.Registry.DropPondLocally | crates/latiq-agent-core/src/ops.rs:810-842 | one uninterrupted caller clears its tombstone whether the control plane agreed or not; overlapping callers are the subject of the three theorems below |
| InFlight.OnlySlippersRun | crates/latiq-agent-core/src/inflight.rs:47-102 | in every interleaving, overlapping and abandoned drops included, an operation on a tombstoned pond has a live token only if it looked before the tombstone and entered the map after the sweep |
| InFlight.TombstonesEndUnlessAbandoned | crates/latiq-agent-core/src/ops.rs:807-842 | every tombstone has a drop under way that is yet to clear it, so none outlives its drops on success or refusal: in every run, if and only if no drop is abandoned at an await |
| InFlight.OvertakenRegistration | crates/latiq-agent-core/src/inflight.rs:53-64 | a run in which a registration is overtaken by a whole `begin_drop` and runs during the drop |
| InFlight.OverlappingDrop | crates/latiq-agent-core/src/ops.rs:810-842 | a run of whole calls only: a second drop of the pond is refused and clears the tombstone while the first is deleting files, and a query then runs |
| InFlight.DropsAreQuietExactly | crates/latiq-agent-core/src/inflight.rs:31-35 | no operation runs with a live token on a pond between a drop's `begin_drop` and its `end_drop`: in every run, if and only if each call is one step and no two drops of one pond overlap |
| InFlight.BystandersStayLive | crates/latiq-agent-core/src/inflight.rs:47-96 | in every interleaving, an operation that looked while its pond was not tombstoned, or has none, keeps a live token until it completes, in every continuation that neither cancels it nor sweeps its own pond |
| InFlight.EndsAreFinal | crates/latiq-agent-core/src/inflight.rs:68-78 | a completed operation is gone for good, and a cancelled one never runs again with a live token |
| Registry.Tables.Register | crates/latiq-control-plane/src/registry.rs:144-168 | the upsert, and no other row |
| Registry.Tables.Beat | crates/latiq-control-plane/src/registry.rs:173-183 | refreshes and revives a registered node, and refuses any other |
| Registry.Tables.Create | crates/latiq-control-plane/src/registry.rs:251-330 | the checks in the code's order, then the one new row |
| Registry.Tables.SetTier | crates/latiq-control-plane/src/registry.rs:412-431 | the update by id or name, or the refusal |
| Registry.Tables.Forget | crates/latiq-control-plane/src/registry.rs:452-497 | the guarded deletion of the one row read |
| Registry.Tables.Drop | crates/latiq-control-plane/src/registry.rs:501-512 | the deletion by id or name |
| Registry.StepKeepsInv | crates/latiq-control-plane/src/registry.rs:144-512 | every operation keeps the invariant |
| Registry.RegistryIsSound | crates/latiq-control-plane/src/registry.rs:235-330 | after any operations names are unique and legal, stored tiers canonical, the uncapped tier only granted after creation, and every pond on the node it was placed on, which is still registered |
| Registry.CreationSucceedsExactly | crates/latiq-control-plane/src/registry.rs:251-330 | a creation succeeds if and only if it asks for a tier there is but the uncapped one, medium if nothing is said, and a legal name or none, some node is active, and neither name nor id is taken; its row says what was asked |
| Registry.RefusalsSayWhy | crates/latiq-control-plane/src/registry.rs:273-311 | which refusal means what, and that no refusal changes a row |
| Registry.TierSpellings | crates/latiq-common/src/tier.rs:87-101 | how each tier may be spelled |
| Registry.HeartbeatsAreAnswered | crates/latiq-control-plane/src/registry.rs:173-183 | a heartbeat is accepted exactly from a node that has registered, told from the run |
| Registry.DropsAreExact | crates/latiq-control-plane/src/registry.rs:501-512 | a drop takes every pond with that id or name and no other, and says whether there was one |
| Registry.PondsWerePlacedOnActiveNodes | crates/latiq-control-plane/src/registry.rs:294-316 | every pond in the table was created by an operation of the run on the node it is still on, which was active at that moment |
| Registry.PondsVanishOnlyAsAsked | crates/latiq-control-plane/src/registry.rs:433-512 | a pond that is gone was dropped by its id or name, or forgotten, as the row read, at a moment when its owner was not both active and reachable |
| Registry.PlacementIsForever | crates/latiq-control-plane/src/registry.rs:144-512 | between any two points of any run a pond's node is the same |
| Registry.NodesAreActiveWhileHeard | crates/latiq-control-plane/src/registry.rs:141-200 | told from the run alone: a node is listed if and only if it registered, under the addresses it gave last, and active if and only if no reaping since its last sign of life found that sign too old |
| Registry.TierIsSetAsAsked | crates/latiq-control-plane/src/registry.rs:412-431 | every pond named is stored at the tier asked for under its canonical name; an unknown tier or pond changes nothing |
| Registry.OwnersAreFound | crates/latiq-control-plane/src/registry.rs:332-400 | `pond_info` and `get_pond_location` fail only if no pond has the reference, and otherwise give the address last registered by the node of placement |
| Registry.RefMeansAtMostTwo | crates/latiq-control-plane/src/registry.rs:501-506 | a reference means at most two ponds |
| Registry.RefsAreExactUnless | crates/latiq-control-plane/src/registry.rs:501-506 | in any table, every reference means at most one pond if and only if no pond is called by another's id |
| Registry.RefsAreExactIfNothingClashes | crates/latiq-control-plane/src/registry.rs:289-311 | in every run, every reference means at most one pond if and only if no creation may use a generated id as another pond's name |
| Registry.DropCanTakeTwo | crates/latiq-control-plane/src/registry.rs:289-311 | from an empty registry, for any two ids and any two nodes: a pond can be named by the other's id, and one drop then removes both |
| Routing.RequestsReachTheOwner | crates/latiq-agent-core/src/ops.rs:397-483 | from any greeter, whatever registry operations run between the hops and whatever addresses nodes advertise, a request that is executed is executed on the node the pond its last lookup returned was placed on |
| Routing.HonestHopsFollowTheRegistry | crates/latiq-agent-core/src/ops.rs:397-483 | with honest nodes, which advertise the address they answer at, and whatever registry operations run between the hops, a request makes at most one hop plus one per lookup that found another owner or address than the lookup before |
| Routing.ForwardingIsBoundedExactly | crates/latiq-agent-core/src/ops.rs:422-483 | with the addresses behind the reference held still, every request makes at most one hop if and only if there is no address, or one and nodes advertise the address they answer at; otherwise some request makes any number of hops |
| Routing.HonestForwardingIsBoundedIfNothingClashes | crates/latiq-agent-core/src/ops.rs:397-483 | for every registry that can come about, every reference and honest nodes, one hop is enough if and only if no creation may clash with an id |
| Routing.AmbiguousReferenceLoops | crates/latiq-agent-core/src/ops.rs:1553-1573 | a registry at rest and honest nodes, in which a request for one reference makes any number of hops |
| Routing.RecreatedPondCostsAHop | crates/latiq-agent-core/src/ops.rs:786-795 | a run with honest nodes that never re-register and no ambiguous reference: a pond dropped and created elsewhere between two hops costs a second hop, counted as a changed lookup |
| Routing.RefusedOnlyIfUnservable | crates/latiq-agent-core/src/ops.rs:418-447 | a greeter refuses a pond if and only if it is not the owner and has no foreign address for it; otherwise the owner, if it answers and finds the same row, executes |
| Routing.UnclusteredNodesServeAll | crates/latiq-agent-core/src/ops.rs:398-407 | a node that is not clustered executes whatever pond it finds, and never forwards |
| CreateSaga.StepKeepsInv | crates/latiq-control-plane/src/control_service.rs:109-254 | every step of every creation, and every other registry operation, keeps the invariant |
| CreateSaga.CreatesAreAllOrNothing | crates/latiq-control-plane/src/control_service.rs:109-254 | success: placed, and a node made real, on its owner, a pond of that id or name; `compensated: true`: no row with that id, then or later; `compensated: false`: the drop itself returned an error, and a row is left only if that was not "no such pond" |
| CreateSaga.AnswersAreTheNodes | crates/latiq-control-plane/src/control_service.rs:245-253 | told from the run's steps: a creation succeeds exactly when its node's call returned, and one whose call failed, or whose answer was lost, fails |
| CreateSaga.UndisturbedCreation | crates/latiq-control-plane/src/control_service.rs:191-254 | from any state, a creation nobody disturbs succeeds with its row in place if its node answers, and otherwise leaves the tables as they were |
| CreateSaga.ReportedAddressIsOfTheRowRead | crates/latiq-control-plane/src/control_service.rs:230-253 | the address a success reports was, when read, the one registered by the node on which the pond whose row was read was placed; and that row was this pond's own unless another pond was called by its id at that moment |
| CreateSaga.SuccessIsTheOwnersExactly | crates/latiq-control-plane/src/control_service.rs:191-254 | every success read its own row, reports its owner's address, and has been made real by that owner: in every run, if and only if no creation may clash with an id |
| CreateSaga.StrangerIsMadeReal | crates/latiq-control-plane/src/control_service.rs:230-249 | a run that succeeds although a pond called by the id was made real instead |
| CreateSaga.CompensationTakesItsOwnExactly | crates/latiq-control-plane/src/control_service.rs:109-118 | a failed creation takes no pond but its own: in every run, if and only if no creation may clash with an id |
| CreateSaga.CompensationTakesStranger | crates/latiq-control-plane/src/control_service.rs:117-118 | a run in which a failed creation removes a second pond |
| CreateSaga.CompensationTakes | crates/latiq-control-plane/src/control_service.rs:109-131 | the ponds recorded as taken are exactly the rows removed; an orphan whose drop found nothing changed nothing |
| CreateSaga.LocateFailsOnlyIfDropped | crates/latiq-control-plane/src/control_service.rs:230-244 | the location read fails if and only if no pond has the id, so only after somebody else removed the row |
| CreateSaga.TheOwnerIsAsked | crates/latiq-control-plane/src/control_service.rs:230-249 | the endpoint asked to materialise is the one registered by the node of placement, unless another pond is called by this id at that moment |
| ExternalAttach.Connection.ExecuteFailing | crates/latiq-engine-duckdb/src/duck_engine.rs:774-806 | the loops that stop at the first failure |
| ExternalAttach.Connection.AttachCatalogInner | crates/latiq-engine-duckdb/src/duck_engine.rs:763-810 | autoinstall off, every LOAD, every secret, then the ATTACH, up to the first failure |
| ExternalAttach.Connection.TeardownCatalog | crates/latiq-engine-duckdb/src/duck_engine.rs:813-817 | executes the whole teardown, whatever fails |
| ExternalAttach.Connection.AttachCatalog | crates/latiq-engine-duckdb/src/duck_engine.rs:746-761 | tears down exactly when attaching failed |
| ExternalAttach.Connection.PullCatalog | crates/latiq-engine-duckdb/src/duck_engine.rs:633-705 | a refused plan touches nothing; any other pull is set up, asked and taken down, and answers success exactly when its query was executed and succeeded |
| ExternalAttach.PullLeavesNoTrace | crates/latiq-engine-duckdb/src/duck_engine.rs:633-817 | for any plan and a failure anywhere, the session afterwards is the one before without the plan's names; so it is unchanged if and only if those were not in use |
| ExternalAttach.QuerySeesTheCatalog | crates/latiq-engine-duckdb/src/duck_engine.rs:763-810 | the query runs only with the catalog newly attached and every secret in place |
| ExternalAttach.PullAnswersForTheQuery | crates/latiq-engine-duckdb/src/duck_engine.rs:649-683 | over the record of executed statements: a pull answers success if and only if its whole setup succeeded and its query was executed, once, and succeeded; the query runs exactly after a whole successful setup, between attachment and detachment, with the catalog attached and every secret in place |
| ExternalAttach.PlansFollowTheirParameters | crates/latiq-engine-duckdb/src/attachers.rs:91-225 | a plan is ready exactly when its type is known and its required parameters are given, and makes exactly the secrets whose credentials are given |
| ExternalAttach.PlansShareNoSecret | crates/latiq-engine-duckdb/src/attachers.rs:91-244 | letter case ignored, a plan makes no secret twice, and plans whose aliases differ in more than letter case share none |

## Left out

- SQL execution by DuckDB and DuckLake: the write bracket is an abstract step that answers success only outside a transaction, a clone succeeds or fails, and a statement changes attachments and secrets only as its kind says. The caller's own query is taken not to attach, detach or make secrets.
- The redactor is specified as what its two functions do, not against DuckDB's grammar: double-quoted identifiers, dollar quotes and exponents mean nothing to it.
- Redaction: the four mutable flags are one value, and each inner loop over the iterator is a method of its own.
- SqlLiterals: lower-casing is ASCII only. No other character lower-cases to one of the letters of the words compared (formats, extensions, tiers), so the answers are those of Unicode lower-casing.
- SqlLiterals.LoadIsRedacted: schema and table names that are not identifiers are not covered; a quote in one would be read by the redactor as opening a literal.
- ReadPool: the retry loop of `checkout_read` and the condition variable are steps of the transition system, not a method; lock poisoning, which the code recovers from, is not modelled, nor is the choice of the pool's size, for which any value is allowed.
- WriterAbort: statements are numbered by a proof record. Caller and watcher threads are step relations rather than a class, because their interleaving is the subject. The writer's other users (`pull_catalog`, `describe_catalog`), which arm no watcher, and panics inside a write are not modelled. Polling intervals are not modelled: a watcher may sleep for any time.
- Jwks: the single-flight world leaves out the key map, which only the guard's holder replaces; `KeyFor` runs one caller to its end. Time is a clock in nanoseconds that never goes back. The counters of fetches and completions do not wrap. A response is a parsed document or a failure; body caps, timeouts and `sanitize_kid` are not modelled.
- InFlight: the storage, engine, lineage and audit calls of `drop_pond` touch neither collection; they are the phases between its steps. `len` and `is_empty` are not modelled. An operation is registered once, under an id never used before.
- Registry: columns that decide nothing (policy, extensions, description, lineage, timestamps, the vestigial pond count) and the tables of datasets, catalogs, policy and audit. Random choice of a node and of an id are parameters, the id never generated before. Checkpoints and storage failures are left out, but for the one `CreateSaga` names. `reap_stale_nodes` is a function without a method, since it is one update statement.
- Routing: the network delivers a dialled request to some node that answers, or to nobody. The audit record of a refusal is not modelled.
- CreateSaga: a materializer is configured. The node's side of the call is one step, for the row its own lookups end at (`Routing`). The request's empty name and tier, which mean none and medium, are taken as already read. Error texts and trace ids are left out.
- ExternalAttach: the SQL text of a plan, of which only the escaping is modelled (`SqlLiterals`). `describe_catalog` has the shape of `pull_catalog` with another query. `DETACH` of what is attached and `DROP SECRET IF EXISTS` are taken to succeed. A session compares names as written, while DuckDB ignores letter case in them: aliases that differ only in letter case share secrets, and are not told apart here except by `PlansShareNoSecret`.
- Traceparent: text is measured in characters and not bytes; text with a character outside ASCII is refused either way.
- FactTemplate: a fact's value is its text; the tables of error kinds and their guidance are not modelled.
- JWT verification, URL parsing, gRPC, MCP and HTTP transports, the client and Python packages, metrics and logging are not part of this model.
