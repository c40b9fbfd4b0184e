# Verification model of AEGIS

AEGIS investigates production incidents: signals open incidents, a worker runs an investigation graph of
specialists and a commander, every tool call goes through one gateway, knowledge comes from an indexed
markdown corpus, and a root cause report is generated and checked against its evidence. This project models
the logic of those parts in Dafny and proves what they guarantee over all inputs, runs and interleavings.

`dafny verify dfyconfig.toml` checks everything.

The parts, each a group of modules:

- **Rate limiting** (`RateLimit`, `RateLimitRuns`): the lazy token bucket and the two-key limiter.
- **Circuit breaker and output caps** (`Breaker`, `BreakerRuns`, `Utf8`, `OutputCap`).
- **Policy** (`Policy`, `PolicyVersion`, `PolicyAdmin`, `PolicyRequests`, `PolicyHistory`, with `Ordering`):
  evaluation, the rule table with its change log and cache, and the policy version.
- **Audit** (`Audit`, `AuditChain`, with `Json`): the hash-chained log.
- **Gateway** (`Gateway`, `GatewayAnswers`, `GatewayRuns`, `GatewayBreaker`, `GatewayPolicy`): one call through all of
  the above, and whole runs.
- **Knowledge index** (`Text`, `Cover`, `Windows`, `WindowCover`, `WindowRuns`, `Chunking`,
  `ChunkCover`, `Ingest`, `IngestRuns`, `IngestVectors`, `RankFusion`, `RankFusionOrder`): cutting markdown, incremental
  ingest, rank fusion.
- **Investigation** (`Investigation`, `InvestigationRuns`, `Rca`, `RcaGenerate`, `Synthesis`): the graph as a
  state machine with specialists, clock and model as arbitrary oracles, and the report.
- **Incidents and delivery** (`Incidents`, `Fingerprint`, `IncidentIngest`, `Delivery`, `DeliveryRuns`):
  lifecycle, deduplication, and at-least-once delivery as protocol steps.

Code that changes state in place is a class or a method with loops, tied by its `ensures` to a function of
the old state; the theorems are lemmas about those functions and about runs of them. Clocks, ids, hashes,
embedders, tools and the model are parameters. Seconds, tokens and scores are `real`.

What is asked of hashes is kept small. The audit digest gives 64 characters without white space for any input,
and no two bodies among the finitely many hashed in a statement collide or give the genesis value
(`DigestExists` shows such a digest for any bodies). The policy version asks that the two rule sets compared
do not collide; where it is read from an audit row it is 12 characters without white space (`HexVersionExists`).
Ingest asks for file hashes without collisions (`HashingExists`). Printing
and reading of ids, times and numbers are asked to be inverse (`FaithfulExists`).

## Where the code and its documentation differ

The model follows the code. These differences are theorems:

- The ingest manifest keeps the old hash when embedding fails after the deletes, so a file put back as it was
  is skipped with nothing in the store (`FailedRunHidesLoss`; `SkipRunExact` gives the exact condition for one
  run, `IncrementalExactly` for whole runs with failures).
- Overlap repeats the end of the window before. After a paragraph over the limit it is the carried buffer
  from before that paragraph, emitted once more alone and then joined to what follows
  (`LongParagraphBreaksRuns`; `RunsExactly` says for every text when this happens).
- The output limit is checked in bytes of JSON, but a string is cut in bytes of UTF-8. `CapMeetsJsonLimit` gives
  the exact condition for the cut string to meet the limit; a string below U+0800 that was over it stays over it
  (`NarrowTextStaysOver`, with a string for every limit in `JsonSizeMayExceedLimit`).
- "One incident cannot starve others" holds for one agent and tool whatever their names (`OneToolNeverShares`).
  Two pairs can share a bucket exactly when one key head begins the other (`SharedBuckets`, with an example in
  `IncidentKeyCollision`); behind the gateway that takes two registered tools one of whose names, with a colon,
  begins the other (`GatewayBucketsApart`).
- The audit log is one chain only between drains; what several drains store is not (`DrainsDoNotLink`). A
  call whose fields break a row limit takes its tokens, calls its runner, then raises without a row (`OneRow`).
- A low-confidence answer is turned into a hypothesis only when the incident id is a UUID
  (`LowConfidenceReadsAsHypothesis`).
- A verdict may depend on rule order, exactly when the deciding rules give different verdicts
  (`OrderMattersExactly`), and for an unclassified tool so may the call of its runner (`CallOrderExactly`,
  `TwoRowsDecideCall`); the listing order of the table makes it the same in every process (`ReplicasAgree`).
- A scenario with a bar, or a service with one, is not read back from its fingerprint (`ScenarioReadBack`,
  `BarredServiceHidesScenario`), and bars let different signals share one (`CollisionExactly`).
- The evidence buffer also feeds the report. Rows that a failed run left in it come first, so the next report, of
  whatever incident, may cite them, and with eight of them can cite nothing else (`GroundedExactly`,
  `FailureFeedsNextReport`). A report is sure to cite its own run exactly when nothing waits, and evidence waits
  exactly when a run raised after recording and the process lived on (`EvidenceWaitsExactly`).
- An incident is investigated from scratch once. Another attempt in the same process resumes its thread, with the
  evidence, failed steps and start time of the last (`RetryAfterSynthesis`, `RetryReportsFromWaiting`).
- Runner buffers outlive a rolled-back handler, so its evidence, audit rows and report can be committed with
  another investigation (`FailureLeaksRows`; the exact conditions are `OwnRowsExactly`, `PollLeavesExactly` and,
  over whole runs, `RunOwnsExactly`).

## Model

| member | source | states |
|---|---|---|
| RateLimit.MemoryTokenBucket.TryAcquireAll | src/aegis/application/gateway/rate_limit.py:68-87 | the staged loop and the write-back: the answer and the new buckets are those of `Acquire`; a refusal writes nothing |
| RateLimit.OneTokenEachOrNothing | src/aegis/application/gateway/rate_limit.py:68-87 | a call over distinct keys takes exactly one token from each key, counted at its time, or changes nothing |
| RateLimit.LevelIs | src/aegis/application/gateway/rate_limit.py:75-81 | in numbers: a key never seen has its capacity; a seen one gains capacity/window a second, nothing for a clock that went back, up to its capacity |
| RateLimit.RateLimiter.Check | src/aegis/application/gateway/rate_limit.py:117-135 | the two-key check, with the fail-open and fail-closed answers when the store raises |
| RateLimit.LimiterAnswers | src/aegis/application/gateway/rate_limit.py:117-135 | every answer of the limiter with its reason, and that a refusal takes no token |
| RateLimit.OneToolNeverShares | src/aegis/application/gateway/rate_limit.py:117-120 | for one agent and tool, incidents share a bucket only if they are the same, whatever the names hold, and no incident bucket is an agent bucket |
| RateLimit.SharedBuckets | src/aegis/application/gateway/rate_limit.py:118-119 | two (agent, tool) pairs can meet in one bucket exactly when the key head of one is a prefix of the key head of the other |
| RateLimitRuns.RateBound | src/aegis/application/gateway/rate_limit.py:68-87 | over every run with a non-decreasing clock, grants of a key in [s,t] are at most capacity + (t-s)*(capacity/window) |
| RateLimitRuns.LimiterBound | src/aegis/application/gateway/rate_limit.py:117-135 | the bound holds for the incident key and the agent key at once |
| RateLimitRuns.LazyRefinesEager | src/aegis/application/gateway/rate_limit.py:76-86 | refilling only at a grant decides every call as a bucket does that gains dt*capacity/window at every tick, however time is cut |
| RateLimitRuns.PacedNeverRefused | src/aegis/application/gateway/rate_limit.py:75-83 | callers that space each key by at least window/capacity are never refused |
| Breaker.CircuitBreaker.Allow | src/aegis/application/gateway/limits.py:98-103 | a call is refused exactly while the failures reach the threshold and the outage has not ended |
| Breaker.CircuitBreaker.RecordFailure | src/aegis/application/gateway/limits.py:109-114 | counts one failure and, at the threshold, sets the end of the outage |
| Breaker.RunHardened | src/aegis/application/gateway/limits.py:141-163 | parameter check, breaker, call, capped output: whether the callable is reached, what the breaker becomes, what is answered |
| Breaker.ReplyReads | src/aegis/application/gateway/limits.py:141-182 | what a hardened call answers in each case, in the words of its callers: wrong names, too large parameters, open breaker, refusal or failure of the callable, output that cannot be cut, or the redacted answer |
| BreakerRuns.CountIsSinceSuccess | src/aegis/application/gateway/limits.py:105-114 | over every run the stored count is the number of failed executions since the last success; rejected parameters and refusals are neutral |
| BreakerRuns.ExecutedExactly | src/aegis/application/gateway/limits.py:98-114 | over every run and from the record alone, a call reaches its callable exactly when its parameters are in order and its dependency failed fewer than threshold times since its last success or a cooldown has passed since the last failure ended |
| BreakerRuns.FailureBound | src/aegis/application/gateway/limits.py:98-114 | with no success in [s,t] a dependency suffers at most max(1, threshold) + floor((t-s)/cooldown) failed executions |
| BreakerRuns.RefusalsDoNotProlong | src/aegis/application/gateway/limits.py:142-144 | refused calls never prolong an outage: the first well-formed call after its end goes through |
| BreakerRuns.OpenRefuses | src/aegis/application/gateway/limits.py:98-103 | with the threshold reached since the last success, calls before the recorded end are refused |
| Utf8.RoundTrip | src/aegis/application/gateway/limits.py:229-232 | encoding to UTF-8 (section 3 of RFC 3629) and decoding gives the text back |
| Utf8.CutKeepsLongestPrefix | src/aegis/application/gateway/limits.py:229-232 | encode, cut, decode ignoring errors keeps exactly the code points that fit |
| Utf8.FittingIsLongest | src/aegis/application/gateway/limits.py:229-232 | a prefix fits the byte budget exactly when it is no longer than the kept one |
| OutputCap.TruncatedText | src/aegis/application/gateway/limits.py:229-232 | with the marker the result is at most max(limit, marker) bytes and no longer prefix would do |
| OutputCap.SizeIsLength | src/aegis/application/gateway/limits.py:225-226 | the size of a value is the length of its compact JSON text in ASCII, escapes and surrogate pairs included |
| OutputCap.CapMeetsJsonLimit | src/aegis/application/gateway/limits.py:166-182 | the result of the cap meets the limit in JSON size exactly when it is untouched, a list, or a cut string whose kept characters leave 13 bytes in JSON |
| OutputCap.NarrowTextStaysOver | src/aegis/application/gateway/limits.py:166-182 | a string over the limit without a character at or above U+0800, ASCII included, is over it after the cut as well |
| OutputCap.CapOutput | src/aegis/application/gateway/limits.py:166-182 | a fitting value is untouched, a list keeps its longest fitting prefix, what keeps nothing is denied |
| OutputCap.CapReads | src/aegis/application/gateway/limits.py:166-182 | what the cap returns, measured in JSON text: the value itself, a cut and marked text, the longest beginning of a list, or a refusal |
| OutputCap.MarkerReads | src/aegis/application/gateway/limits.py:229-232 | the marker reads [truncated] |
| OutputCap.CappedIsUnique | src/aegis/application/gateway/limits.py:166-182 | the capped result is determined by the value and the limit |
| Windows.HardSplitText | src/aegis/application/rag/chunking.py:215-232 | the cutting loop ends and returns the stripped non-empty slices |
| Windows.SliceGeometry | src/aegis/application/rag/chunking.py:215-232 | slices are at most the target long, reach the end, move forward, share at most the overlap and skip at most one line feed |
| Windows.SlicesExactly | src/aegis/application/rag/chunking.py:218-231 | each slice but the last ends at the last line feed in its second half, or a target after its start if there is none; the next begins an overlap earlier, but always further on |
| Windows.HardPiecesWithin | src/aegis/application/rag/chunking.py:226-228 | hard pieces are never empty and at most the target long |
| Windows.Emit | src/aegis/application/rag/chunking.py:185-199 | an emitted buffer leaves its longest tail within the overlap, and the running length is its joined length |
| Windows.TakeParagraph | src/aegis/application/rag/chunking.py:201-210 | one turn of packing: what is released, what waits, and the running length equal to the joined length |
| Windows.CarryIsLongest | src/aegis/application/rag/chunking.py:189-199 | what an emit keeps is the longest tail that, joined, fits in the overlap |
| Windows.OverflowMeans | src/aegis/application/rag/chunking.py:206-208 | a paragraph overflows exactly when it and the waiting ones, joined, exceed the target |
| Windows.ShortTextIsWhole | src/aegis/application/rag/chunking.py:174-178 | a blank text has no window, and one within the limit is one window |
| Windows.SplitText | src/aegis/application/rag/chunking.py:167-212 | the whole splitter computes `SplitBySize`, the last filter dropping nothing |
| Windows.WindowSizes | src/aegis/application/rag/chunking.py:167-212 | every window is non-empty and at most max(target, max_chars + overlap + 2) long |
| Windows.ParagraphsStayWhole | src/aegis/application/rag/chunking.py:201-211 | every paragraph within max_chars appears whole in some window |
| WindowCover.HardCovers | src/aegis/application/rag/chunking.py:215-232 | every non-space character of a hard-split text lies in some piece |
| WindowCover.ParagraphsExactly | src/aegis/application/rag/chunking.py:180 | paragraphs are the parts between blank lines, stripped, none blank, no text lost |
| Text.StripExactly | src/aegis/application/rag/chunking.py:174-180 | stripping takes white space off both ends and nothing else |
| WindowCover.WindowsCover | src/aegis/application/rag/chunking.py:167-212 | for every size setting every non-space character lies in some window, and each window holds characters of the text in text order; no order between windows |
| WindowCover.WindowsAreRuns | src/aegis/application/rag/chunking.py:201-211 | with no oversized paragraph every window is a run of neighbouring paragraphs |
| WindowRuns.RunsExactly | src/aegis/application/rag/chunking.py:201-211 | each window is a piece of one long paragraph or joined from waiting paragraphs, and all joined ones join neighbours exactly when no paragraph within limit and overlap is followed, over long ones only and at least one, by one within the limit |
| WindowCover.LongParagraphBreaksRuns | src/aegis/application/rag/chunking.py:202-205 | one such text: the carried paragraph is emitted again alone and then joined across the long one |
| Chunking.ChunkIdInjective | src/aegis/application/rag/chunking.py:107-109 | chunk ids differ whenever path, kind or index differ, whatever the digests |
| Chunking.ChunkIdExactly | src/aegis/application/rag/chunking.py:107-109 | the id as documented: path, kind, number with at least four digits, digest |
| Chunking.ChunkDocument | src/aegis/application/rag/chunking.py:35-86 | the nested loops with their two running counters compute `Document` |
| Chunking.SplitHeadings | src/aegis/application/rag/chunking.py:145-164 | the line loop computes the heading sections |
| ChunkCover.HeadingsKeepText | src/aegis/application/rag/chunking.py:145-164 | sections keep every non-space character of the body, and the fallback section is never needed |
| ChunkCover.SectionsExactly | src/aegis/application/rag/chunking.py:145-164 | each section runs from a heading line, or the first line, to the next, is named after its heading or lead, and holds its lines |
| ChunkCover.NoTextLost | src/aegis/application/rag/chunking.py:35-123 | every non-space character of a document without front matter, or of what follows its front matter, lies in some child chunk, and each chunk holds such characters in their order; no order between chunks |
| ChunkCover.DocumentWellFormed | src/aegis/application/rag/chunking.py:45-85 | chunks carry their path, respect the size limits and have distinct ids; every parent is a window of a section under its heading, and every child follows the parent it names and was cut from |
| ChunkCover.FilesDoNotClash | src/aegis/application/rag/chunking.py:107-109 | chunks of different files never share an id |
| Ingest.SelectionMeaning | src/aegis/application/rag/ingest.py:94-130 | a selection is each named allowed existing file once, and is refused exactly when one is not such a file |
| Ingest.EmbedPairs | src/aegis/application/rag/ingest.py:133-142 | whatever the embedder, each chunk is stored with the vector at its own place in the answer to its own batch of 32 |
| Ingest.EmbedSucceedsExactly | src/aegis/application/rag/ingest.py:135-139 | embedding succeeds exactly when every batch of 32 is answered with as many vectors |
| Ingest.KnowledgeIndex.ProcessFiles | src/aegis/application/rag/ingest.py:61-77 | the loop deletes, cuts and records exactly the files not skipped |
| Ingest.KnowledgeIndex.Ingest | src/aegis/application/rag/ingest.py:40-91 | one ingest: store, manifest and counts for every outcome, errors included |
| IngestRuns.RunRewrites | src/aegis/application/rag/ingest.py:67-82 | a run leaves each processed file with exactly its fresh chunks and every other file as it was |
| IngestRuns.SkipRunExact | src/aegis/application/rag/ingest.py:69-84 | from any sound store and any manifest, a selected file is up to date after a successful skip run exactly when its recorded hash differed or it was up to date before |
| IngestRuns.IncrementalEqualsRebuild | src/aegis/application/rag/ingest.py:55-91 | after any edits and skip runs, a further run leaves each selected file as a rebuild without skipping does, and the others untouched |
| IngestRuns.FullRunEqualsRebuild | src/aegis/application/rag/ingest.py:55-91 | with every file selected the whole store equals a rebuild from nothing |
| IngestVectors.IncrementalDocuments | src/aegis/application/rag/ingest.py:55-91 | with an embedder that works text by text the same holds of whole documents: each selected file has its current chunks, each with the vector of its own text, as after a rebuild |
| IngestVectors.FullRunDocuments | src/aegis/application/rag/ingest.py:55-91 | with every file selected the stored documents, vectors included, are those of a rebuild from nothing |
| IngestVectors.CountsAre | src/aegis/application/rag/ingest.py:85-91 | the counts of an ingest: processed, skipped, chunks and documents written, and what was deleted |
| IngestRuns.RunKeepsTrust | src/aegis/application/rag/ingest.py:59-84 | over every run a recorded hash is the hash of the content whose chunks the store holds |
| IngestRuns.HonestExactly | src/aegis/application/rag/ingest.py:55-91 | over every run, failures included, a recorded hash is honest for a file exactly when no failed run has deleted its non-empty chunks since it was last processed with success |
| IngestRuns.IncrementalExactly | src/aegis/application/rag/ingest.py:55-91 | after any run, failures included, a further successful ingest leaves a selected file up to date exactly when its chunks are not lost or its content is not the recorded one |
| IngestRuns.FailedRunHidesLoss | src/aegis/application/rag/ingest.py:73-84 | the shortest such loss: deletion, failed embedding, the file put back, and the next run skips it with nothing stored |
| RankFusion.MergeHybridRankings | src/aegis/application/rag/retrieve.py:66-99 | the best top_k distinct ids in order, with summed weighted reciprocal ranks and the right text; an error below 1 |
| RankFusion.GivenByRank | src/aegis/application/rag/retrieve.py:70-80 | an id earns weight/(k + rank), ranks from one, where a list names it, and nothing elsewhere |
| RankFusion.ShownIs | src/aegis/application/rag/retrieve.py:74-80 | a fused hit shows its text-ranking hit, or else its first vector-ranking hit |
| Ordering.LessExactly | src/aegis/application/rag/retrieve.py:86-88 | ties are broken in dictionary order of ids |
| RankFusionOrder.FewerIsPrefix | src/aegis/application/rag/retrieve.py:86-88 | the fusion is determined by its inputs, and a smaller top_k gives the first of a larger one |
| RankFusionOrder.LeaderStaysAhead | src/aegis/application/rag/retrieve.py:80-86 | with distinct ids per list, an item ahead in both lists is ahead in the fusion with more score |
| RankFusionOrder.LoneListKeepsOrder | src/aegis/application/rag/retrieve.py:80-88 | an empty list leaves the order of the other unchanged, cut to top_k |
| Policy.EvaluatePolicy | src/aegis/application/policy/evaluate.py:21-68 | the scoring loop and the verdict for every outcome |
| Policy.ScoreIsLexicographic | src/aegis/application/policy/evaluate.py:71-94 | the numeric score orders by tool, then by scope |
| Policy.MatchesExactly | src/aegis/application/policy/evaluate.py:71-94 | which rules speak to a question: class, tool or wildcard, and agent, service or wildcard |
| Policy.PrecedenceExactly | src/aegis/application/policy/evaluate.py:80-94 | which of two is more specific: tool first, then agent, then service |
| Policy.VerdictExactly | src/aegis/application/policy/evaluate.py:38-68 | what a verdict says: a deciding rule, its id, class and reason, or the fixed answers |
| Policy.AllowedMeans | src/aegis/application/policy/evaluate.py:38-68 | allowed exactly when the tool is not destructive, a rule matches and all top-ranked matches allow |
| Policy.OrderDoesNotDecide | src/aegis/application/policy/evaluate.py:53-55 | every permutation of the rules gives the same allow or deny |
| Policy.OrderDoesNotMatter | src/aegis/application/policy/evaluate.py:53-68 | with unique keys and a classified tool the whole verdict ignores the order |
| Policy.OrderMattersExactly | src/aegis/application/policy/evaluate.py:53-68 | every order of the rules gives the same verdict exactly when the tool is destructive or all deciding rules (the top-ranked denials, else all top-ranked rules) give one verdict |
| PolicyVersion.VersionIdentifies | src/aegis/application/policy/version.py:21-36 | the version ignores row order and nothing else, unless the two hashes collide |
| PolicyVersion.RowExactly | src/aegis/application/policy/version.py:23-33 | a row keeps all of a rule but reason, authors and times |
| PolicyAdmin.PolicyDesk.CreateRule | src/aegis/application/policy/manage_rules.py:35-64 | row, log entry and cache after a create, or nothing at all after an error |
| PolicyAdmin.PolicyDesk.UpdateRule | src/aegis/application/policy/manage_rules.py:66-97 | row, log entry and cache after an update, or nothing at all after an error |
| PolicyAdmin.PolicyDesk.DeleteRule | src/aegis/application/policy/manage_rules.py:99-111 | row, log entry and cache after a delete, or nothing at all after an error |
| PolicyRequests.CreateExactly | src/aegis/application/policy/manage_rules.py:35-64 | when a create is invalid or a duplicate, and every field of the row it stores |
| PolicyRequests.ClassesRead | src/aegis/domain/policy/entity.py:53-140 | the four class names, once stripped, and no others |
| PolicyRequests.UpdateExactly | src/aegis/domain/policy/entity.py:53-140 | when an update is refused and why, and every field of the next version: named ones replaced, the others kept |
| PolicyRequests.DeleteExactly | src/aegis/application/policy/manage_rules.py:99-111 | when a delete is refused and that it removes one row |
| PolicyRequests.EntryExactly | src/aegis/application/policy/manage_rules.py:54-110 | the log entry of an accepted request: rule, actor, action, time, and the row before and after |
| PolicyAdmin.PolicyDesk.Publish | src/aegis/application/policy/cache.py:24-29 | the cache holds exactly the table, in listing order, under its version |
| PolicyAdmin.ListingIsUnique | src/aegis/infrastructure/repositories/policy_repository.py:22-29 | a table has one listing by tool, scope and id |
| PolicyHistory.WrittenRule | src/aegis/domain/policy/entity.py:53-140 | an accepted write stores a valid rule under its id, version 1 or one more, with a key nobody else has |
| PolicyHistory.RunIsAccounted | src/aegis/application/policy/manage_rules.py:35-111 | over every run keys stay unique, the added log replays to the current table, each entry states what was there before, and versions count updates |
| PolicyHistory.HistoryHolds | src/aegis/application/policy/manage_rules.py:35-111 | the same from the start of a run, with an empty log |
| PolicyHistory.EveryOperationChangesVersion | src/aegis/application/policy/version.py:1-8 | every accepted operation changes the policy version, whatever the listing order, and a refused one changes nothing |
| PolicyHistory.VersionOfTable | src/aegis/application/policy/version.py:21-36 | two rule sets share a version exactly when their tables have the same rows |
| PolicyHistory.ReplicasAgree | src/aegis/application/policy/cache.py:24-29 | processes caching the same table hold the same rules and version and give the same verdicts |
| PolicyHistory.AnyCopyAgrees | src/aegis/application/policy/evaluate.py:38-68 | for a classified tool even an unordered copy of a sound table gives the same verdict |
| Audit.MemoryAuditRepository.Append | src/aegis/application/audit/memory.py:16-18 | the row is appended, nothing else changes |
| Audit.MemoryAuditRepository.Drain | src/aegis/application/audit/memory.py:44-47 | drain returns every row and leaves an empty log |
| Audit.AppendAudit.Record | src/aegis/application/audit/append_audit.py:28-42 | the recorded row links to the last digest; a draft over a limit leaves the log alone |
| AuditChain.EntryExactly | src/aegis/domain/audit/entity.py:70-157 | every field of a recorded row and its link, and which drafts are refused |
| AuditChain.WordsExactly | src/aegis/domain/audit/entity.py:98-157 | the words for class and verdict that are hashed |
| AuditChain.RowHashInjective | src/aegis/domain/audit/entity.py:46-50 | unless the two hashed bodies collide, equal digests mean equal fields and previous digest, the two fields that may be left out of the payload included |
| AuditChain.RecordingExtends | src/aegis/domain/audit/entity.py:98-157 | recording keeps the chain and is refused exactly when a field breaks its limit |
| AuditChain.SameHeadSameRows | src/aegis/domain/audit/entity.py:46-50 | two chains share their last digest exactly when they are the same rows, unless two of the bodies they hash collide |
| AuditChain.GenesisMarksStart | src/aegis/application/audit/memory.py:32-35 | in a chain only the first row links to genesis, unless a body of it hashes to genesis |
| AuditChain.DrainsDoNotLink | src/aegis/application/audit/memory.py:44-47 | the rows of two drains joined are a chain exactly when one drain is empty |
| AuditChain.DigestExists | src/aegis/domain/audit/entity.py:46-50 | for every set of fewer than 16^64 bodies there is a digest as the chain lemmas ask for |
| Gateway.InvokeTool.Bind | src/aegis/application/gateway/invoke_tool.py:61-71 | a bound gateway carries the canonical identity and the same stores; an unknown identity is refused |
| Gateway.InvokeTool.Invoke | src/aegis/application/gateway/invoke_tool.py:77-102 | one call: outcome, buckets, breakers and audit rows for every path |
| GatewayRuns.CalledMeans | src/aegis/application/gateway/invoke_tool.py:132-226 | a runner is called exactly when every gate is open and both tokens are there, and then takes them |
| GatewayRuns.CalledIsPermitted | src/aegis/application/gateway/invoke_tool.py:185-206 | behind a called runner stands a matching read-class rule that allows and that no more specific rule denies |
| GatewayRuns.RefusalsTouchNothing | src/aegis/application/gateway/invoke_tool.py:146-224 | a call whose runner is not called leaves buckets and breakers as they were |
| GatewayRuns.ClaimsAreIgnored | src/aegis/application/gateway/invoke_tool.py:126-130 | under a bound identity, what the request claims about agent or class changes nothing, audit row included |
| GatewayRuns.OneRow | src/aegis/application/gateway/invoke_tool.py:77-87 | one invoke adds one row exactly when the fields are within limits, else it raises; the row holds the agent, tool, incident, verdict, reason and class of the decision, the redacted parameters, and the result or the redacted reason |
| GatewayRuns.RecordedWhenShort | src/aegis/domain/audit/entity.py:74-93 | for constructed requests only five lengths decide whether the row is recorded |
| GatewayRuns.RunIsAudited | src/aegis/application/gateway/invoke_tool.py:77-102 | over every run the log gains one row a call, in order, each matching its call in all of that, and stays one chain |
| GatewayRuns.RunnersAreRateBound | src/aegis/application/gateway/invoke_tool.py:214-226 | over every gateway run, runner calls stay under capacity + (t-s)*capacity/window for both caps |
| GatewayAnswers.AnsweredExactly | src/aegis/application/gateway/invoke_tool.py:132-256 | the answer to every call: the redacted value, or the reason, of the reply of a called runner; else the reason of the first closed gate, pending exactly for a high-risk write of a known caller with the kill switch off |
| GatewayAnswers.PlainReply | src/aegis/application/gateway/invoke_tool.py:224-226 | a runner that is not hardened replies what its callable does |
| GatewayAnswers.HardenedReply | src/aegis/application/gateway/limits.py:141-182 | the reply of a hardened runner, from the request without its identity claims |
| GatewayPolicy.VersionsTellRules | src/aegis/application/gateway/invoke_tool.py:110-124 | over every run two audit rows carry one policy version exactly when their calls were decided under rules with the same rows, and then the policy allows the same in both, whatever is asked; unless the two version hashes collide |
| GatewayPolicy.SameRowsSameAnswer | src/aegis/application/policy/evaluate.py:38-68 | rule sets with the same rows, whatever their order, reasons and times, allow the same |
| GatewayRuns.GatewayBucketsApart | src/aegis/application/gateway/rate_limit.py:117-120 | calls that reach the limiter meet in one incident bucket exactly for one caller and tool names one of which, with a colon, begins the other; with registered tools apart only for one caller, tool and incident |
| GatewayRuns.ColonFreeToolsAreApart | src/aegis/application/gateway/invoke_tool.py:207-213 | registered names without a colon are apart |
| GatewayRuns.CallOrderExactly | src/aegis/application/gateway/invoke_tool.py:185-206 | row order never decides whether a runner may be called exactly when another gate is closed, the tool is classified, or all deciding rules let it run or none does |
| GatewayRuns.TwoRowsDecideCall | src/aegis/application/gateway/invoke_tool.py:193-200 | two equally specific allows, for reads and for low-risk writes, call the runner of an unclassified tool in one order and refuse it in the other |
| GatewayBreaker.RunnersAreFailureBound | src/aegis/application/gateway/limits.py:141-163 | over every gateway run whose runners do not overlap, a dependency with no success in [s,t] fails at most max(1, threshold) + floor((t-s)/cooldown) times |
| Investigation.DedupeCodeHits | src/aegis/application/investigation/collect.py:468-479 | the seen/unique loop computes `Dedupe` |
| Investigation.DedupeMeaning | src/aegis/application/investigation/collect.py:468-479 | deduplication keeps the first hit of every key, in order, and loses no key |
| Investigation.StartsExactly | src/aegis/application/investigation/plan.py:111-120 | who starts on each scenario |
| Investigation.KindsExactly | src/aegis/application/investigation/plan.py:134-150 | whose evidence an item is |
| Investigation.BeforeColonExactly | src/aegis/application/investigation/plan.py:134-160 | the prefix of an older item is what stands before its first colon |
| Investigation.CollectsExactly | src/aegis/application/investigation/collect.py:194-349 | what each specialist hands back of its hits, and its failure otherwise |
| Investigation.SpecialistsReport | src/aegis/application/investigation/collect.py:194-349 | whatever the tools answer, a specialist returns evidence of its own kind or its own failure, never both or neither |
| InvestigationRuns.AlwaysEnds | src/aegis/application/investigation/plan.py:78-108 | from any hop count the graph reaches synthesize or escalate within the hops left |
| Investigation.IntakeExactly | src/aegis/application/investigation/nodes.py:46-67 | what intake fills in and leaves alone |
| InvestigationRuns.PlanExactly | src/aegis/application/investigation/plan.py:78-108 | every decision of the commander, by hops, clock, evidence kinds and failures |
| Investigation.RoutesExactly | src/aegis/application/investigation/routing.py:21-28 | where each decision leads |
| InvestigationRuns.FreshRun | src/aegis/application/investigation/nodes.py:70-90 | a fresh run: at most two commander visits, each specialist at most once, never max_hops, and its exact ending |
| InvestigationRuns.NewInvestigation | src/aegis/application/investigation/nodes.py:46-67 | the first attempt at an incident, from intake on: synthesize is reached exactly when the clock holds, the scenario has a team and all of it found something |
| InvestigationRuns.SynthesizeIsReady | src/aegis/application/investigation/nodes.py:70-90 | from any state with evidence in dictionary form, later attempts included, synthesize is reached only with such evidence and no reason to escalate |
| InvestigationRuns.RetryAfterSynthesis | src/aegis/application/investigation/run.py:43-62 | an attempt after one that broke in synthesize resumes the thread: it visits nobody and goes straight to synthesize with the first evidence, or escalates once the time since the first began is up |
| InvestigationRuns.PlanIgnoresOrder | src/aegis/application/investigation/plan.py:60-108 | the commander decides the same on states that differ only in merge order |
| InvestigationRuns.RunIgnoresMergeOrder | src/aegis/application/investigation/routing.py:21-28 | a whole run is the same whatever order parallel updates are merged in |
| RcaGenerate.PackFromGraphEvidence | src/aegis/application/investigation/rca.py:147-186 | the loop keeps the first structured items up to the limit |
| RcaGenerate.PackIsNotEmpty | src/aegis/application/investigation/nodes.py:165-179 | from any start with evidence in dictionary form synthesize never meets an empty evidence pack, whatever the recorder kept |
| RcaGenerate.GenerateRca | src/aegis/application/investigation/rca.py:293-347 | at most two model calls; the result by the fate of the two attempts |
| RcaGenerate.AcceptedExactly | src/aegis/application/investigation/rca.py:261-347 | which answers are accepted |
| RcaGenerate.ReportSays | src/aegis/application/investigation/rca.py:393-427 | what the report of an accepted answer says, a hypothesis whenever confidence is below 0.6 |
| RcaGenerate.FromWhichAnswer | src/aegis/application/investigation/rca.py:293-347 | a generation comes from the first accepted of two answers, and its report is that of the answer |
| RcaGenerate.GenerationIsGrounded | src/aegis/application/investigation/rca.py:261-347 | for every model: review needs confidence of at least 0.6 and citations that are non-empty and in the evidence pack; less escalates as hypothesis; two rejections are agent failure |
| RcaGenerate.LowConfidenceReadsAsHypothesis | src/aegis/application/investigation/rca.py:401-406 | a low-confidence result reads as a hypothesis exactly when there is an incident id or the model said so |
| RcaGenerate.HandedReportReadsBack | src/aegis/application/investigation/rca.py:350-390 | what the drain reads back from a generation is the report itself |
| Synthesis.RecordedAreBacked | src/aegis/application/evidence/record_evidence.py:196-203 | every row the recorder keeps over a run stands for evidence the run ends with |
| Synthesis.PackOfRunExactly | src/aegis/application/investigation/nodes.py:164-171 | rows that wait in the recorder come first: the evidence pack holds the evidence of the run alone exactly when none waits, and none of it when eight do |
| Synthesis.WaitingRowIsCited | src/aegis/application/investigation/nodes.py:158-196 | as soon as one row waits, some model sends a report to review that cites it |
| Synthesis.SynthesisIsGrounded | src/aegis/application/investigation/nodes.py:158-196 | with no row waiting, for every model, clock, specialist and recorder: review exactly with enough confidence, agent failure exactly on two rejections, never for want of evidence, and all citations to evidence of that run |
| Synthesis.GroundedExactly | src/aegis/application/investigation/nodes.py:158-196 | with rows waiting the node ends as well, but the citations of every model stay within the run exactly when none waits |
| Synthesis.RetryReportsFromWaiting | src/aegis/application/investigation/nodes.py:164-166 | an attempt after one that broke in synthesize records nothing, and its report is made from the first eight rows that wait |
| Synthesis.OwnersExactly | src/aegis/application/investigation/runner.py:89-93 | the evidence pack of a run holds evidence of its incident alone exactly when no other incident is among the first eight rows that wait |
| Synthesis.FailureFeedsNextReport | src/aegis/application/investigation/runner.py:35-42 | after a handler that began with none waiting, the next report of another incident is made from its own evidence alone exactly unless the run raised with evidence recorded and the process lived on; from eight rows on, from none of it |
| Rca.ReportRoundTrip | src/aegis/domain/rca/entity.py:244-262 | a report survives its dictionary form unchanged |
| Rca.NothingExactly | src/aegis/application/investigation/rca.py:350-366 | when a dictionary holds no report: without id, incident or a citation |
| Rca.DefaultsExactly | src/aegis/application/investigation/rca.py:373-390 | what is assumed for each field left out |
| Rca.TimeExactly | src/aegis/application/investigation/rca.py:368-390 | when a report was made: now, or the time given, a final Z being UTC |
| Rca.TextsAreNeeded | src/aegis/application/investigation/rca.py:373-390 | summary and root cause have no default |
| Rca.TruthyExactly | src/aegis/application/investigation/rca.py:352-366 | what counts as missing: nothing, false, zero and what is empty |
| Rca.MadeReportsAreValid | src/aegis/domain/rca/entity.py:68-115 | what the constructor accepts it accepts again unchanged |
| Rca.MadeExactly | src/aegis/domain/rca/entity.py:68-115 | which reports can be made, and what the constructor makes of them |
| Rca.KeepTextExactly | src/aegis/domain/rca/entity.py:68-115 | blank entries of a list are dropped and the others stripped, each for itself and in order |
| Incidents.Incident.TransitionTo | src/aegis/domain/incidents/entity.py:169-186 | an allowed transition appends its step and moves the state; any other changes nothing |
| Incidents.Incident.StartInvestigation | src/aegis/domain/incidents/entity.py:188-197 | leaves open once and is a no-op afterwards |
| Incidents.TransitionsExactly | src/aegis/domain/incidents/transitions.py:13-28 | the allowed moves: one step on, or closing what is not closed |
| Incidents.PathsRise | src/aegis/domain/incidents/transitions.py:13-28 | ranks rise strictly along a history, so it has at most five steps, none twice |
| Incidents.RunKeepsLaw | src/aegis/domain/incidents/entity.py:159-197 | over every run of operations the history is a path from open to the current state and only grows |
| Incidents.OperationsExactly | src/aegis/domain/incidents/entity.py:159-197 | what each operation changes, and that nothing else does |
| Incidents.IncidentRow.ApplyToOrm | src/aegis/infrastructure/repositories/mappers.py:55-72 | the merge loop: fields copied, only new steps appended |
| Incidents.MergeKeepsSteps | src/aegis/infrastructure/repositories/mappers.py:66-72 | the merge neither drops nor duplicates a step |
| Incidents.SaveStoresIncident | src/aegis/infrastructure/repositories/mappers.py:55-72 | load, any work, save: the row reads back as the incident |
| IncidentIngest.IngestIncidentSignal.Execute | src/aegis/application/incidents/ingest_signal.py:33-64 | lookup or create: what the store becomes and what is published |
| IncidentIngest.SignalExactly | src/aegis/application/incidents/ingest_signal.py:33-64 | every field of a created incident, and what a repeated signal changes: a line of description and the time |
| IncidentIngest.RunKeepsOneOpen | src/aegis/application/incidents/ingest_signal.py:33-64 | over every run at most one open incident exists per fingerprint |
| IncidentIngest.RepeatFindsFirst | src/aegis/application/incidents/ingest_signal.py:45-52 | a second signal under the same fingerprint finds the first incident and touches neither state nor history |
| Fingerprint.ScenarioReadBack | src/aegis/domain/incidents/fingerprint.py:35-42 | for a bar-free service the normalised scenario is read back exactly when it holds no bar |
| Fingerprint.BarredServiceHidesScenario | src/aegis/domain/incidents/fingerprint.py:39-41 | with a bar in the service its second segment is read back instead |
| Fingerprint.ComputeExactly | src/aegis/domain/incidents/fingerprint.py:18-32 | the fingerprint is v1, service, scenario or unspecified, and hour between bars |
| Fingerprint.FingerprintIdentifies | src/aegis/domain/incidents/fingerprint.py:18-32 | bar-free signals share a fingerprint exactly when service, scenario and hour agree |
| Fingerprint.CollisionExactly | src/aegis/domain/incidents/fingerprint.py:18-32 | with bars, signals share a fingerprint exactly when the hours agree and service and scenario agree or differ only in where one ends and the other begins |
| Delivery.Database.RecordOnce | src/aegis/infrastructure/repositories/processed_event_store.py:27-41 | insert or do nothing on the inbox key |
| Delivery.Runner.Start | src/aegis/application/investigation/runner.py:50-81 | a run adds its evidence, audit rows and report to the buffers and replaces the progress; one that raises leaves the progress |
| Delivery.Worker.DrainAll | src/aegis/application/investigation/consume_opened.py:115-118 | evidence, audit, reports, progress drained in that order; a failure to persist leaves the later buffers full |
| Delivery.Worker.Execute | src/aegis/application/investigation/consume_opened.py:66-131 | claim, transition, run, drain and persist: session and all four buffers for every ending |
| Delivery.Worker.HandleOpened | src/aegis/worker/__main__.py:106-133 | one transaction: all of it or none of it |
| Delivery.Worker.PollOnce | src/aegis/infrastructure/messaging/sqs_consumer.py:41-67 | one receive: the copy is counted, and deleted only after its handler committed; a copy received three times is not handed out |
| DeliveryRuns.DeliveryIsSafe | src/aegis/application/investigation/consume_opened.py:83-131 | from any safe world, over every interleaving: one committed investigation per incident across schema versions, inbox keys only for incidents past open, deletion only with the key in the inbox, every copy queued, deleted or a dead letter, and dead letters exactly three times received |
| DeliveryRuns.HandledExactly | src/aegis/application/investigation/consume_opened.py:73-131 | what one transaction does to the tables: nothing, or the claimed key and, for an open incident claimed first, investigating and its one investigation |
| DeliveryRuns.EveryRunIsSafe | src/aegis/worker/__main__.py:75-133 | the same for every run from a world with nothing in it |
| DeliveryRuns.RedeliveryChangesNothing | src/aegis/infrastructure/messaging/sqs_consumer.py:53-67 | a handled message delivered again changes nothing in the tables |
| DeliveryRuns.OwnRowsExactly | src/aegis/application/investigation/consume_opened.py:133-174 | an investigation commits exactly the rows its run recorded if and only if the evidence, audit and report buffers were empty |
| DeliveryRuns.PollLeavesExactly | src/aegis/application/investigation/consume_opened.py:109-118 | handling leaves rows waiting exactly when the runner is reached, the ending keeps some of the rows made back, and the process survives |
| DeliveryRuns.RedriveIsKept | src/aegis/infrastructure/messaging/provision.py:57-67 | moving a copy received three times to the dead letters loses no copy |
| DeliveryRuns.EvidenceWaitsExactly | src/aegis/application/investigation/runner.py:89-93 | evidence waits after a handler that began with none exactly when the run raised with evidence recorded and the process survived |
| DeliveryRuns.RunOwnsExactly | src/aegis/application/investigation/consume_opened.py:109-118 | over every run all committed investigations hold their own rows alone exactly when each began with nothing waiting |
| DeliveryRuns.CleanRunsKeepOwnRows | src/aegis/application/investigation/runner.py:83-111 | as long as no handler that got to the runner keeps rows back in a process that lives on, every investigation commits its own evidence, audit rows, report and progress, and nothing else |
| DeliveryRuns.FailureLeaksRows | src/aegis/application/investigation/consume_opened.py:109-118 | after any failing handler the next investigation, of the same incident or another, commits what it left, all rows of the first incident, and so rows not of its own run exactly when the failure kept rows back; progress never leaks |

## Left out

- Floating point: seconds, tokens, scores and confidence are exact reals.
- Digests: SHA-256 and its cuts to 16 or 12 hexadecimal characters are parameters; collisions are excluded where
  a statement says so.
- Threads: locked sections are atomic, a timeout is one possible ending of a call, and the policy cache is not
  replaced in the middle of one.
- Each use case is one transaction; races between transactions on one row are not modelled.
- Lone surrogates: a text for the byte cap is a sequence of Unicode scalar values.
- Lower-casing covers ASCII letters only.
- Files hold valid UTF-8, and content and text are one: a file that cannot be decoded is not modelled, nor is the
  translation of line endings, which the text goes through and the hash does not.
- Chunk metadata other than role and parent id. For an embedder that answers differently each time stores are
  compared chunk by chunk, since no rebuild would give the same vectors.
- Failed bulk writes, index recreation, runs mixed with and without skipping on one manifest, and the JSON
  file format of the manifest.
- Ingest.KnowledgeIndex.Ingest: embedding failure covers a raise and a wrong number of vectors; other
  exceptions inside the loop are not modelled.
- Delivery: a run is known by how many rows of each kind it records; what a failing persist had written before it
  raised is rolled back and not modelled, nor are the notifications sent meanwhile.
- The token store failing open has no rate bound; `RunnersAreRateBound` is about runs with the store up, and
  `CalledMeans` says what happens otherwise.
- Redaction, directive-line removal, the result envelope, the size and text of parameters, and the shape of a
  result in an audit row are arbitrary functions.
- JSON values of tool results other than strings and lists are known by their size only.
- The schema library's coercion of model answers: an answer is typed, or it is rejected.
- Rca.ReportRoundTrip: printing and reading of UUIDs, times and numbers are assumed to be inverse; reading a
  list field given as a string or dictionary is not modelled.
- The bounded length of database columns other than those the entities check.
- A policy cache published by a transaction whose commit then fails.
- Candidate sizes, retrieve filters, the seed rules, prompts, the fixture model, notification rows, progress
  rows, report markdown, settings, HTTP, MCP, JWT, webhooks, simulator: plumbing or small tables.
