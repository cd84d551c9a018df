# Verified model of the ingestion and question-answering pipeline

The repository ingests row changes from Postgres through Kafka into two stores, OpenSearch
(lexical, and the *version authority*) and Qdrant (vectors), and answers questions from them with
citations. This project models the parts of it in which many steps have to fit together, and
proves what they guarantee, for all inputs and all runs.

**Indexing.** `Protocol` is a step system of the indexer: any number of lanes, each with a log, a
polled and a committed offset, a buffered batch and a place inside `apply`; one shared in-memory
version guard; OpenSearch, Qdrant and the cache generations. A step is one poll, one guard
question, one bulk item, one vector write, one guard commit, one generation bump, one offset
commit, a failure of either store phase, or a crash that loses all memory. `Safety` proves an
inductive invariant of it. From that follow offset safety, `StoreAgreement`, convergence with the
exact set of possible outcomes (`Convergence`), and the invisibility of the guard
(`GuardForward`, `GuardBackward`), which still drops all work it has seen done (`Recall`).
`Divergence` and `Normalizer` prove what does *not* hold, `Fate` and `Agreement` when stores come
apart and find back together, and `Bumps` which writes are followed by a bump of their tenant's
generation.
`Sinks` and `Indexer` hold the same code as classes and loops, with `apply` proved to be the same
as applying every record alone and in order, and every vector point shown to carry its document
field by field.

**Answer caches.** `CacheKey` and `Freshness`: the exact and the semantic answer cache, both scoped
by a per-tenant generation, against the indexer's writes and bumps in any interleaving.
`KeyText` reads the key text character by character and says which requests share one.
`Staleness` says exactly which requests can be answered from before a write, `Ambiguity` what a
request can read off its own key text, and `Disguise` has requests that are.

**Rate limiting.** `RateLimiter`, `RateWindow` and `RateExact`: the per-client token bucket with idle
eviction; the last says from the times of the calls alone which of them are let through.

**Answers.** `Sentences`, `Markers`, `Tokens`, `Extractive`, `Provider`, `Citations`, `Abstention`:
the extractive provider, the lexical faithfulness check and the citation reader, which have to
undo one another on the text of an answer. `Splitting`, `Selection`, `Grading` and `References` say
what these compute by the places in the text: where sentences end, which of them are chosen, which
count as supported, and what is stripped and read back.

**Ranking.** `Fusion`, `Consensus`, `Cosine`, `Mmr`, `Ndcg`, `Rerank`, `Retrieve`, `RetrieveOrder`:
rank fusion, diversification, the ranking metric, the reranker's reply and the pipeline that joins
them, with the order of its documents told by their positions in the fused listing.

## Where the code and its documentation disagree

- *Store consistency.* The design says that driving Qdrant from the set OpenSearch applied keeps
  the two stores consistent. When OpenSearch has answered and the embedding or the vector write
  fails, the retry is refused as stale everywhere and reports success:
  `Divergence.FailedEmbeddingIsNeverRetried`. Two lanes that carry one document at the same time
  can also leave the older vector: `Divergence.OverlappingLanesCanRegress`.
  `Fate.CompleteRunsAgree` says exactly when: unless its last event was taken while another lane
  still had an earlier one on its way, a document ends alike in both stores if and only if no failure
  and no crash hit that event between them. `Agreement.AgreementRestored` shows that one later event
  repairs any earlier difference.
- *Invalidation.* Every applied write is meant to bump its tenant's cache generation. A write whose
  flush a failure or a crash cuts short after OpenSearch took it is not bumped for, and no retry makes
  up for it: `Bumps.TakenWriteIsSettled`, `Bumps.NeverTakenAgain`; the run of
  `Divergence.FailedEmbeddingIsNeverRetried` ends with no generation bumped at all.
- *Deletes.* The database trigger raises the version on UPDATE only, and the normalizer takes a
  delete's version from the before-image, so a delete ties with the last upsert.
  `Normalizer.DeleteOutcomes` is the exact outcome for every row history: the document can stay
  searchable if and only if its last contents had text, and can be gone if and only if they had none
  or were not urgent. So the delete of a row that ends urgent is always lost, that of a row that ends
  on the bulk lane is a race, and it is certain only for a row that was emptied first.
- *Abstentions.* A comment calls them trivially faithful. The code has no such case:
  `Abstention.AbstentionVerdict`.
- *No stale reads.* The design promises none, and says that the tenant in the filters makes the
  exact key per-tenant. Key components are not escaped, so another tenant's request can have the
  same key text. `Staleness.StaleExactly` is the exact condition, for whatever requests can find
  sources: a request of a tenant whose generation read works can be answered from before a write that
  was bumped for if and only if some request of another tenant has its key text and can find sources;
  without a tenant, or when the read fails, its own earlier answers and those in the scope of its
  semantic lookup do it too. `Ambiguity.StaleNeedsAmbiguity` turns the first into something a request
  can check on its own text, `Staleness.PlainRequestsAreSafe` shows that requests without separators
  are never affected, and `Disguise` has affected requests for every pair of tenants and every query.

## Model

| member | source | states |
|---|---|---|
| Contract.Validate | internal/contract/doc.go:59-82 | a document is accepted if and only if it has a source, an id, a version that is not negative, a commit time, a known op and tier and, for an upsert, text to embed |
| Stores.NewestDominates | cmd/indexer/main.go:190-197 | compaction keeps, for every record of a batch, one of that id that is at least as new |
| Stores.NewestIsFirst | cmd/indexer/main.go:190-197 | the survivor is the first record of the highest version of its id: ties keep the earlier one |
| Stores.CompactionIsExact | cmd/indexer/main.go:190-236 | under external versioning, offering the compacted batch leaves the store exactly as offering every record in order |
| Stores.TakenExactly | cmd/indexer/main.go:190-236 | the document taken under an id is the earliest record of the highest version of that id in the batch, and it is taken exactly when the store has none or an older one |
| Safety.StepInv | cmd/indexer/main.go:110-303 | every step of every lane, failures and crashes included, keeps the invariant tying offsets, batches, guard, accepted writes, writes in doubt and both stores together |
| Safety.ReachableInv | cmd/indexer/main.go:110-303 | the invariant holds in every state of every run |
| Drain.GuardDropsOnlyStale | internal/idempotency/guard.go:21-29 | when the guard is below the authority, what it drops is what OpenSearch would refuse |
| Drain.FlushAll | cmd/indexer/main.go:122-136 | from any idle lane a failure-free flush exists, and it leaves OpenSearch as if each buffered record had been put in order, Qdrant with the taken ones, and the offset committed |
| Convergence.OffsetSafety | cmd/indexer/main.go:118-181 | in every run the batch is exactly the valid records between the lane's start and its position, the committed offset is never past the start, and each record below it is covered by OpenSearch or was handed to the DLQ |
| Convergence.GuardBelowAuthority | internal/idempotency/guard.go:21-39 | in every run the guard's version of a document never exceeds OpenSearch's |
| Convergence.StoreAgreement | cmd/indexer/main.go:210-276 | in every run a vector carries a write OpenSearch had accepted and is never newer; for an id whose last event was taken with no earlier one still on its way, both stores hold the same version if and only if no write of the id is in doubt, and then also the same liveness |
| Fate.FateDecides | cmd/indexer/main.go:210-276 | in every run a document is stored as soon as an event of it was taken, and, unless its last event was taken while an earlier one was still on its way, the stores agree on it if and only if the vector of that last event was written |
| Fate.CompleteRunsAgree | cmd/indexer/main.go:244-275 | in every complete run, with the same exception, a stored document ends at one version in both stores if and only if no failure and no crash hit its last event between them |
| Fate.UnhitRuns | cmd/indexer/main.go:244-275 | when nothing hits a write of the document and no two are on their way at once, its last event is neither lost nor the exception |
| Agreement.AgreementRestored | cmd/indexer/main.go:210-276 | however the stores came to differ on a document, one event OpenSearch takes while no other lane has one on its way, followed by its vector write before another is taken, makes them agree in version and liveness |
| Convergence.ConvergesToWinner | cmd/indexer/main.go:185-303 | once everything delivered is flushed, whatever the interleaving, batching, duplicates, failures and restarts, exactly the delivered ids are stored, each at an event of maximum version that is the first of that version on its lane |
| Convergence.OutcomesAreWinners | cmd/indexer/main.go:185-303 | an event is a possible final state of its document if and only if it is such a winner |
| Convergence.OrderIndependence | cmd/indexer/main.go:185-303 | all complete runs end in the same index if and only if no document has two winners |
| Convergence.SameEventsSameIndex | cmd/indexer/main.go:185-303 | when (doc_id, version) identifies one event, two deployments fed the same events, however distributed over lanes and ordered, end in the same index |
| Convergence.AlwaysRecoverable | cmd/indexer/main.go:138-181 | from every reachable state a restart followed by a drain completes: no state is stuck |
| Divergence.FailedEmbeddingIsNeverRetried | cmd/indexer/main.go:244-275 | for every log with anything to index there is a complete run, all offsets committed, that leaves the index full, the vector store empty and no generation bumped |
| Divergence.OverlappingLanesCanRegress | cmd/indexer/main.go:210-276 | for any two versions of a document on two lanes there is a complete run in which OpenSearch ends at the newer and Qdrant at the older |
| Bumps.TakenWriteIsSettled | cmd/indexer/main.go:278-302 | after OpenSearch took a write, in every complete run its flush either bumps the tenant, and then the generation is higher than it was, or Redis does not answer that bump, or a failure or a crash cuts the flush short first |
| Bumps.NeverTakenAgain | cmd/indexer/main.go:210-232 | an event OpenSearch has taken or refused once is refused in every later state of every run, so a debt cut short is never taken up again |
| Bumps.GenerationsCount | internal/cache/cache.go:83-88 | a generation rises by exactly the number of successful bumps of its tenant |
| GuardForward.GuardedIsUnguarded | cmd/indexer/main.go:198-208 | every run with the guard is matched by one without it that has the same stores, generations and committed offsets, and is complete when the first is |
| GuardBackward.UnguardedIsGuarded | cmd/indexer/main.go:198-208 | every run without the guard is matched by one with it that has the same stores, generations and committed offsets, and is complete when the first is |
| GuardBackward.GuardIsTransparent | internal/idempotency/guard.go:21-39 | contents of OpenSearch, Qdrant and the generations, with the committed offsets, are reachable with the guard if and only if they are reachable without it, and final in a complete run if and only if final in one |
| Recall.DoneWorkIsDropped | internal/idempotency/guard.go:21-39 | in every run without a crash, once both stores have answered for an event and its lane has gone on, an event of that document that is not newer is dropped by the guard, on whatever lane it comes |
| Normalizer.DocIdInjective | internal/normalizer/normalizer.go:82-97 | two rows have the same document id only when they are the same row |
| Normalizer.UpsertEvent | internal/normalizer/normalizer.go:46-109 | the upsert of a row's k-th contents is delivered exactly when they have text, k versions above the first, on the lane of their tier |
| Normalizer.DeleteEvent | internal/normalizer/normalizer.go:58-63 | the delete is always delivered, on the fast lane and at the version of the last write |
| Normalizer.RowWinners | deploy/postgres/init.sql:18-30 | for every history of a row routed to the two topics by tier, its events that can be final are the last upsert if it has text, and the delete if that upsert has none or was not urgent |
| Normalizer.DeleteOutcomes | cmd/normalizer/main.go:93-101 | a deleted row can stay searchable if and only if its last contents had text, and can be gone if and only if they had none or were not urgent, over all complete runs |
| Normalizer.DeleteIsCertain | internal/normalizer/normalizer.go:58-63 | a delete takes effect in every complete run if and only if the last contents had no text |
| Normalizer.UrgentDeleteIsLost | internal/normalizer/normalizer.go:58-63 | when the last contents had text and were urgent, whatever the tiers before, every complete run leaves the deleted document searchable at those contents |
| Normalizer.BulkDeleteRaces | deploy/postgres/init.sql:18-30 | when they had text and were not urgent, there are complete runs that end with the document searchable and complete runs that end with it gone |
| Sinks.Guard.ShouldApply | internal/idempotency/guard.go:21-29 | true exactly when the version is newer than the remembered one |
| Sinks.Guard.Commit | internal/idempotency/guard.go:33-39 | the remembered version becomes the maximum, nothing else changes |
| Sinks.OpenSearch.Process | internal/opensearch/opensearch.go:81-91 | the server's part: items taken in order under external versioning, a status for each |
| Sinks.OpenSearch.Bulk | internal/opensearch/opensearch.go:92-156 | fails exactly when the request or an item fails hard; otherwise the reported set is exactly the ids whose stored event changed |
| Sinks.Classify | internal/opensearch/opensearch.go:135-155 | reading the statuses (2xx, 404 on delete, 409, other) recovers exactly the ids the store advanced |
| Sinks.Qdrant.Upsert | internal/qdrant/qdrant.go:55-77 | each point overwrites the one of its id; under the id of each document stands a point with the source, tenant, category, version and text of the last one with that id, and other points stay |
| Sinks.Qdrant.DeleteByDocIds | internal/qdrant/qdrant.go:80-98 | exactly the points whose payload names one of the ids go, the others stay as they were |
| Sinks.Generations.BumpGeneration | internal/cache/cache.go:83-88 | one tenant's counter goes up by one, or nothing happens when Redis fails |
| Indexer.Compact | cmd/indexer/main.go:190-197 | the loop computes the compaction specified by `Newest` |
| Indexer.AskGuard | cmd/indexer/main.go:198-208 | the survivors the guard admits are listed once each, in any map order |
| Indexer.Split | cmd/indexer/main.go:226-240 | the applied documents, and only they, are split into distinct upserts and deletes |
| Indexer.WriteVectors | cmd/indexer/main.go:226-276 | it succeeds if and only if the calls the taken documents need succeed; then the points carry exactly those documents and nothing else changed, and otherwise each point is as it was or carries its document |
| Indexer.Settle | cmd/indexer/main.go:278-296 | the guard remembers the maximum for each applied document, and the changed tenants are exactly theirs |
| Indexer.BumpAll | cmd/indexer/main.go:298-302 | each changed tenant is bumped once, in any order, except where Redis fails |
| Indexer.ApplyEachVectors | cmd/indexer/main.go:190-276 | applying records one at a time leaves the points carrying exactly the compacted documents OpenSearch takes |
| Indexer.Applier.Apply | cmd/indexer/main.go:185-303 | `apply` succeeds if and only if the bulk request and the vector calls of what OpenSearch takes succeed; it then leaves both stores exactly as applying every record of the batch alone and in order, advances the guard by exactly the taken documents and bumps exactly their tenants; a failed one leaves guard and generations alone and the stores part-way; on success each upsert taken has a point that carries its own id, source, tenant, category and version, embedded from title, body, or both with an empty line between |
| Indexer.NoFaultSucceeds | cmd/indexer/main.go:185-303 | with no fault in the environment `apply` succeeds |
| Indexer.RetryCompletes | cmd/indexer/main.go:126-129 | from wherever a failed `apply` left OpenSearch, applying the batch again ends where one successful application would have |
| Indexer.EachRecord | cmd/indexer/main.go:158-173 | the poll loop separates the valid documents from the records for the DLQ, in order |
| Indexer.ValidOnes | cmd/indexer/main.go:158-173 | the documents handed on are exactly the records that decode and validate, each once, in order |
| Indexer.InvalidOnes | cmd/indexer/main.go:158-173 | what goes to the DLQ is exactly the records that do not, each once, in order; so none is lost and none goes both ways |
| Indexer.LaneLoop.OnFetch | cmd/indexer/main.go:138-173 | a fetch extends the batch by the valid records and never touches the committed offset |
| Indexer.LaneLoop.ApplyBatch | cmd/indexer/main.go:126-129 | exactly when `apply` succeeds every valid record polled so far is covered by OpenSearch, and the lane may forget its batch |
| Indexer.LaneLoop.FlushBatch | cmd/indexer/main.go:122-136 | the batch is emptied exactly when it was not empty and `apply` succeeds, the offset moves to the polled position exactly when its commit succeeds too, and otherwise nothing changes; without faults the batch is always flushed |
| CacheKey.Key | internal/cache/cache.go:43-58 | the loop over sorted filter names produces the key text of the request |
| CacheKey.KeyUnique | internal/cache/cache.go:43-58 | the text does not depend on the map's iteration order |
| KeyText.KeyReads | internal/cache/cache.go:43-58 | character by character, the text is g, the generation in decimal, a separator, every character of the query but the white space around it, each lower-cased, and one clause for each filter in order of names |
| KeyText.KeysMeetExactly | internal/cache/cache.go:43-58 | requests without separators share a key if and only if their generations and filters are equal and their queries, white space around them aside, have the same characters up to lower-casing |
| Texts.CoreExists | internal/cache/cache.go:44 | every text has exactly one core: what is left without the white space around it |
| CacheKey.SameGeneration | internal/cache/cache.go:43-58 | equal texts have equal generations, whatever the query and filters contain |
| CacheKey.KeyInjective | internal/cache/cache.go:43-58 | for queries and filters free of the separators equal texts have equal generations, normalised queries and filters |
| CacheKey.SeparatorsMatter | internal/cache/cache.go:43-58 | without that condition keys are not exact: every request with two filters or more has the key text of a request with one |
| CacheKey.TailExists | internal/cache/cache.go:43-58 | every request has a key text |
| CacheKey.SharedFilter | internal/cache/cache.go:43-58 | a request without separators shares its text only with requests that agree on every plain filter, whatever else those contain |
| Freshness.ScopeFilters | cmd/query/main.go:80-89 | the authenticated tenant replaces whatever tenant filter the client sent, other filters stay |
| Freshness.StepInv | cmd/query/main.go:356-439 | every step of requests, writes, bumps, expiries and failed stores keeps the provenance of both caches |
| Freshness.NoStaleReads | cmd/query/main.go:356-439 | in every run, an answer to a tenant whose generation read worked and came after a write's bump, from either cache or afresh, rests on a retrieval that began after that write reached the stores, unless the exact cache handed out an entry another tenant had stored under a bumped generation |
| Staleness.StaleExactly | cmd/query/main.go:356-439 | for every request there is a run that answers it from before a write bumped for earlier if and only if it names no tenant, or one the indexer writes for, and some request that finds sources feeds it: with a tenant and a working generation read, one of another such tenant with the same key text; otherwise any with that text or in the scope of the semantic lookup |
| Staleness.BlindRequestsAreStale | internal/cache/cache.go:61-79 | without a tenant, or with a failed generation read, every request that finds sources has such a run |
| Staleness.PlainRequestsAreSafe | internal/cache/cache.go:43-58 | a request of a tenant whose query and filters contain no separators, and whose generation read works, has none, whatever others ask and whatever is indexed |
| Ambiguity.ForeseenExactly | internal/cache/cache.go:43-58 | a key text is also that of a request of another tenant the indexer knows if and only if that tenant's clause stands in it, with at most one filter before and one after |
| Ambiguity.StaleNeedsAmbiguity | cmd/query/main.go:356-439 | with a tenant and a working generation read, a request whose own key text does not contain another tenant's clause in that way is never answered from before a write |
| Disguise.DisguisedRequestIsStale | cmd/query/main.go:356-365 | for every two tenants and every query, filters on category and title with which the first can be answered from before a write, as soon as a document of the second has the spelled-out category |
| Disguise.DisguisedQueryIsStale | cmd/query/main.go:356-365 | the same with a filter on title alone, as soon as documents of the second answer the spelled-out query |
| RateLimiter.Limiter.Evict | cmd/query/middleware.go:85-91 | exactly the buckets idle for too long are dropped, in any map order |
| RateLimiter.Limiter.Refill | cmd/query/middleware.go:67-72 | tokens accrue with the elapsed time up to the burst |
| RateLimiter.Limiter.Allow | cmd/query/middleware.go:54-82 | the new buckets and the answer are those of the specification `Serve` |
| RateLimiter.EvictionInvisibleExactly | cmd/query/middleware.go:54-91 | over all runs with a monotone clock each key is answered as by a limiter that never evicts and serves only that key, if and only if limiting is off, the burst is below one, or a bucket refills within the idle window |
| RateLimiter.WindowBound | cmd/query/middleware.go:54-82 | while a bucket lives, the calls let through from one call to a later allowed one number at most burst + rps * elapsed, for any clock readings |
| RateWindow.WindowBoundOverRuns | cmd/query/middleware.go:54-91 | with a monotone clock, and a bucket that refills within the idle window, the same bound holds over any window of any run, evictions included |
| RateExact.AllowedExactly | cmd/query/middleware.go:54-91 | in every run with a monotone clock, and a bucket that refills within the idle window, a call is let through if and only if every window of its client that ends with it stays within burst + rps * length: nothing is refused that fits |
| RateExact.RefusalsCostNothing | cmd/query/middleware.go:54-82 | after any number of refused calls, and whatever the clock does while the bucket lives, the next call is let through if and only if the tokens left by the last allowed one and the time since make up one token |
| RateLimiter.SpacedCallerNeverRefused | cmd/query/middleware.go:54-82 | a caller whose calls come at least 1/rps apart is never refused, whoever else calls and whatever is evicted |
| Sentences.SplitPieces | internal/rag/rag.go:60-74 | every sentence the splitter returns is one that splits to itself and stands in the text as a piece of its own |
| Sentences.TitledTextSplits | cmd/query/main.go:309 | a text of the form "Title. Body" never needs the splitter's fallback |
| Sentences.SplitSpread | internal/rag/rag.go:60-74 | sentences spread out by blanks split back into themselves |
| Splitting.SplitExactly | internal/rag/rag.go:60-74 | the sentences are what stands between the consecutive places where a terminator is followed by a blank or the end of the text, spaces before it aside |
| Splitting.SentencesExactly | internal/rag/rag.go:62-74 | where no sentence ends, the whole text without the white space around it is the only one, unless nothing is left |
| Markers.StripPart | internal/rag/faithfulness.go:9 | stripping removes exactly the marker printed behind a sentence |
| Markers.RefsPart | internal/rag/cite.go:5-16 | reading references finds exactly the marker printed behind a sentence |
| References.StripExactly | internal/rag/faithfulness.go:9 | from any text exactly the characters of bracketed references are dropped, all others stay in order |
| References.RefsExactly | internal/rag/cite.go:5-14 | in any text exactly the places where a reference begins are found, in order, each with all its digits |
| Tokens.PieceTokens | internal/rag/rag.go:76-84 | the tokens of a separated piece are tokens of the whole text |
| Tokens.TokenizeExactly | internal/rag/rag.go:76-84 | the tokens are exactly the maximal runs of word characters, lower-cased |
| Tokens.ContentExactly | internal/rag/faithfulness.go:85-93 | content tokens are those that are no stopwords |
| Sorting.StrLessExactly | internal/rag/rag.go:132 | the string order is lexicographic by character |
| Sorting.SortIsStable | internal/rag/rag.go:130-135 | for every strict weak order, sorting is the rearrangement in which an element precedes another if it is less, or if neither is less and it came first |
| Extractive.FaithfulByConstruction | internal/rag/rag.go:96-161 | an answer that does not abstain splits back into exactly the chosen sentences and scores 1 with nothing unsupported |
| Extractive.RetrievedSourcesAreFaithful | internal/rag/faithfulness.go:45-83 | the same for every source of the shape `retrieve` builds |
| Provider.SplitText | internal/rag/rag.go:62-74 | the loop over matches computes the splitter specified by `SplitSentences` |
| Provider.Gather | internal/rag/rag.go:114-126 | the nested loops collect exactly the overlapping sentences, in source order |
| Provider.Select | internal/rag/rag.go:136-148 | the loop takes up to three different texts off the ranking |
| Selection.CandidatesStand | internal/rag/rag.go:112-126 | the candidates are exactly the sentences that share a content token with the query, in source order, each with the number of tokens shared and the identity of its source |
| Selection.ChosenAreBest | internal/rag/rag.go:130-148 | the sentences of the answer descend in the number of tokens shared with the query, ties going by marker and then by place; one that shares a token and is left out repeats the text of one that outranks it, or three outrank it |
| Selection.BestPlacesUnique | internal/rag/rag.go:130-148 | query and sources leave only one such choice |
| Selection.AnswerReads | internal/rag/rag.go:127-160 | the answer prints that choice, each sentence with its bracketed marker; it says that nothing was found exactly when no sentence shares a token with the query |
| Selection.AttachedCitations | internal/rag/rag.go:149-160 | the attached citations are exactly the sources of these sentences, for each marker the first |
| Provider.Generate | internal/rag/rag.go:112-161 | the loops print the best sentences in order, each with its marker, and cite exactly their sources, one per marker, in marker order |
| Provider.Judge | internal/rag/faithfulness.go:57-78 | the loop keeps exactly the unsupported sentences and counts the others |
| Provider.CheckFaithfulness | internal/rag/faithfulness.go:45-83 | the verdict is that of the specification |
| Grading.SupportedExactly | internal/rag/faithfulness.go:61-77 | a sentence is supported if and only if it has no content token or at least three fifths of them occur in one source |
| Grading.VerdictExactly | internal/rag/faithfulness.go:45-83 | for any answer, exactly the sentences without that support are listed, in order, and the score is the share of the others, 1 for an answer without sentences |
| Abstention.AbstentionVerdict | internal/rag/faithfulness.go:45-83 | the abstention text passes if and only if one source contains both of the words "found" and "sources", and scores 0 otherwise |
| Citations.CitationsFrom | internal/rag/cite.go:9-26 | the loops compute the citations specified by `CitationsFromText` |
| References.CitationsExactly | internal/rag/cite.go:9-26 | for any text and sources, one citation for each first mention of a marker some source has, in order of mention, naming the last source with that marker |
| Citations.CitationRoundTrip | internal/rag/cite.go:9-26 | for sources with distinct markers and no reference in their text, the citations read back out of an answer are exactly those attached to it |
| Citations.ReadBackOnce | internal/rag/cite.go:14-24 | no marker is cited twice |
| Fusion.AddList | eval/eval.py:73-75 | the inner loop adds one list's shares to the totals, and fails with a division by zero exactly when a negative k meets a list that is long enough |
| Fusion.Accumulate | eval/eval.py:72-75 | the nested loops leave every id at its reciprocal-rank total, and fail exactly when some list makes them |
| Fusion.RRF | internal/retrieve/fusion.go:20-41 | the output is the listing of all ids, each once with its total, by score descending and id ascending, with k <= 0 read as 60 |
| Fusion.ScoreCounts | internal/retrieve/fusion.go:20-29 | an id in no list scores nothing, and every place it takes, in whichever list, adds the reciprocal of k plus its rank, counted from 1 |
| Fusion.Rrf | eval/eval.py:71-76 | for every k that does not divide by zero, and so every k > 0, the ids of that same ranking |
| Fusion.ListingUnique | internal/retrieve/fusion.go:30-40 | there is only one such listing, so neither the map's iteration order nor the sort's stability shows |
| Fusion.RankingUnordered | internal/retrieve/fusion.go:20-41 | permuting the input lists does not change the output |
| Consensus.ConsensusExactly | internal/retrieve/fusion.go:20-41 | for two duplicate-free lists of at most m ids, an id in both always precedes an id in one if and only if m <= k + 1 |
| Cosine.ComputeSimilarity | internal/retrieve/fusion.go:74-88 | the accumulating loop computes the quotient, 0 for missing, mismatched or null vectors, always within [-1, 1] |
| Cosine.SimilarityExactly | internal/retrieve/fusion.go:74-88 | times the two norms the similarity is the dot product; it is 0 for empty, mismatched or null vectors |
| Cosine.DotFirst | internal/retrieve/fusion.go:78-83 | the dot product is the product of the first components plus that of the rest |
| Cosine.CauchySchwarz | internal/retrieve/fusion.go:74-88 | the square of a dot product is at most the product of the squared norms |
| Mmr.PickBest | internal/retrieve/fusion.go:54-67 | the index chosen is the first whose marginal relevance, cut off at -1e18, is greatest |
| Mmr.MMR | internal/retrieve/fusion.go:46-72 | the selection is the greedy one, of the requested length, and a sub-multiset of the candidates |
| Mmr.EachChoice | internal/retrieve/fusion.go:46-72 | each selected one is worth at least as much as anything left over by the earlier choices, and more than anything left ahead of it, where worth is lambda times relevance less (1 - lambda) times the closeness to the earlier ones; with nothing above -1e18 the first left over is taken |
| Mmr.MaxSimIsCloseness | internal/retrieve/fusion.go:54-63 | closeness is the greatest similarity to an earlier choice, at least 0 |
| Mmr.GreedyUnique | internal/retrieve/fusion.go:46-72 | candidates and length determine the greedy selection |
| Mmr.GapDominance | internal/retrieve/fusion.go:46-72 | when the relevance gap outweighs diversity, all copies of the better candidate have been selected before the worse one is |
| Mmr.GapExactly | internal/retrieve/fusion.go:46-72 | two relevances guarantee that order for all candidates and vectors if and only if lambda * (ra - rb) > 1 - lambda |
| Mmr.PureRelevance | internal/retrieve/fusion.go:46-72 | at lambda 1 the selection is the front of the stable descending sort by relevance cut off at -1e18 |
| Mmr.TopByRelevance | internal/retrieve/fusion.go:46-72 | for relevances above -1e18 it is the front of the stable descending sort by relevance |
| Ndcg.Rearrangement | eval/eval.py:19-20 | no arrangement of 0/1 gains scores more than the hits-first one, and only that one reaches it |
| Ndcg.NdcgExactly | eval/eval.py:19-27 | times what as many leading places are worth, the metric is what the places of the relevant ids in the top k are worth, with Python's reading of a negative k |
| Ndcg.NdcgRange | eval/eval.py:23-27 | for every ranking, relevant set and k, negative ones included, the metric lies in [0, 1], and is 1 if and only if the top k has a hit and no miss ahead of a hit |
| Ndcg.PromotionPays | eval/eval.py:23-27 | exchanging a miss with a hit below it in the top k strictly raises the metric |
| Rerank.Rerank | internal/mlclient/tei.go:45-68 | the loop over the stably sorted reply computes the order and the scores by index |
| Rerank.OrderByScore | internal/mlclient/tei.go:57-67 | the order lists the in-range hits of the reply by descending score, equal scores in reply order |
| Rerank.ScoreGiven | internal/mlclient/tei.go:57-65 | a document named by the reply has the lowest score the reply gives it, one that is not named has 0 |
| Rerank.OrderCount | internal/mlclient/tei.go:57-67 | the order holds every in-range index as often as the reply names it, and no other |
| Rerank.OrderPermutes | internal/mlclient/tei.go:57-67 | when the order has full length it is a permutation if and only if the reply repeats no in-range index |
| Rerank.OrderDescends | internal/mlclient/tei.go:57-67 | unless an index is repeated, the scores read in that order descend |
| Retrieve.TakeIds | cmd/query/main.go:254-260 | the ids passed on are the front of the fused list, at least one of them |
| Retrieve.KeepFetched | cmd/query/main.go:267-275 | the ids with content: those at the places of the list that were fetched, all of them, in the order of the list |
| Retrieve.Reorder | cmd/query/main.go:281-291 | the reranker's order when it is complete, the fused order otherwise; always within range |
| Retrieve.Assemble | cmd/query/main.go:295-311 | at most topK sources, numbered from doc_1, with the text "Title. Body" |
| Retrieve.FromContent | cmd/query/main.go:267-312 | once the content is there, the sources are those of the fetched ids in the final order, at most topK |
| Retrieve.Retrieve | cmd/query/main.go:249-313 | it errs exactly when there are ids and the content fetch fails, and otherwise returns the ranked sources |
| Retrieve.RetrievesDistinctDocs | cmd/query/main.go:249-313 | unless a complete reply repeats an index, no document is returned twice |
| Retrieve.DistinctExactly | cmd/query/main.go:249-313 | when nothing is cut off, if and only if |
| Retrieve.SourceOrigin | cmd/query/main.go:295-311 | each source is a fetched document of the fused front, carries the marker of its rank, and its rank is below topK |
| RetrieveOrder.FallbackKeepsFusedOrder | cmd/query/main.go:249-313 | without a complete reply the sources are the documents at the fetched places of the fused front, none passed over, in the order of the listing, numbered from doc_1, as many as asked for or as there are |
| RetrieveOrder.FallbackByScore | cmd/query/main.go:249-313 | of two such sources the earlier has the higher fused score, or the same and the lesser id |
| RetrieveOrder.RerankedOrder | cmd/query/main.go:249-313 | with a complete reply they follow its in-range hits by descending score, a hit naming a fetched document by its number in the fused order |
| Retrieve.RerankedByScore | cmd/query/main.go:281-311 | with a complete reply that repeats nothing they come by descending rerank score |
| Retrieve.MarkersDiffer | cmd/query/main.go:443-445 | markers of different ranks differ and are recognised as markers |
| Retrieve.RetrievedAnswersAreFaithful | cmd/query/main.go:249-313 | from any replies of the stores and the reranker, an answer that does not abstain is faithful and its citations read back, as long as no retrieved text mentions a marker |

## Left out

- Network behaviour of Kafka, Redis, OpenSearch, Qdrant and the ML services: a reply is a parameter, and failures are choices of the environment.
- JSON, HTTP handlers, authentication, configuration, tracing, metrics and health checks.
- The normalizer's poll loop (cmd/normalizer/main.go): of it only the routing by tier is modelled; the logs begin at the lane topics, so no delivery guarantee spans it.
- Consumer-group rebalancing and partitions: a lane is one log with one offset. A crash restarts all lanes together.
- The shutdown flush (cmd/indexer/main.go:146-149): its context is cancelled, so it is a stop without effect.
- The flush thresholds (256 records, the flush interval): a lane may flush at any moment, which covers them.
- OpenSearch's later removal of tombstones, and loss of Redis data.
- 64-bit integers: versions are only compared, generations only incremented.
- SHA-1 and UUID collisions: the cache key is its text before hashing, and a point id is an injective function of the document id.
- Floating-point rounding: scores, tokens and times are reals; the square root is any function with its defining property, the logarithmic discount any positive strictly decreasing one.
- The vector itself and the name of the embedding model: a point is its payload (document id, source, tenant, category, version) and the text that was embedded.
- The relevance score inside a citation.
- Unicode beyond what the patterns see: lower-casing is a parameter of the cache key, with the one fact that only '|' lower-cases to '|'.
- LLM providers and the LLM faithfulness judge, embeddings, and the quality of approximate search. Which queries the semantic cache takes for one another, and which requests find sources at all, are parameters of the model; a semantic hit may return any matching entry of its scope.
- Equality of a cached answer with a recomputed one: the exact key ignores top_k and the semantic cache ignores filters, so only freshness is claimed.
- The Python service's reranker, whose order the pipeline trusts without a range check.
- The load generator's limiter (cmd/loadgen/main.go:249-281): a simpler form of the token bucket.
- MRR and recall (eval/eval.py): one-line metrics.
- Convergence.StoreAgreement: for an id whose last event was taken while another lane still had an earlier one on its way, only that the vector is never newer, until a later event is taken alone.
- RateLimiter.WindowBound: speaks of one life of a bucket, for any clock; `RateWindow.WindowBoundOverRuns` has the windows across evictions, for a monotone clock.
