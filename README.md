# Embedding backfill processor — a Dafny model

This project models the core of `openai_embedding_processor.py`, a worker that
backfills vector embeddings for documents in an Elasticsearch index. Each pass
finds up to ten documents flagged `needs_embedding` that have `searchable_content`
and no `text_embedding`. For each one it asks the OpenAI embedding API for a vector
and writes it back with a partial update marking the document `completed`. If that
write fails, it writes a `failed` marker instead. A continuous mode repeats passes
until interrupted.

The index is a `map` from `DocKey(index, id)` to a `Document<V>` record. `V` is the
vector element type, left opaque. Every external outcome is an input supplied by the caller:

- whether the search raised, and the order the store ranks documents in (`SearchOutcome`); a ranking lists every stored document exactly once, as a real search does, and the lemmas that rely on this require it (`Discovery.Distinct`);
- the provider's reply for each batch position (`ProviderReply`);
- how each of the two update calls ends (`WriteOutcome`): acknowledged, raised before the store applied it, or raised although the store applied it (a client-side timeout, say);
- the timestamp string the writes record.

Modules, one per component:

- `Wrappers`: `Option`.
- `Documents`: the document record, the discovery filter `Eligible`, and index-pattern matching `Glob`.
- `Discovery`: the query's result as a function of the store and the ranking (`Matching`, `Hits`, `Discover`).
- `Embedding`: `GenerateEmbedding` and the dimension warning.
- `Gateway`: the two partial updates and the commit-with-fallback rule `Commit`.
- `Backfill`: one pass as functions of the batch (`StoreAfter`, `ProcessedAfter`) and the lemmas about a pass.
- `Processor`: the class `EmbeddingProcessor`. It holds the index in a `store` field, and its methods update that field in place. The discovery loop, the update calls and the pass loop are methods proved against the functions above.
- `Scheduler`: the continuous loop as a method over a finite sequence of iteration events, with its fold `Run`.

## Model

| member | source | states |
|---|---|---|
| Documents.VectorExists | openai_embedding_processor.py:81-83 | the store treats a vector field as present iff it is set and non-empty, as an `exists` query does |
| Documents.Eligible | openai_embedding_processor.py:77-83 | the discovery filter; an eligible document has no vector or an empty one |
| Documents.Glob | openai_embedding_processor.py:71 | index-pattern matching with `*`; a pattern without `*` selects exactly the index of that name |
| Documents.PrefixPatternMatches | openai_embedding_processor.py:71 | an index pattern `prefix*` selects exactly the index names starting with `prefix` |
| Documents.DefaultPatternSelects | openai_embedding_processor.py:71 | the default pattern `reconciliation-*` selects exactly the indices whose name starts with `reconciliation-` |
| Discovery.Matching | openai_embedding_processor.py:74-85 | a key is among the matches iff it is in the ranking, is stored, lies in an index the pattern selects and passes the filter (flag set, content present, no vector) |
| Discovery.Hits | openai_embedding_processor.py:86-89 | the query returns at most 10 hits, each of which matches the query |
| Discovery.Discover | openai_embedding_processor.py:71-103 | at most 10 candidates; every candidate has its flag set, has content, has no vector, lies in a selected index and carries the stored document; a search that raises gives the empty list |
| Discovery.DiscoverIsCompleteBelowCap | openai_embedding_processor.py:74-89 | when fewer than 10 candidates come back, every matching document in the ranking is among them |
| Discovery.DiscoverDistinct | openai_embedding_processor.py:89-97 | a ranking that lists each document once gives a batch that names each document once |
| Discovery.EmbeddedNeverDiscovered | openai_embedding_processor.py:81-83 | a document that already has a vector is never returned, whatever its `needs_embedding` flag says |
| Embedding.GenerateEmbedding | openai_embedding_processor.py:105-123 | returns the first data item's vector unchanged; it is `None` exactly when the call raised or the reply has no data item to read |
| Embedding.DimensionWarning | openai_embedding_processor.py:116-117 | the dimension warning is logged exactly for a vector that is returned and whose length is not the expected one |
| Embedding.MismatchIsOnlyAWarning | openai_embedding_processor.py:115-119 | when the vector's length differs from the expected dimensionality, the warning is logged and the same vector is still returned, whatever dimensionality was expected |
| Gateway.Patched | openai_embedding_processor.py:128-160 | either partial document clears the flag, sets a status (`completed` iff it is the success patch), takes the document out of the eligible set and keeps its content |
| Gateway.WriteError | openai_embedding_processor.py:138-150 | an update call returns normally exactly when it is acknowledged on an existing document; otherwise it raises with the call's message |
| Gateway.Written | openai_embedding_processor.py:138-142 | one update changes only its target, and only when the store applied it to an existing document |
| Gateway.Commit | openai_embedding_processor.py:125-163 | success write, then on its error the fallback carrying that error; a commit never adds or removes a document and changes no document but the target |
| Gateway.CommitDependsOnlyOnTarget | openai_embedding_processor.py:138-161 | what a commit does to its target depends only on the target's stored state, since both writes are partial updates addressed by index and id |
| Gateway.CommitSucceeds | openai_embedding_processor.py:128-142 | an acknowledged success write stores the vector, clears the flag, sets status `completed`, records the model and the time, and keeps the content, error and failure-time fields |
| Gateway.CommitFallsBack | openai_embedding_processor.py:146-161 | when the success write raises before being applied and the fallback lands, the document differs only in the flag (false), status `failed`, the first write's error message and the failure time |
| Gateway.CommitAfterAppliedWriteRaised | openai_embedding_processor.py:138-161 | when the success write was applied but its call raised, the document is its old record with the success patch applied and, if the fallback lands, the failure patch on top (status `failed`, that error, the failure time); no other field changes |
| Gateway.CommitSwallowsDoubleFailure | openai_embedding_processor.py:146-163 | when neither write lands (a missing document included) the store is unchanged, and no error is returned |
| Gateway.CommitEndsEligibility | openai_embedding_processor.py:128-161 | when either write lands, the document ends with the flag cleared, a status set, and out of the eligible set; the vector is stored iff the success write landed, and the status is `completed` iff that write was acknowledged, or was applied and no fallback landed |
| Backfill.Content | openai_embedding_processor.py:180 | the content read from a candidate: the field's value, or the empty string when it is absent |
| Backfill.CommitVector | openai_embedding_processor.py:180-199 | a pass commits a vector for a candidate iff its content is non-empty and the provider answered with a non-empty first vector, and the vector committed is that one |
| Backfill.Step | openai_embedding_processor.py:180-199 | handling one candidate leaves the store unchanged unless a commit is attempted, and otherwise changes at most the candidate's document |
| Backfill.StoreAfter | openai_embedding_processor.py:178-199 | processing candidates never adds or removes documents from the store |
| Backfill.ProcessedAfter | openai_embedding_processor.py:177-199 | the counter never exceeds the number of candidates handled |
| Backfill.ProcessedCountsCommitAttempts | openai_embedding_processor.py:192-199 | the counter equals the number of batch positions with non-empty content and a non-empty vector |
| Backfill.ProcessedIgnoresWrites | openai_embedding_processor.py:194-199 | the counter is the same whatever the write outcomes, so a document whose both writes failed is still counted |
| Backfill.UntouchedBetween | openai_embedding_processor.py:178-201 | a document that no position in a stretch of the batch commits to is unchanged across that stretch |
| Backfill.UncommittedDocumentUnchanged | openai_embedding_processor.py:180-201 | a document outside the batch, or one skipped for empty content or a missing or empty vector, is left exactly as it was |
| Backfill.CommittedDocumentOutcome | openai_embedding_processor.py:192-199 | a document that appears once in the batch and is committed ends as a single commit of its stored state would leave it |
| Backfill.EmptyBatchPassIsNoop | openai_embedding_processor.py:169-173 | a pass whose discovery found nothing, a raising search included, changes nothing and returns 0 |
| Backfill.PassCountBounds | openai_embedding_processor.py:169-210 | the count a pass returns is at most its batch length, which is at most 10 |
| Backfill.SkippedDocumentStaysEligible | openai_embedding_processor.py:180-201 | a skipped document is left unchanged and stays eligible for the next pass |
| Backfill.CommittedDocumentLeavesEligibleSet | openai_embedding_processor.py:192-199 | a committed document whose success or fallback write landed ends with the flag cleared and a status set, and no discovery of the resulting store returns it |
| Processor.EmbeddingProcessor.constructor | openai_embedding_processor.py:26-45 | the processor starts over the given index with the given model and expected dimensionality |
| Processor.EmbeddingProcessor.GetDocumentsNeedingEmbeddings | openai_embedding_processor.py:71-103 | the append loop returns exactly `Discover` of the current store, and changes nothing |
| Processor.EmbeddingProcessor.Update | openai_embedding_processor.py:138-142 | one partial update: the new store is `Written` of the old one and the error raised is `WriteError` |
| Processor.EmbeddingProcessor.UpdateDocumentWithEmbedding | openai_embedding_processor.py:125-163 | the new store is `Commit` of the old one: success write, else fallback marking, else unchanged, and it never raises |
| Processor.EmbeddingProcessor.ProcessDocument | openai_embedding_processor.py:179-204 | the loop body for one candidate: the new store is one `Step` of the old one, and the candidate is counted iff a commit was attempted |
| Processor.EmbeddingProcessor.ProcessPendingEmbeddings | openai_embedding_processor.py:165-210 | over the batch discovered with the default pattern, the new store is `StoreAfter` the whole batch and the result is `ProcessedAfter` it |
| Scheduler.Next | openai_embedding_processor.py:216-225 | one iteration leaves the loop exactly on an interrupt or a raise in the handler's sleep, by an exception exactly in the latter two cases, and counts every iteration but a clean interrupt as a pass or a failure |
| Scheduler.Run | openai_embedding_processor.py:216-225 | a stopped loop reaches no further event, and its counters never go down |
| Scheduler.FirstStop | openai_embedding_processor.py:216-225 | the position of the first stopping event: no event before it stops the loop, and the event there does |
| Scheduler.RunContinuous | openai_embedding_processor.py:212-225 | the loop's final state is the fold `Run` of the events from a fresh running state |
| Scheduler.RunStopsOnlyOnStoppingEvent | openai_embedding_processor.py:216-225 | the loop is left iff an interrupt arrives or the handler's sleep raises, after one iteration per earlier event; it is left by an exception iff the stopping event arose in the handler's sleep |
| Scheduler.FailuresDoNotStopTheLoop | openai_embedding_processor.py:216-225 | with no stopping event the loop keeps running, counting every completed pass and every pass that raised |

## Behaviour worth noting

- A document whose embedding was generated is counted as processed even when both of its writes failed. `update_document_with_embedding` never raises, so `processed += 1` always runs after it (`Backfill.ProcessedIgnoresWrites`).
- A vector whose length differs from the expected dimensionality is still written: the processor does not enforce the length. An index mapping with fixed dimensions may reject the write, which the model covers as a write that raises, followed by the fallback.
- An interrupt that arrives during the fallback write is swallowed by its bare `except` (openai_embedding_processor.py:162-163), so the pass and the loop carry on (`Scheduler.PassEvent`).
- The continuous loop can end without an interrupt. With a negative interval, `time.sleep` raises after the first pass, and the handler's own `time.sleep` raises again. That second error is raised inside the `except` clause, so it escapes the loop (`CrashedInBackoff`).
- A success write that the store applied but whose call still raised is followed by the fallback. The document then holds the vector and status `failed` (`Gateway.CommitAfterAppliedWriteRaised`).
- A failed or empty embedding leaves the document untouched and eligible, so it is retried on every pass.
- An empty `text_embedding` array does not satisfy an Elasticsearch `exists` query. Such a document is therefore still discovered (`Documents.VectorExists`). An empty `searchable_content` string does satisfy it, which is why the pass checks for empty content itself.

## Left out

- Reading configuration from the environment, building the Elasticsearch and OpenAI clients, and the start-up connection checks that exit the process: startup plumbing. The model and the expected dimensionality are constructor arguments; the defaults are the constants `DefaultModel` and `DefaultDims`.
- `main` and its argument parsing, including the choice between one pass and continuous mode: entry-point plumbing.
- Logging, the 0.5-second rate-limit sleep and the poll-interval sleep: wall-clock effects with no checkable logic. `Embedding.DimensionWarning` says when the dimension warning would be logged.
- Timestamps: `time.strftime` is an opaque string supplied per document, and both writes for one document record the same value.
- Elasticsearch query execution: the query's result is the filter and the cap of 10 applied to a ranking the caller supplies. Index patterns are modelled with `*` wildcards only; comma lists and exclusions are not.
- The OpenAI call: its reply is supplied. The numbers in a vector are opaque; only its length and emptiness matter.
- Discovery.Discover: documents are assumed to have a string `searchable_content` or none at all. Python's truthiness of other field types is not modelled.
- The per-document `except Exception` in the pass: nothing in the modelled loop body can raise, so that handler is never reached in the model.
- Scheduler.RunContinuous: each loop iteration is an abstract event. The store changes made by the passes in continuous mode are not composed into the loop; a single pass is modelled by `ProcessPendingEmbeddings`. The infinite `while True` becomes a finite event sequence.
- Other writers to the index between discovery and update, and concurrency in general: the source runs strictly sequentially and does no locking.
- Backfill.CommittedDocumentLeavesEligibleSet: "no discovery returns it" is about a search that sees every landed write. Elasticsearch search is near-real-time, so a search issued before the index refreshes may still return the document; refresh timing is not modelled.
