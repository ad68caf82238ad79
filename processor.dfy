/**
 * The processor object: it owns a view of the search index as a map from
 * document address to document, and runs discovery, commits and passes against it.
 */
module Processor {
  import opened Wrappers
  import opened Documents
  import opened Discovery
  import opened Embedding
  import opened Gateway
  import opened Backfill

  class EmbeddingProcessor<V> {
    /** The search index, updated in place by the processor's writes. */
    var store: map<DocKey, Document<V>>
    /** The embedding model requested and recorded on completed documents. */
    const model: string
    /** The vector length the provider is expected to return. */
    const dims: nat

    constructor (initial: map<DocKey, Document<V>>, model: string, dims: nat)
      ensures store == initial && this.model == model && this.dims == dims
    {
      store := initial;
      this.model := model;
      this.dims := dims;
    }

    /**
     * Runs the discovery query over the indices `pattern` names and records each
     * hit; a search that raises gives the empty list.
     */
    method GetDocumentsNeedingEmbeddings(pattern: string, search: SearchOutcome) returns (documents: seq<Candidate<V>>)
      ensures documents == Discover(store, pattern, search)
    {
      match search
      case SearchRaised(_) =>
        documents := [];
      case Ranked(order) =>
        var hits := Hits(store, pattern, order);
        documents := [];
        for i := 0 to |hits|
          invariant |documents| == i
          invariant forall k :: 0 <= k < i ==> documents[k] == ToCandidate(store, hits[k])
        {
          documents := documents + [Candidate(hits[i].index, hits[i].id, store[hits[i]])];
        }
    }

    /**
     * One partial-update call: it applies `patch` to the document if the update
     * lands, and raises unless it was acknowledged on an existing document.
     */
    method Update(key: DocKey, patch: Patch<V>, outcome: WriteOutcome) returns (raised: Option<string>)
      modifies this
      ensures raised == WriteError(old(store), key, outcome)
      ensures store == Written(old(store), key, patch, outcome)
    {
      match outcome
      case WriteRaised(message) =>
        raised := Some(message);
      case AppliedThenRaised(message) =>
        if key in store {
          store := store[key := Patched(store[key], patch)];
        }
        raised := Some(message);
      case Acked =>
        if key in store {
          store := store[key := Patched(store[key], patch)];
          raised := None;
        } else {
          raised := Some(DocumentMissing);
        }
    }

    /**
     * Writes the vector and the completion fields; if that write raises, marks
     * the document failed with that error, and if that raises too, gives up silently.
     */
    method UpdateDocumentWithEmbedding(docIndex: string, docId: string, embedding: seq<V>,
                                       write: WriteOutcome, fallback: WriteOutcome, clock: string)
      modifies this
      ensures store == Commit(old(store), DocKey(docIndex, docId), embedding, model, write, fallback, clock)
    {
      var key := DocKey(docIndex, docId);
      var raised := Update(key, Completion(embedding, model, clock), write);
      if raised.Some? {
        var ignored := Update(key, FailureMark(raised.value, clock), fallback);
      }
    }

    /**
     * The body of the pass loop for one candidate: skip it if its content is
     * empty, otherwise embed it and, if the vector is non-empty, commit it.
     * `counted` says whether the pass counts it.
     */
    method ProcessDocument(doc: Candidate<V>, o: DocOutcomes<V>) returns (counted: bool)
      modifies this
      ensures store == Step(old(store), doc, o, model, dims)
      ensures counted == Commits(doc, o, dims)
    {
      var content := doc.source.searchableContent.GetOr("");
      if |content| == 0 {
        return false;
      }
      var embedding := GenerateEmbedding(o.reply, dims);
      if embedding.Some? && |embedding.value| > 0 {
        UpdateDocumentWithEmbedding(doc.index, doc.id, embedding.value, o.write, o.fallback, o.clock);
        counted := true;
      } else {
        counted := false;
      }
    }

    /**
     * One pass over the default indices: discover a batch, and for each
     * candidate with content whose embedding is non-empty, commit it and count it.
     */
    method ProcessPendingEmbeddings(search: SearchOutcome, outcomes: nat -> DocOutcomes<V>) returns (processed: nat)
      modifies this
      ensures var batch := Discover(old(store), DefaultIndexPattern, search);
        && store == StoreAfter(old(store), batch, outcomes, |batch|, model, dims)
        && processed == ProcessedAfter(batch, outcomes, |batch|, dims)
    {
      var documents := GetDocumentsNeedingEmbeddings(DefaultIndexPattern, search);
      if |documents| == 0 {
        return 0;
      }
      processed := 0;
      var i := 0;
      while i < |documents|
        invariant 0 <= i <= |documents|
        invariant store == StoreAfter(old(store), documents, outcomes, i, model, dims)
        invariant processed == ProcessedAfter(documents, outcomes, i, dims)
      {
        var counted := ProcessDocument(documents[i], outcomes(i));
        if counted {
          processed := processed + 1;
        }
        i := i + 1;
      }
    }
  }
}
