/**
 * The partial updates the backfill sends to the store, and the commit rule:
 * a success write, and if it fails, a best-effort write marking the failure.
 */
module Gateway {
  import opened Wrappers
  import opened Documents

  /**
   * How one update call ends: acknowledged; raised before the store applied
   * the update; or raised although the store applied it (a client-side timeout
   * after the store had written the document, say).
   */
  datatype WriteOutcome = Acked | WriteRaised(message: string) | AppliedThenRaised(message: string) {
    /** Whether the store applied the update, provided the document exists. */
    predicate Applied() {
      !WriteRaised?
    }
  }

  /** The message of the error a partial update of a missing document raises. */
  const DocumentMissing: string := "document_missing_exception"

  /** The two partial documents the backfill writes. */
  datatype Patch<V> =
    | Completion(vector: seq<V>, model: string, at: string)
    | FailureMark(error: string, at: string)

  /**
   * A partial update: the fields the patch names are overwritten, the rest kept.
   * Either patch clears the flag and sets a status; neither touches the content.
   */
  function Patched<V>(d: Document<V>, p: Patch<V>): (r: Document<V>)
    ensures !r.needsEmbedding && r.status.Some? && !Eligible(r)
    ensures r.searchableContent == d.searchableContent
    ensures r.status == Some(Completed) <==> p.Completion?
  {
    match p
    case Completion(vector, model, at) =>
      d.(textEmbedding := Some(vector), needsEmbedding := false, generatedAt := Some(at),
         modelUsed := Some(model), status := Some(Completed))
    case FailureMark(error, at) =>
      d.(needsEmbedding := false, status := Some(Failed), error := Some(error), failedAt := Some(at))
  }

  /** Whether an update of `key` reaches the document: it exists and the store applied the update. */
  predicate Lands<V>(store: map<DocKey, Document<V>>, key: DocKey, outcome: WriteOutcome) {
    key in store && outcome.Applied()
  }

  /**
   * The error an update call raises, if any: the call returns normally exactly
   * when it is acknowledged and the document exists.
   */
  function WriteError<V>(store: map<DocKey, Document<V>>, key: DocKey, outcome: WriteOutcome): (r: Option<string>)
    ensures r.None? <==> key in store && outcome.Acked?
    ensures outcome.WriteRaised? || outcome.AppliedThenRaised? ==> r == Some(outcome.message)
  {
    match outcome
    case WriteRaised(message) => Some(message)
    case AppliedThenRaised(message) => Some(message)
    case Acked => if key in store then None else Some(DocumentMissing)
  }

  /** The effect of one update call on the store: only the target changes, and only if the update lands. */
  function Written<V>(store: map<DocKey, Document<V>>, key: DocKey, p: Patch<V>, outcome: WriteOutcome)
    : (r: map<DocKey, Document<V>>)
    ensures r.Keys == store.Keys
    ensures forall k :: k in store && k != key ==> r[k] == store[k]
    ensures key in store ==> r[key] == if outcome.Applied() then Patched(store[key], p) else store[key]
  {
    if Lands(store, key, outcome) then store[key := Patched(store[key], p)] else store
  }

  /**
   * The store after committing `vector` to `key`: the success write, and if it
   * raised, the fallback carrying its error; an error of the fallback is swallowed.
   * A commit never adds or removes a document and changes no document but the target.
   */
  function Commit<V>(store: map<DocKey, Document<V>>, key: DocKey, vector: seq<V>, model: string,
                     write: WriteOutcome, fallback: WriteOutcome, clock: string): (r: map<DocKey, Document<V>>)
    ensures r.Keys == store.Keys
    ensures forall k :: k in store && k != key ==> r[k] == store[k]
  {
    var afterWrite := Written(store, key, Completion(vector, model, clock), write);
    match WriteError(store, key, write)
    case None => afterWrite
    case Some(e) => Written(afterWrite, key, FailureMark(e, clock), fallback)
  }

  /** What a commit does to its target depends only on the target's stored state. */
  lemma CommitDependsOnlyOnTarget<V>(store: map<DocKey, Document<V>>, other: map<DocKey, Document<V>>, key: DocKey,
                                     vector: seq<V>, model: string, write: WriteOutcome, fallback: WriteOutcome, clock: string)
    requires key in store && key in other && store[key] == other[key]
    ensures Commit(store, key, vector, model, write, fallback, clock)[key]
         == Commit(other, key, vector, model, write, fallback, clock)[key]
  {
  }

  /**
   * A successful write stores the vector, clears the flag, marks the document
   * completed and records the model; its content and error fields are kept.
   */
  lemma CommitSucceeds<V>(store: map<DocKey, Document<V>>, key: DocKey, vector: seq<V>, model: string,
                          fallback: WriteOutcome, clock: string)
    requires key in store
    ensures var d := Commit(store, key, vector, model, Acked, fallback, clock)[key];
      && d.textEmbedding == Some(vector) && !d.needsEmbedding && d.status == Some(Completed)
      && d.modelUsed == Some(model) && d.generatedAt == Some(clock)
      && d.searchableContent == store[key].searchableContent
      && d.error == store[key].error && d.failedAt == store[key].failedAt
  {
  }

  /**
   * When the success write raises before being applied and the fallback lands,
   * only the flag, the status, the error and the failure time change.
   */
  lemma CommitFallsBack<V>(store: map<DocKey, Document<V>>, key: DocKey, vector: seq<V>, model: string,
                           message: string, fallback: WriteOutcome, clock: string)
    requires key in store && fallback.Applied()
    ensures var d := Commit(store, key, vector, model, WriteRaised(message), fallback, clock)[key];
      d == store[key].(needsEmbedding := false, status := Some(Failed), error := Some(message), failedAt := Some(clock))
  {
  }

  /**
   * When the success write was applied but its call raised anyway, the vector
   * and the completion fields are stored; a fallback that lands then marks the
   * document failed on top of them, and one that does not leaves it completed.
   */
  lemma CommitAfterAppliedWriteRaised<V>(store: map<DocKey, Document<V>>, key: DocKey, vector: seq<V>, model: string,
                                         message: string, fallback: WriteOutcome, clock: string)
    requires key in store
    ensures Commit(store, key, vector, model, AppliedThenRaised(message), fallback, clock)[key]
         == store[key].(textEmbedding := Some(vector), needsEmbedding := false, generatedAt := Some(clock),
                        modelUsed := Some(model),
                        status := Some(if fallback.Applied() then Failed else Completed),
                        error := if fallback.Applied() then Some(message) else store[key].error,
                        failedAt := if fallback.Applied() then Some(clock) else store[key].failedAt)
  {
  }

  /** When neither write lands (a missing document included), the store is unchanged and no error is returned. */
  lemma CommitSwallowsDoubleFailure<V>(store: map<DocKey, Document<V>>, key: DocKey, vector: seq<V>, model: string,
                                       write: WriteOutcome, fallback: WriteOutcome, clock: string)
    requires !Lands(store, key, write) && !Lands(store, key, fallback)
    ensures Commit(store, key, vector, model, write, fallback, clock) == store
  {
  }

  /**
   * Unless neither write lands, a commit takes the document out of the eligible
   * set for good: the flag is cleared and a status set. The vector is stored iff
   * the success write landed, and the status is `completed` iff it landed and no
   * fallback landed after it.
   */
  lemma CommitEndsEligibility<V>(store: map<DocKey, Document<V>>, key: DocKey, vector: seq<V>, model: string,
                                 write: WriteOutcome, fallback: WriteOutcome, clock: string)
    requires key in store
    requires write.Applied() || fallback.Applied()
    ensures var d := Commit(store, key, vector, model, write, fallback, clock)[key];
      && !d.needsEmbedding && !Eligible(d) && d.status.Some?
      && (write.Applied() ==> d.textEmbedding == Some(vector))
      && (!write.Applied() ==> d.textEmbedding == store[key].textEmbedding)
      && (d.status == Some(Completed) <==> write.Acked? || (write.AppliedThenRaised? && !fallback.Applied()))
  {
  }
}
