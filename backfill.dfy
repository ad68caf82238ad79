/**
 * One processing pass, as functions of the store, the batch and the outcomes
 * of the calls made for each batch position.
 */
module Backfill {
  import opened Wrappers
  import opened Documents
  import opened Discovery
  import opened Embedding
  import opened Gateway

  /** The outcomes of the calls a pass makes for one batch position. */
  datatype DocOutcomes<V> = DocOutcomes(
    reply: ProviderReply<V>,  // the embedding call
    write: WriteOutcome,      // the success write
    fallback: WriteOutcome,   // the failure-marking write
    clock: string             // the timestamp either write records
  )

  /** The candidate's content, the empty string when the field is absent. */
  function Content<V>(c: Candidate<V>): (r: string)
    ensures c.source.searchableContent.None? ==> r == ""
    ensures c.source.searchableContent.Some? ==> r == c.source.searchableContent.value
  {
    c.source.searchableContent.GetOr("")
  }

  /**
   * The vector a pass commits for `c`: none when the content is empty, or when
   * the embedding call gives `None` or an empty vector.
   */
  function CommitVector<V>(c: Candidate<V>, o: DocOutcomes<V>, dims: nat): (r: Option<seq<V>>)
    ensures r.Some? <==>
      |Content(c)| > 0 && o.reply.Answered? && |o.reply.data| > 0 && |o.reply.data[0]| > 0
    ensures r.Some? ==> r.value == o.reply.data[0]
  {
    if |Content(c)| == 0 then None
    else
      var e := GenerateEmbedding(o.reply, dims);
      if e.Some? && |e.value| > 0 then e else None
  }

  predicate Commits<V>(c: Candidate<V>, o: DocOutcomes<V>, dims: nat) {
    CommitVector(c, o, dims).Some?
  }

  /**
   * The store after the pass has handled candidate `c`: unchanged unless a
   * commit is attempted, and then changed at most at the candidate's document.
   */
  function Step<V>(store: map<DocKey, Document<V>>, c: Candidate<V>, o: DocOutcomes<V>, model: string, dims: nat)
    : (r: map<DocKey, Document<V>>)
    ensures !Commits(c, o, dims) ==> r == store
    ensures r.Keys == store.Keys
    ensures forall k :: k in store && k != Key(c) ==> r[k] == store[k]
  {
    match CommitVector(c, o, dims)
    case None => store
    case Some(v) => Commit(store, Key(c), v, model, o.write, o.fallback, o.clock)
  }

  /** The store after the first `n` candidates of the batch. */
  function StoreAfter<V>(store: map<DocKey, Document<V>>, batch: seq<Candidate<V>>, outcomes: nat -> DocOutcomes<V>,
                         n: nat, model: string, dims: nat): (r: map<DocKey, Document<V>>)
    requires n <= |batch|
    ensures r.Keys == store.Keys
  {
    if n == 0 then store
    else Step(StoreAfter(store, batch, outcomes, n - 1, model, dims), batch[n - 1], outcomes(n - 1), model, dims)
  }

  /** The `processed` counter after the first `n` candidates. */
  function ProcessedAfter<V>(batch: seq<Candidate<V>>, outcomes: nat -> DocOutcomes<V>, n: nat, dims: nat): (r: nat)
    requires n <= |batch|
    ensures r <= n
  {
    if n == 0 then 0
    else ProcessedAfter(batch, outcomes, n - 1, dims) + (if Commits(batch[n - 1], outcomes(n - 1), dims) then 1 else 0)
  }

  /** The number of positions below `n` at which `f` holds. */
  function CountBelow(f: nat -> bool, n: nat): nat {
    if n == 0 then 0 else CountBelow(f, n - 1) + (if f(n - 1) then 1 else 0)
  }

  lemma {:induction false} CountBelowIsSetSize(f: nat -> bool, n: nat)
    ensures CountBelow(f, n) == |set k: nat | k < n && f(k)|
  {
    if n > 0 {
      CountBelowIsSetSize(f, n - 1);
      var prev := set k: nat | k < n - 1 && f(k);
      var cur := set k: nat | k < n && f(k);
      if f(n - 1) {
        assert cur == prev + {n - 1};
      } else {
        assert cur == prev;
      }
    }
  }

  lemma {:induction false} ProcessedIsCountBelow<V>(batch: seq<Candidate<V>>, outcomes: nat -> DocOutcomes<V>, n: nat, dims: nat,
                                                  f: nat -> bool)
    requires n <= |batch|
    requires forall k :: 0 <= k < n ==> f(k) == Commits(batch[k], outcomes(k), dims)
    ensures ProcessedAfter(batch, outcomes, n, dims) == CountBelow(f, n)
  {
    if n > 0 {
      ProcessedIsCountBelow(batch, outcomes, n - 1, dims, f);
    }
  }

  /**
   * The counter is the number of positions at which a commit was attempted,
   * i.e. with non-empty content and a non-empty vector.
   */
  lemma ProcessedCountsCommitAttempts<V>(batch: seq<Candidate<V>>, outcomes: nat -> DocOutcomes<V>, n: nat, dims: nat)
    requires n <= |batch|
    ensures ProcessedAfter(batch, outcomes, n, dims)
         == |set k | 0 <= k < n && Commits(batch[k], outcomes(k), dims)|
  {
    var f := (k: nat) => k < |batch| && Commits(batch[k], outcomes(k), dims);
    ProcessedIsCountBelow(batch, outcomes, n, dims, f);
    CountBelowIsSetSize(f, n);
    assert (set k: nat | k < n && f(k)) == (set k | 0 <= k < n && Commits(batch[k], outcomes(k), dims));
  }

  /** The counter does not depend on whether any write was acknowledged. */
  lemma {:induction false} ProcessedIgnoresWrites<V>(batch: seq<Candidate<V>>, outcomes: nat -> DocOutcomes<V>,
                                                   others: nat -> DocOutcomes<V>, n: nat, dims: nat)
    requires n <= |batch|
    requires forall k :: 0 <= k < n ==> outcomes(k).reply == others(k).reply
    ensures ProcessedAfter(batch, outcomes, n, dims) == ProcessedAfter(batch, others, n, dims)
  {
    if n > 0 {
      ProcessedIgnoresWrites(batch, outcomes, others, n - 1, dims);
      assert outcomes(n - 1).reply == others(n - 1).reply;
    }
  }

  /**
   * A document that no position in `lo..hi` commits to is the same after the
   * `hi`-th candidate as after the `lo`-th.
   */
  lemma {:induction false} UntouchedBetween<V>(store: map<DocKey, Document<V>>, batch: seq<Candidate<V>>,
                                             outcomes: nat -> DocOutcomes<V>, lo: nat, hi: nat,
                                             model: string, dims: nat, key: DocKey)
    requires lo <= hi <= |batch|
    requires forall k :: lo <= k < hi && Key(batch[k]) == key ==> !Commits(batch[k], outcomes(k), dims)
    requires key in store
    ensures StoreAfter(store, batch, outcomes, hi, model, dims)[key]
         == StoreAfter(store, batch, outcomes, lo, model, dims)[key]
  {
    if lo < hi {
      UntouchedBetween(store, batch, outcomes, lo, hi - 1, model, dims, key);
    }
  }

  /**
   * A document the pass never commits to (it is outside the batch, or every
   * occurrence was skipped for empty content or a failed embedding) is unchanged.
   */
  lemma UncommittedDocumentUnchanged<V>(store: map<DocKey, Document<V>>, batch: seq<Candidate<V>>,
                                        outcomes: nat -> DocOutcomes<V>, model: string, dims: nat, key: DocKey)
    requires forall k :: 0 <= k < |batch| && Key(batch[k]) == key ==> !Commits(batch[k], outcomes(k), dims)
    requires key in store
    ensures StoreAfter(store, batch, outcomes, |batch|, model, dims)[key] == store[key]
  {
    UntouchedBetween(store, batch, outcomes, 0, |batch|, model, dims, key);
  }

  /**
   * A document that appears once in the batch and is committed ends as a
   * single commit of its stored state would leave it.
   */
  lemma CommittedDocumentOutcome<V>(store: map<DocKey, Document<V>>, batch: seq<Candidate<V>>,
                                    outcomes: nat -> DocOutcomes<V>, model: string, dims: nat, j: nat)
    requires j < |batch| && Key(batch[j]) in store
    requires forall k :: 0 <= k < |batch| && k != j ==> Key(batch[k]) != Key(batch[j])
    requires Commits(batch[j], outcomes(j), dims)
    ensures var o := outcomes(j);
      StoreAfter(store, batch, outcomes, |batch|, model, dims)[Key(batch[j])]
      == Commit(store, Key(batch[j]), CommitVector(batch[j], o, dims).value, model, o.write, o.fallback, o.clock)[Key(batch[j])]
  {
    var key, o := Key(batch[j]), outcomes(j);
    var v := CommitVector(batch[j], o, dims).value;
    UntouchedBetween(store, batch, outcomes, 0, j, model, dims, key);
    var before := StoreAfter(store, batch, outcomes, j, model, dims);
    assert StoreAfter(store, batch, outcomes, j + 1, model, dims) == Step(before, batch[j], o, model, dims);
    assert Step(before, batch[j], o, model, dims) == Commit(before, key, v, model, o.write, o.fallback, o.clock);
    CommitDependsOnlyOnTarget(before, store, key, v, model, o.write, o.fallback, o.clock);
    UntouchedBetween(store, batch, outcomes, j + 1, |batch|, model, dims, key);
  }

  /** A pass whose discovery found nothing, the search having raised included, changes nothing and counts zero. */
  lemma EmptyBatchPassIsNoop<V>(store: map<DocKey, Document<V>>, search: SearchOutcome,
                                outcomes: nat -> DocOutcomes<V>, model: string, dims: nat)
    requires |Discover(store, DefaultIndexPattern, search)| == 0
    ensures var batch := Discover(store, DefaultIndexPattern, search);
      StoreAfter(store, batch, outcomes, |batch|, model, dims) == store
      && ProcessedAfter(batch, outcomes, |batch|, dims) == 0
  {
  }

  /** The count of a pass is at most its batch length, which is at most the cap. */
  lemma PassCountBounds<V>(store: map<DocKey, Document<V>>, search: SearchOutcome,
                           outcomes: nat -> DocOutcomes<V>, dims: nat)
    ensures var batch := Discover(store, DefaultIndexPattern, search);
      ProcessedAfter(batch, outcomes, |batch|, dims) <= |batch| <= BatchSize
  {
  }

  /**
   * Over a batch discovered from a ranking that lists each document once, a
   * skipped document is left exactly as it was, and so stays eligible for the next pass.
   */
  lemma SkippedDocumentStaysEligible<V>(store: map<DocKey, Document<V>>, order: seq<DocKey>,
                                        outcomes: nat -> DocOutcomes<V>, model: string, dims: nat, j: nat)
    requires Distinct(order)
    requires var batch := Discover(store, DefaultIndexPattern, Ranked(order));
      j < |batch| && !Commits(batch[j], outcomes(j), dims)
    ensures var batch := Discover(store, DefaultIndexPattern, Ranked(order));
      var after := StoreAfter(store, batch, outcomes, |batch|, model, dims);
      after[Key(batch[j])] == store[Key(batch[j])] && Eligible(after[Key(batch[j])])
  {
    var batch := Discover(store, DefaultIndexPattern, Ranked(order));
    assert batch[j] in batch;
    DiscoverDistinct(store, DefaultIndexPattern, order);
    UncommittedDocumentUnchanged(store, batch, outcomes, model, dims, Key(batch[j]));
  }

  /**
   * Over such a batch, a committed document whose success or fallback write was
   * acknowledged leaves the eligible set, and no later discovery returns it.
   */
  lemma CommittedDocumentLeavesEligibleSet<V>(store: map<DocKey, Document<V>>, order: seq<DocKey>,
                                              outcomes: nat -> DocOutcomes<V>, model: string, dims: nat, j: nat,
                                              later: SearchOutcome)
    requires Distinct(order)
    requires var batch := Discover(store, DefaultIndexPattern, Ranked(order));
      j < |batch| && Commits(batch[j], outcomes(j), dims)
    requires outcomes(j).write.Applied() || outcomes(j).fallback.Applied()
    ensures var batch := Discover(store, DefaultIndexPattern, Ranked(order));
      var after := StoreAfter(store, batch, outcomes, |batch|, model, dims);
      && !after[Key(batch[j])].needsEmbedding
      && after[Key(batch[j])].status.Some?
      && forall c :: c in Discover(after, DefaultIndexPattern, later) ==> Key(c) != Key(batch[j])
  {
    var batch := Discover(store, DefaultIndexPattern, Ranked(order));
    var key := Key(batch[j]);
    var o := outcomes(j);
    assert batch[j] in batch;
    DiscoverDistinct(store, DefaultIndexPattern, order);
    CommittedDocumentOutcome(store, batch, outcomes, model, dims, j);
    CommitEndsEligibility(store, key, CommitVector(batch[j], o, dims).value, model, o.write, o.fallback, o.clock);
  }
}
