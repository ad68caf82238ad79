/**
 * Discovery: the query that finds documents needing an embedding. The store
 * evaluates the query; the caller supplies whether the search raised and, if
 * not, the order in which the store ranks documents.
 */
module Discovery {
  import opened Documents

  /**
   * A ranking, as a real search produces it, lists every stored document
   * exactly once; the lemmas that need this state it as a precondition.
   */
  datatype SearchOutcome = SearchRaised(message: string) | Ranked(order: seq<DocKey>)

  /** One discovered document: `{'index': ..., 'id': ..., 'source': ...}`. */
  datatype Candidate<V> = Candidate(index: string, id: string, source: Document<V>)

  function Key<V>(c: Candidate<V>): DocKey {
    DocKey(c.index, c.id)
  }

  /** Whether the document at `key` matches the query over indices named by `pattern`. */
  predicate Qualifies<V>(store: map<DocKey, Document<V>>, pattern: string, key: DocKey) {
    key in store && Glob(pattern, key.index) && Eligible(store[key])
  }

  /** The documents matching the query, in ranking order. */
  function Matching<V>(store: map<DocKey, Document<V>>, pattern: string, order: seq<DocKey>): (r: seq<DocKey>)
    ensures |r| <= |order|
    ensures forall k :: k in r <==> k in order && Qualifies(store, pattern, k)
  {
    if |order| == 0 then []
    else if Qualifies(store, pattern, order[0]) then [order[0]] + Matching(store, pattern, order[1..])
    else Matching(store, pattern, order[1..])
  }

  /** The hits the query returns: the first `BatchSize` matching documents. */
  function Hits<V>(store: map<DocKey, Document<V>>, pattern: string, order: seq<DocKey>): (r: seq<DocKey>)
    ensures |r| <= BatchSize
    ensures forall i :: 0 <= i < |r| ==> Qualifies(store, pattern, r[i])
  {
    var m := Matching(store, pattern, order);
    if |m| <= BatchSize then m else m[..BatchSize]
  }

  /** A hit as the discovery loop records it, with the stored document as its source. */
  function ToCandidate<V>(store: map<DocKey, Document<V>>, key: DocKey): Candidate<V>
    requires key in store
  {
    Candidate(key.index, key.id, store[key])
  }

  /** What discovery returns: the hits as candidates, or nothing if the search raised. */
  function Discover<V>(store: map<DocKey, Document<V>>, pattern: string, search: SearchOutcome): (r: seq<Candidate<V>>)
    ensures |r| <= BatchSize
    ensures search.SearchRaised? ==> r == []
    ensures forall c :: c in r ==>
      Key(c) in store && store[Key(c)] == c.source && Eligible(c.source) && Glob(pattern, c.index)
  {
    match search
    case SearchRaised(_) => []
    case Ranked(order) =>
      var hits := Hits(store, pattern, order);
      var r := seq(|hits|, i requires 0 <= i < |hits| => ToCandidate(store, hits[i]));
      assert forall i :: 0 <= i < |r| ==> r[i] == ToCandidate(store, hits[i]);
      r
  }

  /**
   * The cap is the only reason a matching document is left out: when fewer
   * than `BatchSize` documents come back, every matching document is among them.
   */
  lemma DiscoverIsCompleteBelowCap<V>(store: map<DocKey, Document<V>>, pattern: string, order: seq<DocKey>, key: DocKey)
    requires |Discover(store, pattern, Ranked(order))| < BatchSize
    requires key in order && Qualifies(store, pattern, key)
    ensures exists c :: c in Discover(store, pattern, Ranked(order)) && Key(c) == key
  {
  }

  predicate Distinct<T(==)>(s: seq<T>) {
    forall i, j :: 0 <= i < j < |s| ==> s[i] != s[j]
  }

  lemma {:induction false} MatchingDistinct<V>(store: map<DocKey, Document<V>>, pattern: string, order: seq<DocKey>)
    requires Distinct(order)
    ensures Distinct(Matching(store, pattern, order))
  {
    if |order| > 0 {
      var rest := Matching(store, pattern, order[1..]);
      MatchingDistinct(store, pattern, order[1..]);
      assert order[0] !in order[1..] by {
        forall j | 0 <= j < |order[1..]| ensures order[1..][j] != order[0] {
          assert order[1..][j] == order[j + 1];
        }
      }
      assert order[0] !in rest;
    }
  }

  /** A ranking that lists each document once yields a batch that names each document once. */
  lemma DiscoverDistinct<V>(store: map<DocKey, Document<V>>, pattern: string, order: seq<DocKey>)
    requires Distinct(order)
    ensures var r := Discover(store, pattern, Ranked(order));
      forall i, j :: 0 <= i < j < |r| ==> Key(r[i]) != Key(r[j])
  {
    MatchingDistinct(store, pattern, order);
    var m := Matching(store, pattern, order);
    var hits := Hits(store, pattern, order);
    assert forall i :: 0 <= i < |hits| ==> hits[i] == m[i];
  }

  /** A document whose vector is present is never rediscovered, whatever its flag says. */
  lemma EmbeddedNeverDiscovered<V>(store: map<DocKey, Document<V>>, pattern: string, search: SearchOutcome, key: DocKey)
    requires key in store && VectorExists(store[key].textEmbedding)
    ensures forall c :: c in Discover(store, pattern, search) ==> Key(c) != key
  {
  }
}
