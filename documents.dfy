/**
 * The projection of a search-index document that the embedding backfill reads
 * and writes, the discovery filter, and index-name patterns.
 */
module Documents {
  import opened Wrappers

  /** The number of hits a discovery query asks for (`"size": 10`). */
  const BatchSize: nat := 10

  /** The index pattern the pass searches by default, `reconciliation-*`. */
  const DefaultIndexPrefix: string := "reconciliation-"
  const DefaultIndexPattern: string := DefaultIndexPrefix + "*"

  /** A document is addressed by the concrete index it lives in and its id. */
  datatype DocKey = DocKey(index: string, id: string)

  datatype Status = Completed | Failed

  /**
   * The fields of a document that the backfill touches. `V` is the element
   * type of an embedding vector; only lengths and emptiness matter here.
   */
  datatype Document<V> = Document(
    needsEmbedding: bool,
    searchableContent: Option<string>,
    textEmbedding: Option<seq<V>>,
    status: Option<Status>,       // embedding_status
    error: Option<string>,        // embedding_error
    modelUsed: Option<string>,    // embedding_model_used
    generatedAt: Option<string>,  // embedding_generated_at
    failedAt: Option<string>      // embedding_failed_at
  )

  /**
   * Whether the store considers a vector field present: a missing field and an
   * empty array both fail an `exists` query.
   */
  predicate VectorExists<V>(e: Option<seq<V>>)
    ensures VectorExists(e) <==> e != None && e != Some([])
  {
    e.Some? && |e.value| > 0
  }

  /**
   * The discovery filter: `needs_embedding` is true, `searchable_content`
   * exists (an empty string does exist) and `text_embedding` does not.
   */
  predicate Eligible<V>(d: Document<V>)
    ensures Eligible(d) ==> d.textEmbedding == None || d.textEmbedding == Some([])
  {
    d.needsEmbedding && d.searchableContent.Some? && !VectorExists(d.textEmbedding)
  }

  /**
   * Index-name pattern matching where `*` stands for any run of characters; a
   * pattern without `*` selects exactly the index of that name.
   */
  predicate Glob(pattern: string, name: string)
    ensures '*' !in pattern ==> (Glob(pattern, name) <==> name == pattern)
    decreases |pattern| + |name|
  {
    if |pattern| == 0 then |name| == 0
    else if pattern[0] == '*' then Glob(pattern[1..], name) || (|name| > 0 && Glob(pattern, name[1..]))
    else |name| > 0 && name[0] == pattern[0] && Glob(pattern[1..], name[1..])
  }

  lemma {:induction false} StarMatchesEverything(name: string)
    ensures Glob("*", name)
  {
    if |name| > 0 {
      StarMatchesEverything(name[1..]);
    }
  }

  /** A pattern `prefix*` selects exactly the names that start with `prefix`. */
  lemma {:induction false} PrefixPatternMatches(prefix: string, name: string)
    requires '*' !in prefix
    ensures Glob(prefix + "*", name) <==> |prefix| <= |name| && name[..|prefix|] == prefix
  {
    if |prefix| == 0 {
      assert prefix + "*" == "*";
      StarMatchesEverything(name);
    } else {
      var p := prefix + "*";
      assert p[0] == prefix[0] && p[0] != '*';
      assert p[1..] == prefix[1..] + "*";
      if |name| > 0 {
        PrefixPatternMatches(prefix[1..], name[1..]);
        if |prefix| <= |name| {
          assert name[..|prefix|] == [name[0]] + name[1..][..|prefix| - 1];
          assert prefix == [prefix[0]] + prefix[1..];
        }
      }
    }
  }

  /** The default pattern selects the indices named `reconciliation-...`. */
  lemma DefaultPatternSelects(index: string)
    ensures Glob(DefaultIndexPattern, index)
        <==> |DefaultIndexPrefix| <= |index| && index[..|DefaultIndexPrefix|] == DefaultIndexPrefix
  {
    PrefixPatternMatches(DefaultIndexPrefix, index);
  }
}
