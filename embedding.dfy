/**
 * The embedding call. The provider's answer is supplied by the caller: either
 * the call raised, or it answered with a list of data items, each carrying a vector.
 */
module Embedding {
  import opened Wrappers

  /** The model asked for when none is configured. */
  const DefaultModel: string := "text-embedding-3-small"

  /** The dimensionality expected when none is configured. */
  const DefaultDims: nat := 1536

  datatype ProviderReply<V> = ProviderRaised(message: string) | Answered(data: seq<seq<V>>)

  /**
   * The vector of the first data item, or `None` when the call raised or the
   * answer has no data item to read it from. `dims` is only compared for a warning.
   */
  function GenerateEmbedding<V>(reply: ProviderReply<V>, dims: nat): (r: Option<seq<V>>)
    ensures r.None? <==> reply.ProviderRaised? || |reply.data| == 0
    ensures r.Some? ==> r.value == reply.data[0]
  {
    match reply
    case ProviderRaised(_) => None
    case Answered(data) => if |data| == 0 then None else Some(data[0])
  }

  /**
   * Whether the unexpected-dimensions warning is logged: only for a vector that
   * is returned, and whose length is not the expected one.
   */
  predicate DimensionWarning<V>(reply: ProviderReply<V>, dims: nat)
    ensures DimensionWarning(reply, dims) <==>
      GenerateEmbedding(reply, dims).Some? && |GenerateEmbedding(reply, dims).value| != dims
  {
    reply.Answered? && |reply.data| > 0 && |reply.data[0]| != dims
  }

  /**
   * A length mismatch is only a warning: the vector is still returned, the same
   * one whatever dimensionality was expected.
   */
  lemma MismatchIsOnlyAWarning<V>(reply: ProviderReply<V>, dims: nat, otherDims: nat)
    requires DimensionWarning(reply, dims)
    ensures GenerateEmbedding(reply, dims) == Some(reply.data[0])
    ensures |GenerateEmbedding(reply, dims).value| != dims
    ensures GenerateEmbedding(reply, dims) == GenerateEmbedding(reply, otherDims)
  {
  }
}
