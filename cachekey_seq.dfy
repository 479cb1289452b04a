// Redis keys of the per-conversation seq allocation cache.
module CacheKeySeq {
  import opened Strs

  const MallocSeq: string := "MALLOC_SEQ:"
  const MallocSeqLock: string := "MALLOC_SEQ_LOCK:"

  /** Key of the list of pre-allocated seqs of a conversation. */
  function GetMallocSeq(conversationId: string): string
  {
    MallocSeq + conversationId
  }

  /** Key of the refill lock of a conversation. */
  function GetMallocSeqLock(conversationId: string): string
  {
    MallocSeqLock + conversationId
  }

  /** Stripping the prefix gives the conversation back, for both kinds of key. */
  lemma MallocKeysRoundTrip(conversationId: string)
    ensures HasPrefix(GetMallocSeq(conversationId), MallocSeq)
    ensures TrimPrefix(GetMallocSeq(conversationId), MallocSeq) == conversationId
    ensures HasPrefix(GetMallocSeqLock(conversationId), MallocSeqLock)
    ensures TrimPrefix(GetMallocSeqLock(conversationId), MallocSeqLock) == conversationId
  {
    assert GetMallocSeq(conversationId)[..|MallocSeq|] == MallocSeq;
    assert GetMallocSeqLock(conversationId)[..|MallocSeqLock|] == MallocSeqLock;
  }

  /** Both builders are injective. */
  lemma MallocKeysInjective(c1: string, c2: string)
    ensures GetMallocSeq(c1) == GetMallocSeq(c2) ==> c1 == c2
    ensures GetMallocSeqLock(c1) == GetMallocSeqLock(c2) ==> c1 == c2
  {
    MallocKeysRoundTrip(c1);
    MallocKeysRoundTrip(c2);
  }

  /** A list key never equals a lock key, whatever the two conversations
      ("MALLOC_SEQ:" and "MALLOC_SEQ_LOCK:" part at their eleventh character). */
  lemma MallocKeysDisjoint(c1: string, c2: string)
    ensures GetMallocSeq(c1) != GetMallocSeqLock(c2)
  {
    DivergentPrefixes(MallocSeq, MallocSeqLock, c1, c2, 10);
  }
}
