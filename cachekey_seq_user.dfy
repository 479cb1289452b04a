// Redis keys of the per-(conversation, user) seq cache:
// prefix + conversationID + ":" + userID.
module CacheKeySeqUser {
  import opened Strs

  const SeqUserReadSeq: string := "SEQ_USER_READ_SEQ:"
  const SeqUserReadLockSeq: string := "SEQ_USER_READ_LOCK_SEQ:"
  const SeqUserMaxSeq: string := "SEQ_USER_MAX_SEQ:"
  const SeqUserMinSeq: string := "SEQ_USER_MIN_SEQ:"

  function SeqUserKey(prefix: string, conversationId: string, userId: string): string
  {
    prefix + conversationId + ":" + userId
  }

  function GetSeqUserReadSeqKey(conversationId: string, userId: string): string
  {
    SeqUserKey(SeqUserReadSeq, conversationId, userId)
  }

  function GetSeqUserReadLockSeqKey(conversationId: string, userId: string): string
  {
    SeqUserKey(SeqUserReadLockSeq, conversationId, userId)
  }

  function GetSeqUserMaxSeqKey(conversationId: string, userId: string): string
  {
    SeqUserKey(SeqUserMaxSeq, conversationId, userId)
  }

  function GetSeqUserMinSeqKey(conversationId: string, userId: string): string
  {
    SeqUserKey(SeqUserMinSeq, conversationId, userId)
  }

  /** A key starts with its prefix, and the rest is conversation ":" user. */
  lemma SeqUserKeyShape(prefix: string, conversationId: string, userId: string)
    ensures HasPrefix(SeqUserKey(prefix, conversationId, userId), prefix)
    ensures TrimPrefix(SeqUserKey(prefix, conversationId, userId), prefix) == conversationId + [':'] + userId
  {
    var k := SeqUserKey(prefix, conversationId, userId);
    assert k == prefix + (conversationId + [':'] + userId);
    assert k[..|prefix|] == prefix;
  }

  /** Same prefix: the key determines the pair when conversation IDs hold no ':'. */
  lemma SeqUserKeyInjective(prefix: string, c1: string, u1: string, c2: string, u2: string)
    requires ':' !in c1 && ':' !in c2
    requires SeqUserKey(prefix, c1, u1) == SeqUserKey(prefix, c2, u2)
    ensures c1 == c2 && u1 == u2
  {
    SeqUserKeyShape(prefix, c1, u1);
    SeqUserKeyShape(prefix, c2, u2);
    SeparatedPairInjective(c1, u1, c2, u2, ':');
  }

  /** The four kinds never produce equal keys, whatever the IDs. */
  lemma SeqUserKindsDisjoint(c1: string, u1: string, c2: string, u2: string)
    ensures GetSeqUserReadSeqKey(c1, u1) != GetSeqUserReadLockSeqKey(c2, u2)
    ensures GetSeqUserReadSeqKey(c1, u1) != GetSeqUserMaxSeqKey(c2, u2)
    ensures GetSeqUserReadSeqKey(c1, u1) != GetSeqUserMinSeqKey(c2, u2)
    ensures GetSeqUserReadLockSeqKey(c1, u1) != GetSeqUserMaxSeqKey(c2, u2)
    ensures GetSeqUserReadLockSeqKey(c1, u1) != GetSeqUserMinSeqKey(c2, u2)
    ensures GetSeqUserMaxSeqKey(c1, u1) != GetSeqUserMinSeqKey(c2, u2)
  {
    var t1 := c1 + ":" + u1;
    var t2 := c2 + ":" + u2;
    assert GetSeqUserReadSeqKey(c1, u1) == SeqUserReadSeq + t1;
    assert GetSeqUserReadLockSeqKey(c1, u1) == SeqUserReadLockSeq + t1;
    assert GetSeqUserMaxSeqKey(c1, u1) == SeqUserMaxSeq + t1;
    assert GetSeqUserReadLockSeqKey(c2, u2) == SeqUserReadLockSeq + t2;
    assert GetSeqUserMaxSeqKey(c2, u2) == SeqUserMaxSeq + t2;
    assert GetSeqUserMinSeqKey(c2, u2) == SeqUserMinSeq + t2;
    DivergentPrefixes(SeqUserReadSeq, SeqUserReadLockSeq, t1, t2, 14);
    DivergentPrefixes(SeqUserReadSeq, SeqUserMaxSeq, t1, t2, 9);
    DivergentPrefixes(SeqUserReadSeq, SeqUserMinSeq, t1, t2, 9);
    DivergentPrefixes(SeqUserReadLockSeq, SeqUserMaxSeq, t1, t2, 9);
    DivergentPrefixes(SeqUserReadLockSeq, SeqUserMinSeq, t1, t2, 9);
    DivergentPrefixes(SeqUserMaxSeq, SeqUserMinSeq, t1, t2, 10);
  }

  /** Two pairs with equal keys of one kind have equal keys of every kind. */
  lemma SeqUserKeyRekey(p: string, q: string, c1: string, u1: string, c2: string, u2: string)
    requires SeqUserKey(p, c1, u1) == SeqUserKey(p, c2, u2)
    ensures SeqUserKey(q, c1, u1) == SeqUserKey(q, c2, u2)
  {
    SeqUserKeyShape(p, c1, u1);
    SeqUserKeyShape(p, c2, u2);
    assert SeqUserKey(q, c1, u1) == q + (c1 + [':'] + u1);
    assert SeqUserKey(q, c2, u2) == q + (c2 + [':'] + u2);
  }
}
