// The newer Redis cache of per-user seqs: every seq is a cache-aside entry
// over the storage store; a read seq is cached on every update but written to
// storage only when it is a multiple of `readSeqWriteRatio`.
module SeqUserCacheRedis {
  import opened Common
  import opened CacheKeySeqUser
  import opened SeqUserTable
  import SeqUserStore

  /** Whether a read seq is written through to storage (Go's `%`). */
  predicate WritesThrough(value: int, ratio: int)
    requires ratio > 0
  {
    GoRem(value, ratio) == 0
  }

  /** With the ratio of 100, exactly the multiples of 100 reach storage,
      negative ones included. */
  lemma WritesThroughIffMultiple(value: int)
    ensures WritesThrough(value, 100) <==> exists k :: value == 100 * k
  {
    GoRemZeroIffDivisible(value, 100);
    if value % 100 == 0 {
      assert value == 100 * (value / 100);
    }
    if exists k :: value == 100 * k {
      var k :| value == 100 * k;
      MultipleModZero(k, 100);
      assert value == k * 100;
    }
  }

  class SeqUserCacheRedis {
    /** Cache-aside entries by key. */
    var rocks: map<string, int>
    const mgo: SeqUserStore.SeqUserMongo
    const readSeqWriteRatio: int

    constructor (store: SeqUserStore.SeqUserMongo)
      ensures rocks == map[] && mgo == store && readSeqWriteRatio == 100
    {
      rocks := map[];
      mgo := store;
      readSeqWriteRatio := 100;
    }

    /** Cache-aside read of `key`, loading storage field `f` on a miss. */
    method GetCached(key: string, c: string, u: string, f: SeqField) returns (r: Result<int>)
      requires mgo.Valid()
      modifies this
      ensures key in old(rocks) ==> r == Ok(old(rocks)[key]) && rocks == old(rocks)
      ensures key !in old(rocks) && mgo.down ==> r == Err(StorageFailed) && rocks == old(rocks)
      ensures key !in old(rocks) && !mgo.down ==>
        r == SeqUserStore.GetSeqDocs(mgo.docs, c, u, f) && r.Ok? && rocks == old(rocks)[key := r.value]
    {
      if key in rocks {
        return Ok(rocks[key]);
      }
      r := mgo.GetSeq(c, u, f);
      if r.Ok? {
        rocks := rocks[key := r.value];
      }
    }

    method GetUserMaxSeq(c: string, u: string) returns (r: Result<int>)
      requires mgo.Valid()
      modifies this
      ensures GetSeqUserMaxSeqKey(c, u) in old(rocks) ==>
        r == Ok(old(rocks)[GetSeqUserMaxSeqKey(c, u)]) && rocks == old(rocks)
      ensures GetSeqUserMaxSeqKey(c, u) !in old(rocks) && mgo.down ==> r == Err(StorageFailed) && rocks == old(rocks)
      ensures GetSeqUserMaxSeqKey(c, u) !in old(rocks) && !mgo.down ==>
        r == SeqUserStore.GetSeqDocs(mgo.docs, c, u, MaxSeq) && r.Ok? &&
        rocks == old(rocks)[GetSeqUserMaxSeqKey(c, u) := r.value]
    {
      r := GetCached(GetSeqUserMaxSeqKey(c, u), c, u, MaxSeq);
    }

    /** Storage first; the cached entry is invalidated only once that succeeded. */
    method SetUserMaxSeq(c: string, u: string, value: int) returns (r: Result<()>)
      requires mgo.Valid()
      modifies this, mgo
      ensures mgo.Valid() && mgo.down == old(mgo.down)
      ensures mgo.down ==> r == Err(StorageFailed) && rocks == old(rocks) && mgo.docs == old(mgo.docs)
      ensures !mgo.down ==>
        r == Ok(()) &&
        mgo.docs == SeqUserStore.SetSeqDocs(old(mgo.docs), c, u, value, MaxSeq) &&
        rocks == old(rocks) - {GetSeqUserMaxSeqKey(c, u)}
    {
      r := mgo.SetMaxSeq(c, u, value);
      if r.Err? {
        return;
      }
      rocks := rocks - {GetSeqUserMaxSeqKey(c, u)};
    }

    method GetUserMinSeq(c: string, u: string) returns (r: Result<int>)
      requires mgo.Valid()
      modifies this
      ensures GetSeqUserMinSeqKey(c, u) in old(rocks) ==>
        r == Ok(old(rocks)[GetSeqUserMinSeqKey(c, u)]) && rocks == old(rocks)
      ensures GetSeqUserMinSeqKey(c, u) !in old(rocks) && mgo.down ==> r == Err(StorageFailed) && rocks == old(rocks)
      ensures GetSeqUserMinSeqKey(c, u) !in old(rocks) && !mgo.down ==>
        r == SeqUserStore.GetSeqDocs(mgo.docs, c, u, MinSeq) && r.Ok? &&
        rocks == old(rocks)[GetSeqUserMinSeqKey(c, u) := r.value]
    {
      r := GetCached(GetSeqUserMinSeqKey(c, u), c, u, MinSeq);
    }

    /** Storage first; the cached entry is invalidated only once that succeeded. */
    method SetUserMinSeq(c: string, u: string, value: int) returns (r: Result<()>)
      requires mgo.Valid()
      modifies this, mgo
      ensures mgo.Valid() && mgo.down == old(mgo.down)
      ensures mgo.down ==> r == Err(StorageFailed) && rocks == old(rocks) && mgo.docs == old(mgo.docs)
      ensures !mgo.down ==>
        r == Ok(()) &&
        mgo.docs == SeqUserStore.SetSeqDocs(old(mgo.docs), c, u, value, MinSeq) &&
        rocks == old(rocks) - {GetSeqUserMinSeqKey(c, u)}
    {
      r := mgo.SetMinSeq(c, u, value);
      if r.Err? {
        return;
      }
      rocks := rocks - {GetSeqUserMinSeqKey(c, u)};
    }

    method GetUserReadSeq(c: string, u: string) returns (r: Result<int>)
      requires mgo.Valid()
      modifies this
      ensures GetSeqUserReadSeqKey(c, u) in old(rocks) ==>
        r == Ok(old(rocks)[GetSeqUserReadSeqKey(c, u)]) && rocks == old(rocks)
      ensures GetSeqUserReadSeqKey(c, u) !in old(rocks) && mgo.down ==> r == Err(StorageFailed) && rocks == old(rocks)
      ensures GetSeqUserReadSeqKey(c, u) !in old(rocks) && !mgo.down ==>
        r == SeqUserStore.GetSeqDocs(mgo.docs, c, u, ReadSeq) && r.Ok? &&
        rocks == old(rocks)[GetSeqUserReadSeqKey(c, u) := r.value]
    {
      r := GetCached(GetSeqUserReadSeqKey(c, u), c, u, ReadSeq);
    }

    /** Write storage when the seq is a multiple of the ratio, then cache the seq. */
    method SetUserReadSeq(c: string, u: string, value: int) returns (r: Result<()>)
      requires mgo.Valid() && readSeqWriteRatio > 0
      modifies this, mgo
      ensures mgo.Valid() && mgo.down == old(mgo.down)
      ensures !WritesThrough(value, readSeqWriteRatio) ==>
        r == Ok(()) && mgo.docs == old(mgo.docs) && rocks == old(rocks)[GetSeqUserReadSeqKey(c, u) := value]
      ensures WritesThrough(value, readSeqWriteRatio) && mgo.down ==>
        r == Err(StorageFailed) && mgo.docs == old(mgo.docs) && rocks == old(rocks)
      ensures WritesThrough(value, readSeqWriteRatio) && !mgo.down ==>
        r == Ok(()) && mgo.docs == SeqUserStore.SetSeqDocs(old(mgo.docs), c, u, value, ReadSeq) &&
        rocks == old(rocks)[GetSeqUserReadSeqKey(c, u) := value]
    {
      if GoRem(value, readSeqWriteRatio) == 0 {
        r := mgo.SetReadSeq(c, u, value);
        if r.Err? {
          return;
        }
      }
      rocks := rocks[GetSeqUserReadSeqKey(c, u) := value];
      r := Ok(());
    }
  }
}
