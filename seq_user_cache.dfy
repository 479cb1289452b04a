// The older Redis cache of per-user seqs. Max and min seqs are read through
// a cache-aside entry and invalidated after each storage write. Read seqs live
// in a Redis hash {seq, count} and reach storage only on every 20th accepted update.
module SeqUserCache {
  import opened Common
  import opened CacheKeySeqUser
  import opened SeqUserTable
  import SeqUserMgo

  /** Accepted read-seq updates between two storage writes. */
  const SeqUserReadWriteStep: int := 20

  /** The read-seq hash: the cached seq and the number of updates it has taken. */
  datatype ReadHash = ReadHash(readSeq: int, count: int)

  /** The `handlerReadSeq` script's answer for a hash and a new read seq:
      1 no hash, 2 not newer, 3 cached only, 4 also write storage. */
  function HandlerState(h: Option<ReadHash>, value: int): (state: int)
    ensures 1 <= state <= 4
    ensures state == 1 <==> h.None?
    ensures state == 2 <==> h.Some? && h.value.readSeq >= value
    ensures state == 4 <==> h.Some? && h.value.readSeq < value && (h.value.count + 1) % SeqUserReadWriteStep == 0
  {
    if h.None? then 1
    else if h.value.readSeq >= value then 2
    else if (h.value.count + 1) % SeqUserReadWriteStep != 0 then 3
    else 4
  }

  /** The hash after `handlerReadSeq`: a newer seq is stored and counted. */
  function HandlerHash(h: Option<ReadHash>, value: int): (r: Option<ReadHash>)
    ensures h.None? ==> r.None?
    ensures h.Some? && h.value.readSeq >= value ==> r == h
    ensures h.Some? && h.value.readSeq < value ==> r == Some(ReadHash(value, h.value.count + 1))
  {
    if h.None? || h.value.readSeq >= value then h else Some(ReadHash(value, h.value.count + 1))
  }

  /** A stored seq never decreases, and the count goes up by one on every accepted update. */
  lemma HandlerMonotone(h: ReadHash, value: int)
    ensures HandlerHash(Some(h), value).Some?
    ensures HandlerHash(Some(h), value).value.readSeq >= h.readSeq
    ensures HandlerHash(Some(h), value).value.readSeq >= value
    ensures HandlerHash(Some(h), value).value.count - h.count == if value > h.readSeq then 1 else 0
  {
  }

  /** The hash after a run of updates through `handlerReadSeq`. */
  function Accepted(h: ReadHash, values: seq<int>): ReadHash
  {
    if |values| == 0 then h
    else
      var before := Accepted(h, values[..|values| - 1]);
      HandlerHash(Some(before), values[|values| - 1]).value
  }

  /** Strictly increasing updates from a freshly initialised hash (count 1)
      are all accepted: the count is one more than the number of updates. */
  lemma {:induction false} AcceptedCount(start: int, values: seq<int>)
    requires forall i, j :: 0 <= i < j < |values| ==> values[i] < values[j]
    requires |values| > 0 ==> start < values[0]
    ensures Accepted(ReadHash(start, 1), values).count == 1 + |values|
    ensures |values| > 0 ==> Accepted(ReadHash(start, 1), values).readSeq == values[|values| - 1]
    ensures |values| == 0 ==> Accepted(ReadHash(start, 1), values).readSeq == start
  {
    if |values| > 0 {
      var init := values[..|values| - 1];
      AcceptedCount(start, init);
      if |init| > 0 {
        assert init[|init| - 1] == values[|values| - 2];
      }
    }
  }

  /** In such a run the k-th update (k >= 1) writes storage exactly when k + 1
      is a multiple of 20: the 19th, 39th, ... update. */
  lemma KthUpdateWrites(start: int, values: seq<int>, k: int)
    requires forall i, j :: 0 <= i < j < |values| ==> values[i] < values[j]
    requires |values| > 0 ==> start < values[0]
    requires 1 <= k <= |values|
    ensures HandlerState(Some(Accepted(ReadHash(start, 1), values[..k - 1])), values[k - 1]) == 4
            <==> (k + 1) % SeqUserReadWriteStep == 0
  {
    var prefix := values[..k - 1];
    AcceptedCount(start, prefix);
    if k > 1 {
      assert prefix[k - 2] == values[k - 2];
    }
  }

  /** What `SetUserReadSeq` does for each state; anything outside 1..4 is an error. */
  datatype ReadSeqAction = InitCache | Ignore | CacheOnly | WriteStorage | UnknownState

  function StateAction(state: int): (a: ReadSeqAction)
    ensures a == UnknownState <==> !(1 <= state <= 4)
    ensures a == WriteStorage <==> state == 4
    ensures a == InitCache <==> state == 1
  {
    if state == 1 then InitCache
    else if state == 2 then Ignore
    else if state == 3 then CacheOnly
    else if state == 4 then WriteStorage
    else UnknownState
  }

  class SeqUserCache {
    /** Redis hashes by key (the read-seq hashes). */
    var hashes: map<string, ReadHash>
    /** Cache-aside entries (max seq, min seq and read lock) by key. */
    var rocks: map<string, int>
    const mgo: SeqUserMgo.SeqUserMongo

    /** A read-lock entry is only ever cached once the read hash exists. */
    ghost predicate Valid()
      reads this
    {
      forall c, u :: GetSeqUserReadLockSeqKey(c, u) in rocks ==> GetSeqUserReadSeqKey(c, u) in hashes
    }

    constructor (store: SeqUserMgo.SeqUserMongo)
      ensures Valid() && hashes == map[] && rocks == map[] && mgo == store
    {
      hashes := map[];
      rocks := map[];
      mgo := store;
    }

    function ReadHashOf(c: string, u: string): Option<ReadHash>
      reads this
    {
      var key := GetSeqUserReadSeqKey(c, u);
      if key in hashes then Some(hashes[key]) else None
    }

    /** Write storage, then drop the cached max seq. */
    method SetUserMaxSeq(c: string, u: string, maxSeq: int) returns (r: Result<()>)
      requires Valid()
      modifies this, mgo
      ensures Valid() && hashes == old(hashes)
      ensures mgo.down == old(mgo.down)
      ensures mgo.docs == (if mgo.down then old(mgo.docs) else SeqUserMgo.SetSeqDocs(old(mgo.docs), c, u, MaxSeq, maxSeq))
      ensures mgo.down ==> r == Err(StorageFailed) && rocks == old(rocks)
      ensures !mgo.down ==> r == Ok(()) && rocks == old(rocks) - {GetSeqUserMaxSeqKey(c, u)}
    {
      r := mgo.SetMaxSeq(c, u, maxSeq);
      if r.Err? {
        return;
      }
      rocks := rocks - {GetSeqUserMaxSeqKey(c, u)};
    }

    /** Write storage, then drop the cached min seq. */
    method SetUserMinSeq(c: string, u: string, minSeq: int) returns (r: Result<()>)
      requires Valid()
      modifies this, mgo
      ensures Valid() && hashes == old(hashes)
      ensures mgo.down == old(mgo.down)
      ensures mgo.docs == (if mgo.down then old(mgo.docs) else SeqUserMgo.SetSeqDocs(old(mgo.docs), c, u, MinSeq, minSeq))
      ensures mgo.down ==> r == Err(StorageFailed) && rocks == old(rocks)
      ensures !mgo.down ==> r == Ok(()) && rocks == old(rocks) - {GetSeqUserMinSeqKey(c, u)}
    {
      r := mgo.SetMinSeq(c, u, minSeq);
      if r.Err? {
        return;
      }
      rocks := rocks - {GetSeqUserMinSeqKey(c, u)};
    }

    /** Cache-aside read of `key`, loading storage field `f` on a miss. */
    method GetCached(key: string, c: string, u: string, f: SeqField) returns (r: Result<int>)
      requires Valid()
      requires forall c2, u2 :: key != GetSeqUserReadLockSeqKey(c2, u2)
      modifies this
      ensures Valid() && hashes == old(hashes)
      ensures key in old(rocks) ==> r == Ok(old(rocks)[key]) && rocks == old(rocks)
      ensures key !in old(rocks) ==>
        var loaded := if mgo.down then Err(StorageFailed) else SeqUserMgo.GetSeqDocs(mgo.docs, c, u, f);
        r == loaded &&
        rocks == (if loaded.Ok? then old(rocks)[key := loaded.value] else old(rocks))
    {
      if key in rocks {
        return Ok(rocks[key]);
      }
      r := mgo.GetSeq(c, u, f);
      if r.Ok? {
        rocks := rocks[key := r.value];
      }
    }

    method GetUserMaxSeq(c: string, u: string) returns (r: Result<int>)
      requires Valid()
      modifies this
      ensures Valid() && hashes == old(hashes)
      ensures GetSeqUserMaxSeqKey(c, u) in old(rocks) ==>
        r == Ok(old(rocks)[GetSeqUserMaxSeqKey(c, u)]) && rocks == old(rocks)
      ensures GetSeqUserMaxSeqKey(c, u) !in old(rocks) ==>
        var loaded := if mgo.down then Err(StorageFailed) else SeqUserMgo.GetSeqDocs(mgo.docs, c, u, MaxSeq);
        r == loaded &&
        rocks == (if loaded.Ok? then old(rocks)[GetSeqUserMaxSeqKey(c, u) := loaded.value] else old(rocks))
    {
      forall c2, u2
        ensures GetSeqUserMaxSeqKey(c, u) != GetSeqUserReadLockSeqKey(c2, u2)
      {
        SeqUserKindsDisjoint(c2, u2, c, u);
      }
      r := GetCached(GetSeqUserMaxSeqKey(c, u), c, u, MaxSeq);
    }

    /** As written, a miss on the min-seq entry loads the stored max seq. */
    method GetUserMinSeq(c: string, u: string) returns (r: Result<int>)
      requires Valid()
      modifies this
      ensures Valid() && hashes == old(hashes)
      ensures GetSeqUserMinSeqKey(c, u) in old(rocks) ==>
        r == Ok(old(rocks)[GetSeqUserMinSeqKey(c, u)]) && rocks == old(rocks)
      ensures GetSeqUserMinSeqKey(c, u) !in old(rocks) ==>
        var loaded := if mgo.down then Err(StorageFailed) else SeqUserMgo.GetSeqDocs(mgo.docs, c, u, MaxSeq);
        r == loaded &&
        rocks == (if loaded.Ok? then old(rocks)[GetSeqUserMinSeqKey(c, u) := loaded.value] else old(rocks))
    {
      forall c2, u2
        ensures GetSeqUserMinSeqKey(c, u) != GetSeqUserReadLockSeqKey(c2, u2)
      {
        SeqUserKindsDisjoint(c2, u2, c, u);
      }
      r := GetCached(GetSeqUserMinSeqKey(c, u), c, u, MaxSeq);
    }

    /** The evidently intended min-seq read: a miss loads the stored min seq. */
    method GetUserMinSeqIntended(c: string, u: string) returns (r: Result<int>)
      requires Valid()
      modifies this
      ensures Valid() && hashes == old(hashes)
      ensures GetSeqUserMinSeqKey(c, u) in old(rocks) ==>
        r == Ok(old(rocks)[GetSeqUserMinSeqKey(c, u)]) && rocks == old(rocks)
      ensures GetSeqUserMinSeqKey(c, u) !in old(rocks) ==>
        var loaded := if mgo.down then Err(StorageFailed) else SeqUserMgo.GetSeqDocs(mgo.docs, c, u, MinSeq);
        r == loaded &&
        rocks == (if loaded.Ok? then old(rocks)[GetSeqUserMinSeqKey(c, u) := loaded.value] else old(rocks))
    {
      forall c2, u2
        ensures GetSeqUserMinSeqKey(c, u) != GetSeqUserReadLockSeqKey(c2, u2)
      {
        SeqUserKindsDisjoint(c2, u2, c, u);
      }
      r := GetCached(GetSeqUserMinSeqKey(c, u), c, u, MinSeq);
    }

    /** The `handlerReadSeq` script. */
    method HandlerReadSeq(c: string, u: string, value: int) returns (state: int)
      requires Valid()
      modifies this
      ensures Valid() && rocks == old(rocks)
      ensures state == HandlerState(old(ReadHashOf(c, u)), value)
      ensures var h := HandlerHash(old(ReadHashOf(c, u)), value);
        hashes == (if h.Some? then old(hashes)[GetSeqUserReadSeqKey(c, u) := h.value] else old(hashes))
    {
      var key := GetSeqUserReadSeqKey(c, u);
      if key !in hashes {
        return 1;
      }
      if hashes[key].readSeq >= value {
        return 2;
      }
      var count := hashes[key].count + 1;
      hashes := hashes[key := ReadHash(value, count)];
      if count % SeqUserReadWriteStep != 0 {
        return 3;
      }
      return 4;
    }

    /** The `setReadSeq` script: create the hash with count 1, never overwrite. */
    method SetReadSeq(c: string, u: string, value: int)
      requires Valid()
      modifies this
      ensures Valid() && rocks == old(rocks)
      ensures GetSeqUserReadSeqKey(c, u) in old(hashes) ==> hashes == old(hashes)
      ensures GetSeqUserReadSeqKey(c, u) !in old(hashes) ==>
        hashes == old(hashes)[GetSeqUserReadSeqKey(c, u) := ReadHash(value, 1)]
    {
      var key := GetSeqUserReadSeqKey(c, u);
      if key in hashes {
        return;
      }
      hashes := hashes[key := ReadHash(value, 1)];
    }

    /** Seed the read hash from storage (raised to `value` when that is newer),
        under the read-lock entry. */
    method InitReadSeq(c: string, u: string, value: int) returns (r: Result<()>)
      requires Valid()
      modifies this
      ensures Valid()
      ensures GetSeqUserReadLockSeqKey(c, u) in old(rocks) ==> r == Ok(()) && hashes == old(hashes) && rocks == old(rocks)
      ensures GetSeqUserReadLockSeqKey(c, u) !in old(rocks) ==>
        var stored := if mgo.down then Err(StorageFailed) else SeqUserMgo.GetSeqDocs(mgo.docs, c, u, ReadSeq);
        (stored.Err? ==> r == Err(stored.kind) && hashes == old(hashes) && rocks == old(rocks)) &&
        (stored.Ok? ==>
          var seeded := if value > 0 && value > stored.value then value else stored.value;
          r == Ok(()) &&
          rocks == old(rocks)[GetSeqUserReadLockSeqKey(c, u) := seeded] &&
          hashes == (if GetSeqUserReadSeqKey(c, u) in old(hashes) then old(hashes)
                     else old(hashes)[GetSeqUserReadSeqKey(c, u) := ReadHash(seeded, 1)]))
      ensures r.Ok? ==> GetSeqUserReadSeqKey(c, u) in hashes
    {
      var lock := GetSeqUserReadLockSeqKey(c, u);
      if lock in rocks {
        return Ok(());
      }
      var stored := mgo.GetReadSeq(c, u);
      if stored.Err? {
        return Err(stored.kind);
      }
      var dbSeq := stored.value;
      if value > 0 && value > dbSeq {
        dbSeq := value;
      }
      SetReadSeq(c, u, dbSeq);
      ghost var before := rocks;
      rocks := rocks[lock := dbSeq];
      forall c2, u2 | GetSeqUserReadLockSeqKey(c2, u2) in rocks
        ensures GetSeqUserReadSeqKey(c2, u2) in hashes
      {
        if GetSeqUserReadLockSeqKey(c2, u2) == lock {
          SeqUserKeyRekey(SeqUserReadLockSeq, SeqUserReadSeq, c2, u2, c, u);
        } else {
          assert GetSeqUserReadLockSeqKey(c2, u2) in before;
        }
      }
      r := Ok(());
    }

    /** Dispatch on the script's state: seed, ignore, cache only, or also write storage. */
    method SetUserReadSeq(c: string, u: string, value: int) returns (r: Result<()>)
      requires Valid()
      modifies this, mgo
      ensures Valid()
      ensures mgo.down == old(mgo.down)
      ensures var state := HandlerState(old(ReadHashOf(c, u)), value);
        (state == 4 ==> mgo.docs == (if mgo.down then old(mgo.docs) else SeqUserMgo.SetSeqDocs(old(mgo.docs), c, u, ReadSeq, value))) &&
        (state != 4 ==> mgo.docs == old(mgo.docs)) &&
        (state == 2 ==> r == Ok(()) && hashes == old(hashes) && rocks == old(rocks)) &&
        (state == 3 ==> r == Ok(()) && rocks == old(rocks))
      ensures old(ReadHashOf(c, u)).Some? ==>
        hashes == old(hashes)[GetSeqUserReadSeqKey(c, u) := HandlerHash(old(ReadHashOf(c, u)), value).value]
      ensures old(ReadHashOf(c, u)).None? ==>
        var stored := if old(mgo.down) then Err(StorageFailed) else SeqUserMgo.GetSeqDocs(old(mgo.docs), c, u, ReadSeq);
        (stored.Err? ==> r == Err(stored.kind) && hashes == old(hashes) && rocks == old(rocks)) &&
        (stored.Ok? ==>
          var seeded := if value > 0 && value > stored.value then value else stored.value;
          r == Ok(()) &&
          rocks == old(rocks)[GetSeqUserReadLockSeqKey(c, u) := seeded] &&
          hashes == old(hashes)[GetSeqUserReadSeqKey(c, u) := ReadHash(seeded, 1)])
      ensures HandlerState(old(ReadHashOf(c, u)), value) == 4 ==>
        rocks == old(rocks) && r == (if mgo.down then Err(StorageFailed) else Ok(()))
    {
      var state := HandlerReadSeq(c, u, value);
      match StateAction(state)
      case InitCache =>
        r := InitReadSeq(c, u, value);
      case Ignore =>
        r := Ok(());
      case CacheOnly =>
        r := Ok(());
      case WriteStorage =>
        r := mgo.SetReadSeq(c, u, value);
      case UnknownState =>
        r := Err(InternalServer);
    }

    /** Read the cached seq; on a miss seed the hash from storage and read once more. */
    method GetUserReadSeq(c: string, u: string) returns (r: Result<int>, ghost tries: nat)
      requires Valid()
      modifies this
      ensures Valid() && 1 <= tries <= 2
      ensures old(ReadHashOf(c, u)).Some? ==>
        r == Ok(old(ReadHashOf(c, u)).value.readSeq) && hashes == old(hashes) && rocks == old(rocks) && tries == 1
      ensures r.Ok? ==> ReadHashOf(c, u).Some? && r.value == ReadHashOf(c, u).value.readSeq
      ensures old(ReadHashOf(c, u)).None? && GetSeqUserReadLockSeqKey(c, u) !in old(rocks) &&
              !mgo.down && SeqUserMgo.GetSeqDocs(mgo.docs, c, u, ReadSeq).Ok? ==>
        r == SeqUserMgo.GetSeqDocs(mgo.docs, c, u, ReadSeq)
      ensures r.Err? ==> r.kind == StorageFailed
    {
      var key := GetSeqUserReadSeqKey(c, u);
      var i := 0;
      tries := 0;
      while i < 2
        invariant 0 <= i <= 1 && tries == i
        invariant Valid()
        invariant i == 1 ==> key in hashes
        invariant i == 1 ==> old(ReadHashOf(c, u)).None?
        invariant i == 1 && GetSeqUserReadLockSeqKey(c, u) !in old(rocks) && !mgo.down &&
                  SeqUserMgo.GetSeqDocs(mgo.docs, c, u, ReadSeq).Ok? ==>
                  hashes[key].readSeq == SeqUserMgo.GetSeqDocs(mgo.docs, c, u, ReadSeq).value
        invariant i == 0 ==> hashes == old(hashes) && rocks == old(rocks)
      {
        tries := tries + 1;
        if key in hashes {
          return Ok(hashes[key].readSeq), tries;
        }
        var init := InitReadSeq(c, u, -1);
        if init.Err? {
          return Err(init.kind), tries;
        }
        i := i + 1;
      }
      assert false;
      r := Err(InternalServer);
    }
  }
}
