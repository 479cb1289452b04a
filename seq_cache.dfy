// The Redis cache of pre-allocated seqs in front of the Mongo counter:
// `Malloc` pops a block from the conversation's list and, when the list
// cannot serve the whole request, reserves a fresh block from storage and
// caches what it does not hand out.
module SeqCacheModel {
  import opened Common
  import opened SeqMongoStore
  import opened CacheKeySeq

  /** How many elements `LRANGE key 0 end` returns from a list of length `len`
      (Redis counts a negative end from the tail, and the end is inclusive). */
  function LrangeCount(len: nat, end: int): (n: nat)
    ensures n <= len
    ensures end >= 0 && end < len ==> n == end + 1
    ensures end >= len ==> n == len
  {
    var e := if end < 0 then len + end else end;
    if e < 0 then 0 else if e + 1 < len then e + 1 else len
  }

  /** As written, a list longer than `size` gives `lpop` size + 1 seqs, one more than asked. */
  lemma LpopTakesOneExtra(len: nat, size: int)
    requires 0 < size < len
    ensures LrangeCount(len, size) == size + 1
  {
  }

  /** The pop `lpop` evidently intends: at most `size` seqs. */
  function LpopCountIntended(len: nat, size: int): (n: nat)
    ensures n <= len
    ensures size >= 0 ==> n <= size
    ensures size >= 0 && len >= size ==> n == size
  {
    if size <= 0 then 0 else if len < size then len else size
  }

  /** Storage request size of a refill. */
  function RefillSize(minNum: int, size: int): (num: int)
    ensures size > minNum ==> num == minNum + size
    ensures size <= minNum ==> num == minNum
  {
    if size > minNum then minNum + size else minNum
  }

  /** The seqs handed out and the seqs pushed back to the list after a refill. */
  datatype Refill = Refill(seqs: seq<int>, rest: seq<int>)

  /** Whether the popped seqs run straight into the fresh block. */
  predicate Contiguous(seqs: seq<int>, res: seq<int>)
  {
    |seqs| > 0 && |res| > 0 && seqs[|seqs| - 1] + 1 == res[0]
  }

  /** Combining the popped seqs with the fresh block `res`, as written: a Go
      slice bound outside the block's length is a panic. */
  function SpliceAsWritten(seqs: seq<int>, res: seq<int>, size: int): (r: Result<Refill>)
    ensures r.Err? ==> r.kind == Panic
    ensures r.Ok? ==> forall x :: x in r.value.rest ==> x in res
    ensures r.Ok? ==> forall x :: x in r.value.seqs ==> x in seqs || x in res
    ensures r.Ok? && !Contiguous(seqs, res) ==> |r.value.seqs| == size
    ensures r.Ok? && !Contiguous(seqs, res) ==> r.value.seqs + r.value.rest == res
    ensures r.Ok? && Contiguous(seqs, res) ==> r.value.seqs + r.value.rest == seqs + res
    ensures Contiguous(seqs, res) ==> (r.Ok? <==> |res| <= size <= 2 * |res|)
    ensures !Contiguous(seqs, res) && |seqs| > 0 && |res| == 0 ==> r.Err?
    ensures !Contiguous(seqs, res) && (|seqs| == 0 || |res| > 0) ==> (r.Ok? <==> 0 <= size <= |res|)
  {
    if |seqs| > 0 && |res| == 0 then Err(Panic)
    else if Contiguous(seqs, res) then
      var n := size - |res|;
      if n < 0 || n > |res| then Err(Panic)
      else
        assert seqs + res[..n] + res[n..] == seqs + res;
        Ok(Refill(seqs + res[..n], res[n..]))
    else if size < 0 || size > |res| then Err(Panic)
    else
      assert res[..size] + res[size..] == res;
      Ok(Refill(res[..size], res[size..]))
  }

  /** As written, the contiguous case never tops the popped seqs up: a block of
      at least `size` seqs leaves them as they were, or panics. */
  lemma SpliceNeverTopsUp(seqs: seq<int>, res: seq<int>, size: int)
    requires Contiguous(seqs, res) && |res| >= size
    ensures SpliceAsWritten(seqs, res, size).Ok? ==> SpliceAsWritten(seqs, res, size).value.seqs == seqs
  {
    var r := SpliceAsWritten(seqs, res, size);
    if r.Ok? {
      assert size - |res| == 0;
      assert res[..0] == [];
    }
  }

  /** The splice the contiguous branch evidently intends: `n := size - len(*seqs)`. */
  function SpliceIntended(seqs: seq<int>, res: seq<int>, size: int): (r: Result<Refill>)
    ensures r.Ok? ==> |r.value.seqs| == size
    ensures r.Ok? && Contiguous(seqs, res) ==> r.value.seqs + r.value.rest == seqs + res
    ensures r.Ok? && !Contiguous(seqs, res) ==> r.value.seqs + r.value.rest == res
    ensures Contiguous(seqs, res) && |seqs| <= size <= |seqs| + |res| ==> r.Ok?
    ensures !Contiguous(seqs, res) && 0 <= size <= |res| ==> r.Ok?
  {
    if Contiguous(seqs, res) then
      var n := size - |seqs|;
      if n < 0 || n > |res| then Err(Panic)
      else
        assert seqs + res[..n] + res[n..] == seqs + res;
        Ok(Refill(seqs + res[..n], res[n..]))
    else if size < 0 || size > |res| then Err(Panic)
    else
      assert res[..size] + res[size..] == res;
      Ok(Refill(res[..size], res[size..]))
  }

  class SeqCache {
    /** The Redis lists by key; an empty list is an absent key. */
    var lists: map<string, seq<int>>
    /** The lock keys present in Redis. */
    var lockKeys: set<string>
    /** The seq store; the constructor as written never sets it. */
    var mgo: SeqMongo?
    var minNum: int

    /** Every cached seq was already reserved in storage for its conversation. */
    ghost predicate Valid()
      reads this, mgo
    {
      (forall k :: k in lists ==> |lists[k]| > 0) &&
      (mgo == null ==> lists == map[]) &&
      (mgo != null ==> forall c, x :: GetMallocSeq(c) in lists && x in lists[GetMallocSeq(c)] ==> x <= mgo.Seq(c))
    }

    /** As written: neither the store nor `minNum` is set. */
    constructor ()
      ensures Valid()
      ensures lists == map[] && lockKeys == {} && mgo == null && minNum == 0
    {
      lists := map[];
      lockKeys := {};
      mgo := null;
      minNum := 0;
    }

    /** A cache wired to a store, as the refill path needs. */
    constructor WithStore(store: SeqMongo, min: int)
      ensures Valid()
      ensures lists == map[] && lockKeys == {} && mgo == store && minNum == min
    {
      lists := map[];
      lockKeys := {};
      mgo := store;
      minNum := min;
    }

    function List(key: string): seq<int>
      reads this
    {
      if key in lists then lists[key] else []
    }

    /** The `lpop` script: take `LRANGE 0 size`, trim them off the head, and
        drop the lock key when the list is left empty. */
    method Lpop(seqKey: string, lockKey: string, size: int) returns (res: seq<int>)
      requires Valid()
      modifies this
      ensures Valid() && mgo == old(mgo) && minNum == old(minNum)
      ensures var l := old(List(seqKey)); var n := LrangeCount(|l|, size);
        res == l[..n] &&
        (n == 0 ==> lists == old(lists) && lockKeys == old(lockKeys)) &&
        (0 < n < |l| ==> lists == old(lists)[seqKey := l[n..]] && lockKeys == old(lockKeys)) &&
        (0 < n == |l| ==> lists == old(lists) - {seqKey} && lockKeys == old(lockKeys) - {lockKey})
    {
      var l := List(seqKey);
      var n := LrangeCount(|l|, size);
      res := l[..n];
      if n == 0 {
        return;
      }
      if n < |l| {
        lists := lists[seqKey := l[n..]];
        forall c, x | GetMallocSeq(c) in lists && x in lists[GetMallocSeq(c)] && mgo != null
          ensures x <= mgo.Seq(c)
        {
          if GetMallocSeq(c) == seqKey {
            assert x in old(lists)[seqKey];
          }
        }
      } else {
        lists := lists - {seqKey};
        lockKeys := lockKeys - {lockKey};
      }
    }

    /** The `push` script: replace the list by `seqs` (deleting it when empty).
        Seqs already reserved for the list's conversation keep the cache valid. */
    method Push(conversationId: string, seqKey: string, seqs: seq<int>)
      requires Valid() && seqKey == GetMallocSeq(conversationId)
      requires mgo != null && forall x :: x in seqs ==> x <= mgo.Seq(conversationId)
      modifies this
      ensures Valid()
      ensures lists == (if |seqs| == 0 then old(lists) - {seqKey} else old(lists)[seqKey := seqs])
      ensures lockKeys == old(lockKeys) && mgo == old(mgo) && minNum == old(minNum)
    {
      if |seqs| == 0 {
        lists := lists - {seqKey};
      } else {
        lists := lists[seqKey := seqs];
      }
      forall c, x | GetMallocSeq(c) in lists && x in lists[GetMallocSeq(c)]
        ensures x <= mgo.Seq(c)
      {
        if c != conversationId {
          MallocKeysInjective(c, conversationId);
          assert x in old(lists)[GetMallocSeq(c)];
        }
      }
    }

    /** `mallocSeq`: reserve a fresh block, splice it with the popped `seqs`,
        and cache the rest of the block. */
    method MallocSeq(conversationId: string, size: int, seqs: seq<int>) returns (r: Result<seq<int>>)
      requires Valid()
      requires mgo != null ==> forall x :: x in seqs ==> x <= mgo.Seq(conversationId)
      modifies this, mgo
      ensures Valid() && mgo == old(mgo) && minNum == old(minNum) && lockKeys == old(lockKeys)
      ensures mgo == null ==> r == Err(Panic) && lists == old(lists)
      ensures mgo != null ==>
        var num := RefillSize(minNum, size);
        (num <= 0 ==> r == Err(SizeNotPositive) && lists == old(lists) && mgo.counters == old(mgo.counters)) &&
        (num > 0 ==>
          mgo.counters == old(mgo.counters)[conversationId := old(mgo.Seq(conversationId)) + num] &&
          var sp := SpliceAsWritten(seqs, Consecutive(old(mgo.Seq(conversationId)) + 1, num), size);
          (sp.Err? ==> r == Err(Panic) && lists == old(lists)) &&
          (sp.Ok? ==>
             r == Ok(sp.value.seqs) &&
             lists == (if |sp.value.rest| == 0 then old(lists) - {GetMallocSeq(conversationId)}
                       else old(lists)[GetMallocSeq(conversationId) := sp.value.rest])))
      ensures mgo != null && r.Ok? ==> forall x :: x in r.value ==> x <= mgo.Seq(conversationId)
    {
      if mgo == null {
        return Err(Panic);
      }
      var num := minNum;
      if size > minNum {
        num := num + size;
      }
      ghost var before := mgo.Seq(conversationId);
      var res := mgo.Malloc(conversationId, num);
      if res.Err? {
        return Err(res.kind);
      }
      forall c, x | GetMallocSeq(c) in lists && x in lists[GetMallocSeq(c)]
        ensures x <= mgo.Seq(c)
      {
        assert x <= old(mgo.Seq(c));
      }
      r := SpliceAndPush(conversationId, seqs, res.value, size);
    }

    /** The rest of `mallocSeq` once the fresh block is reserved: splice it
        with the popped seqs, and cache what is not handed out. */
    method SpliceAndPush(conversationId: string, seqs: seq<int>, block: seq<int>, size: int)
      returns (r: Result<seq<int>>)
      requires Valid() && mgo != null
      requires forall x :: x in seqs ==> x <= mgo.Seq(conversationId)
      requires forall x :: x in block ==> x <= mgo.Seq(conversationId)
      modifies this
      ensures Valid() && mgo == old(mgo) && minNum == old(minNum) && lockKeys == old(lockKeys)
      ensures var sp := SpliceAsWritten(seqs, block, size);
        (sp.Err? ==> r == Err(Panic) && lists == old(lists)) &&
        (sp.Ok? ==>
           r == Ok(sp.value.seqs) &&
           lists == (if |sp.value.rest| == 0 then old(lists) - {GetMallocSeq(conversationId)}
                     else old(lists)[GetMallocSeq(conversationId) := sp.value.rest]))
      ensures r.Ok? ==> forall x :: x in r.value ==> x <= mgo.Seq(conversationId)
    {
      var sp := SpliceAsWritten(seqs, block, size);
      if sp.Err? {
        return Err(Panic);
      }
      Push(conversationId, GetMallocSeq(conversationId), sp.value.rest);
      r := Ok(sp.value.seqs);
    }

    /** `Malloc`: up to ten pop-then-refill attempts for exactly `size` seqs.
        `got` records, for each attempt that ran to its length check, how many
        seqs it ended with. */
    method Malloc(conversationId: string, size: int)
      returns (r: Result<seq<int>>, ghost attempts: nat, ghost got: seq<int>)
      requires Valid()
      modifies this, mgo
      ensures Valid() && mgo == old(mgo) && minNum == old(minNum)
      ensures size <= 0 ==> r == Err(SizeNotPositive) && attempts == 0
      ensures r.Ok? ==> |r.value| == size && 1 <= attempts <= 10
      ensures r.Ok? ==> mgo != null && forall x :: x in r.value ==> x <= mgo.Seq(conversationId)
      ensures r == Err(InternalServer) ==> attempts == 10
      ensures attempts <= 10
      ensures |got| <= attempts
      ensures r.Ok? ==> |got| == attempts && got[attempts - 1] == size
      ensures forall k :: 0 <= k < |got| && (r.Err? || k < |got| - 1) ==> got[k] != size
      ensures r == Err(InternalServer) <==> size > 0 && |got| == 10 && r.Err?
    {
      attempts := 0;
      got := [];
      if size <= 0 {
        return Err(SizeNotPositive), 0, [];
      }
      var seqKey := GetMallocSeq(conversationId);
      var lockKey := GetMallocSeqLock(conversationId);
      var i := 0;
      while i < 10
        invariant 0 <= i <= 10 && attempts == i && |got| == i
        invariant forall k :: 0 <= k < |got| ==> got[k] != size
        invariant Valid() && mgo == old(mgo) && minNum == old(minNum)
      {
        attempts := attempts + 1;
        ghost var cached := List(seqKey);
        var seqs := Lpop(seqKey, lockKey, size);
        assert forall x :: x in seqs ==> x in cached;
        assert mgo != null ==> forall x :: x in seqs ==> x <= mgo.Seq(conversationId);
        if |seqs| != size {
          var filled := MallocSeq(conversationId, size, seqs);
          if filled.Err? {
            return Err(filled.kind), attempts, got;
          }
          seqs := filled.value;
        }
        got := got + [|seqs|];
        if |seqs| == size {
          return Ok(seqs), attempts, got;
        }
        i := i + 1;
      }
      r := Err(InternalServer);
    }
  }
}
