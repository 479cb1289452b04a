// The Mongo `seq` collection: one counter per conversation, advanced
// atomically by `findOneAndUpdate` with `$inc` and upsert.
module SeqMongoStore {
  import opened Common

  /** `first, first + 1, ..., first + n - 1`. */
  function Consecutive(first: int, n: nat): (r: seq<int>)
    ensures |r| == n
    ensures forall k :: 0 <= k < n ==> r[k] == first + k
  {
    seq(n, k => first + k)
  }

  /** A block that ends at `last` is followed without gap or overlap by the next block. */
  lemma ConsecutiveBlocksAdjacent(first: int, n: nat, m: nat)
    ensures Consecutive(first, n) + Consecutive(first + n, m) == Consecutive(first, n + m)
    ensures forall x :: x in Consecutive(first, n) ==> x !in Consecutive(first + n, m)
  {
    var a := Consecutive(first, n);
    var b := Consecutive(first + n, m);
    forall x | x in a
      ensures x < first + n
    {
      var i :| 0 <= i < n && a[i] == x;
    }
    forall x | x in b
      ensures x >= first + n
    {
      var j :| 0 <= j < m && b[j] == x;
    }
    assert a + b == Consecutive(first, n + m);
  }

  class SeqMongo {
    /** `conversation_id` -> `seq` of the documents present in the collection. */
    var counters: map<string, int>

    constructor ()
      ensures counters == map[]
    {
      counters := map[];
    }

    /** The stored counter; a conversation without a document counts from 0 (upsert). */
    function Seq(conversationId: string): int
      reads this
    {
      if conversationId in counters then counters[conversationId] else 0
    }

    /** Reserve `size` seqs and return the counter after the increment. */
    method MallocSeq(conversationId: string, size: int) returns (r: Result<int>)
      modifies this
      ensures size <= 0 ==> r == Err(SizeNotPositive) && counters == old(counters)
      ensures size > 0 ==>
        counters == old(counters)[conversationId := old(Seq(conversationId)) + size] &&
        r == Ok(old(Seq(conversationId)) + size)
    {
      if size <= 0 {
        return Err(SizeNotPositive);
      }
      counters := counters[conversationId := Seq(conversationId) + size];
      r := Ok(counters[conversationId]);
    }

    /** Reserve `size` seqs and list them: the block just after the old counter. */
    method Malloc(conversationId: string, size: int) returns (r: Result<seq<int>>)
      modifies this
      ensures size <= 0 ==> r == Err(SizeNotPositive) && counters == old(counters)
      ensures size > 0 ==>
        counters == old(counters)[conversationId := old(Seq(conversationId)) + size] &&
        r == Ok(Consecutive(old(Seq(conversationId)) + 1, size))
    {
      var last := MallocSeq(conversationId, size);
      if last.Err? {
        return Err(last.kind);
      }
      var top := last.value;
      var seqs: seq<int> := [];
      var i := top - size + 1;
      while i <= top
        invariant top - size + 1 <= i <= top + 1
        invariant seqs == Consecutive(top - size + 1, i - (top - size + 1))
      {
        seqs := seqs + [i];
        i := i + 1;
      }
      r := Ok(seqs);
    }
  }
}
