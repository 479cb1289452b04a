// The read-seq migration tool: it scans the Redis keys of the former read-seq
// cache ("SEQ_USER_READ:<conversation>:<user>", the seq in the hash field
// "value") and writes each seq to the Mongo store as the user's read seq.
module ReadSeqTool {
  import opened Common
  import opened Strs
  import opened SeqUserTable
  import opened SeqUserStore

  /** The `SCAN` pattern. */
  const ReadSeqKeyPattern: string := "SEQ_USER_READ:*"

  /** The Redis hashes: key, then field, then value. */
  type Hashes = map<string, map<string, string>>

  /** A key of the former read-seq cache. */
  function ReadSeqKey(conversationId: string, userId: string): string
  {
    "SEQ_USER_READ:" + conversationId + ":" + userId
  }

  /** The read seq one key carries. */
  datatype ReadSeqRecord = ReadSeqRecord(conversationId: string, userId: string, readSeq: int)

  /** `handlerKey` up to the write: a key that is not three ":"-separated
      parts is an error; a key or field that is missing (`redis.Nil`) is
      skipped; a value that is not a 64-bit integer is an error. */
  function ParseKey(hashes: Hashes, key: string): Result<Option<ReadSeqRecord>>
  {
    var arr := Split(key, ':');
    if |arr| != 3 then Err(ArgsError)
    else if key !in hashes || "value" !in hashes[key] then Ok(None)
    else
      match Atoi(hashes[key]["value"])
      case None => Err(InternalServer)
      case Some(readSeq) => Ok(Some(ReadSeqRecord(arr[1], arr[2], readSeq)))
  }

  /** A key the former cache built reads back into its conversation and user,
      and its stored value into the seq. */
  lemma ParseKeyReadsBack(hashes: Hashes, conversationId: string, userId: string, readSeq: int)
    requires ':' !in conversationId && ':' !in userId && InInt64(readSeq)
    requires ReadSeqKey(conversationId, userId) in hashes
    requires hashes[ReadSeqKey(conversationId, userId)] == map["value" := IntToString(readSeq)]
    ensures ParseKey(hashes, ReadSeqKey(conversationId, userId)) ==
      Ok(Some(ReadSeqRecord(conversationId, userId, readSeq)))
  {
    var key := ReadSeqKey(conversationId, userId);
    assert key == "SEQ_USER_READ" + [':'] + (conversationId + [':'] + userId);
    SplitAtSep("SEQ_USER_READ", ':', conversationId + [':'] + userId);
    SplitAtSep(conversationId, ':', userId);
    SplitNoSep(userId, ':');
    AtoiOfIntToString(readSeq);
  }

  /** The outcome of `handlerKey` on the store's documents: an error leaves
      them as they were, a skipped key too, and a read seq is set with
      `SetUserReadSeq`. */
  function HandleKey(docs: map<RecordKey, Doc>, down: bool, hashes: Hashes, key: string)
    : (Result<()>, map<RecordKey, Doc>)
  {
    match ParseKey(hashes, key)
    case Err(e) => (Err(e), docs)
    case Ok(None) => (Ok(()), docs)
    case Ok(Some(rec)) =>
      if down then (Err(StorageFailed), docs)
      else (Ok(()), SetSeqDocs(docs, rec.conversationId, rec.userId, rec.readSeq, ReadSeq))
  }

  /** A malformed key fails and writes nothing; a well-formed key without a
      value is skipped; otherwise exactly the parsed seq becomes the user's read
      seq in that conversation, and the user's two other seqs and every other
      record read as before. */
  lemma HandleKeySpec(docs: map<RecordKey, Doc>, down: bool, hashes: Hashes, key: string)
    ensures var (r, after) := HandleKey(docs, down, hashes, key);
      var arr := Split(key, ':');
      (|arr| != 3 ==> r == Err(ArgsError) && after == docs) &&
      (|arr| == 3 && (key !in hashes || "value" !in hashes[key]) ==> r == Ok(()) && after == docs) &&
      (r.Err? ==> after == docs) &&
      (ParseKey(hashes, key).Ok? && ParseKey(hashes, key).value.Some? && !down ==>
        var rec := ParseKey(hashes, key).value.value;
        rec.conversationId == arr[1] && rec.userId == arr[2] && r.Ok? &&
        GetSeqDocs(after, arr[1], arr[2], ReadSeq) == Ok(rec.readSeq) &&
        (RecordKey(arr[2], arr[1]) in docs ==>
          GetSeqDocs(after, arr[1], arr[2], MaxSeq) == GetSeqDocs(docs, arr[1], arr[2], MaxSeq) &&
          GetSeqDocs(after, arr[1], arr[2], MinSeq) == GetSeqDocs(docs, arr[1], arr[2], MinSeq)) &&
        forall c, u, f :: (c, u) != (arr[1], arr[2]) ==> GetSeqDocs(after, c, u, f) == GetSeqDocs(docs, c, u, f))
  {
    var p := ParseKey(hashes, key);
    if p.Ok? && p.value.Some? && !down {
      var rec := p.value.value;
      GetAfterSet(docs, rec.conversationId, rec.userId, rec.readSeq, ReadSeq);
      SetLeavesOtherFields(docs, rec.conversationId, rec.userId, rec.readSeq, ReadSeq, MaxSeq);
      SetLeavesOtherFields(docs, rec.conversationId, rec.userId, rec.readSeq, ReadSeq, MinSeq);
      forall c, u, f | (c, u) != (rec.conversationId, rec.userId)
        ensures GetSeqDocs(SetSeqDocs(docs, rec.conversationId, rec.userId, rec.readSeq, ReadSeq), c, u, f) ==
          GetSeqDocs(docs, c, u, f)
      {
        SetLeavesOtherRecords(docs, rec.conversationId, rec.userId, rec.readSeq, ReadSeq, c, u, f);
      }
    }
  }

  /** The keys handled in order, stopping at the first that fails. */
  function HandleKeys(docs: map<RecordKey, Doc>, down: bool, hashes: Hashes, keys: seq<string>)
    : (Result<()>, map<RecordKey, Doc>)
  {
    if |keys| == 0 then (Ok(()), docs)
    else
      var (r, d) := HandleKeys(docs, down, hashes, keys[..|keys| - 1]);
      if r.Err? then (r, d) else HandleKey(d, down, hashes, keys[|keys| - 1])
  }

  lemma {:induction false} HandleKeysPrefixError(docs: map<RecordKey, Doc>, down: bool, hashes: Hashes,
                                                 keys: seq<string>, n: nat)
    requires n <= |keys| && HandleKeys(docs, down, hashes, keys[..n]).0.Err?
    ensures HandleKeys(docs, down, hashes, keys) == HandleKeys(docs, down, hashes, keys[..n])
    decreases |keys|
  {
    if n < |keys| {
      assert keys[..|keys| - 1][..n] == keys[..n];
      HandleKeysPrefixError(docs, down, hashes, keys[..|keys| - 1], n);
    } else {
      assert keys[..n] == keys;
    }
  }

  /** A failed run stopped at a key that failed: every key before it was
      handled, and nothing after it was written. */
  lemma {:induction false} HandleKeysStopsAtFailure(docs: map<RecordKey, Doc>, down: bool, hashes: Hashes,
                                                   keys: seq<string>)
    ensures var (r, after) := HandleKeys(docs, down, hashes, keys);
      r.Err? ==>
        exists i :: 0 <= i < |keys| && HandleKeys(docs, down, hashes, keys[..i]).0.Ok? &&
          var (ri, di) := HandleKey(HandleKeys(docs, down, hashes, keys[..i]).1, down, hashes, keys[i]);
          ri.Err? && ri == r && di == after
  {
    if |keys| > 0 {
      var init := keys[..|keys| - 1];
      HandleKeysStopsAtFailure(docs, down, hashes, init);
      var (r0, d0) := HandleKeys(docs, down, hashes, init);
      if r0.Err? {
        var i :| 0 <= i < |init| && HandleKeys(docs, down, hashes, init[..i]).0.Ok? &&
          var (ri, di) := HandleKey(HandleKeys(docs, down, hashes, init[..i]).1, down, hashes, init[i]);
          ri.Err? && ri == r0 && di == d0;
        assert init[..i] == keys[..i] && init[i] == keys[i];
      } else {
        assert keys[..|keys| - 1] == init;
      }
    }
  }

  /** The scan's pages in turn (the last one brought the cursor back to 0);
      a failed `SCAN` ends it with the error. */
  function ScanPages(docs: map<RecordKey, Doc>, down: bool, hashes: Hashes, pages: seq<Result<seq<string>>>)
    : (Result<()>, map<RecordKey, Doc>)
  {
    if |pages| == 0 then (Ok(()), docs)
    else
      var (r, d) := ScanPages(docs, down, hashes, pages[..|pages| - 1]);
      if r.Err? then (r, d)
      else
        match pages[|pages| - 1]
        case Err(e) => (Err(e), d)
        case Ok(keys) => HandleKeys(d, down, hashes, keys)
  }

  lemma {:induction false} ScanPagesPrefixError(docs: map<RecordKey, Doc>, down: bool, hashes: Hashes,
                                                pages: seq<Result<seq<string>>>, n: nat)
    requires n <= |pages| && ScanPages(docs, down, hashes, pages[..n]).0.Err?
    ensures ScanPages(docs, down, hashes, pages) == ScanPages(docs, down, hashes, pages[..n])
    decreases |pages|
  {
    if n < |pages| {
      assert pages[..|pages| - 1][..n] == pages[..n];
      ScanPagesPrefixError(docs, down, hashes, pages[..|pages| - 1], n);
    } else {
      assert pages[..n] == pages;
    }
  }

  /** `scanRead` over the store: `pages` are the `SCAN` results in turn. */
  method ScanRead(store: SeqUserMongo, hashes: Hashes, pages: seq<Result<seq<string>>>) returns (r: Result<()>)
    requires store.Valid()
    modifies store
    ensures store.Valid() && store.down == old(store.down)
    ensures (r, store.docs) == ScanPages(old(store.docs), store.down, hashes, pages)
  {
    ghost var docs0 := store.docs;
    for p := 0 to |pages|
      invariant store.Valid() && store.down == old(store.down)
      invariant ScanPages(docs0, store.down, hashes, pages[..p]) == (Ok(()), store.docs)
    {
      assert pages[..p + 1][..p] == pages[..p];
      if pages[p].Err? {
        ScanPagesPrefixError(docs0, store.down, hashes, pages, p + 1);
        return Err(pages[p].kind);
      }
      r := HandlerKeys(store, hashes, pages[p].value);
      if r.Err? {
        ScanPagesPrefixError(docs0, store.down, hashes, pages, p + 1);
        return;
      }
    }
    assert pages[..|pages|] == pages;
    r := Ok(());
  }

  /** One page of keys, handled in order until one fails. */
  method HandlerKeys(store: SeqUserMongo, hashes: Hashes, keys: seq<string>) returns (r: Result<()>)
    requires store.Valid()
    modifies store
    ensures store.Valid() && store.down == old(store.down)
    ensures (r, store.docs) == HandleKeys(old(store.docs), store.down, hashes, keys)
  {
    ghost var start := store.docs;
    for k := 0 to |keys|
      invariant store.Valid() && store.down == old(store.down)
      invariant HandleKeys(start, store.down, hashes, keys[..k]) == (Ok(()), store.docs)
    {
      assert keys[..k + 1][..k] == keys[..k];
      r := HandlerKey(store, hashes, keys[k]);
      if r.Err? {
        HandleKeysPrefixError(start, store.down, hashes, keys, k + 1);
        return;
      }
    }
    assert keys[..|keys|] == keys;
    r := Ok(());
  }

  /** `handlerKey` over the store. */
  method HandlerKey(store: SeqUserMongo, hashes: Hashes, key: string) returns (r: Result<()>)
    requires store.Valid()
    modifies store
    ensures store.Valid() && store.down == old(store.down)
    ensures (r, store.docs) == HandleKey(old(store.docs), store.down, hashes, key)
  {
    var arr := Split(key, ':');
    if |arr| != 3 {
      return Err(ArgsError);
    }
    var userId := arr[2];
    var conversationId := arr[1];
    if key !in hashes || "value" !in hashes[key] {
      return Ok(());
    }
    var readSeq := Atoi(hashes[key]["value"]);
    if readSeq.None? {
      return Err(InternalServer);
    }
    r := store.SetReadSeq(conversationId, userId, readSeq.value);
  }
}
