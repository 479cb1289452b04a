// The newer Mongo store of per-user seqs: an upsert that sets one field and,
// on insert, fills the two others with 0 (`$setOnInsert`).
module SeqUserStore {
  import opened Common
  import opened SeqUserTable

  /** The `$setOnInsert` document: the three seqs at 0 without the field being set. */
  function InsertDoc(f: SeqField): (d: Doc)
    ensures FieldName(f) !in d
    ensures forall g :: g != f ==> FieldName(g) in d && d[FieldName(g)] == 0
  {
    var all := map["min_seq" := 0, "max_seq" := 0, "read_seq" := 0];
    all - {FieldName(f)}
  }

  /** The collection after `setSeq(c, u, value, f)`. */
  function SetSeqDocs(docs: map<RecordKey, Doc>, c: string, u: string, value: int, f: SeqField): map<RecordKey, Doc>
  {
    var k := RecordKey(u, c);
    if k in docs then docs[k := docs[k][FieldName(f) := value]]
    else docs[k := InsertDoc(f)[FieldName(f) := value]]
  }

  /** What `getSeq(c, u, f)` reads: 0 for a missing record. A record that lacks
      the field is a decoding failure. */
  function GetSeqDocs(docs: map<RecordKey, Doc>, c: string, u: string, f: SeqField): Result<int>
  {
    var k := RecordKey(u, c);
    if k !in docs then Ok(0)
    else if FieldName(f) in docs[k] then Ok(docs[k][FieldName(f)])
    else Err(StorageFailed)
  }

  /** Every record holds all three value fields. */
  ghost predicate Complete(docs: map<RecordKey, Doc>)
  {
    forall k, f :: k in docs ==> FieldName(f) in docs[k]
  }

  /** Reading a field back after setting it gives the value set. */
  lemma GetAfterSet(docs: map<RecordKey, Doc>, c: string, u: string, value: int, f: SeqField)
    ensures GetSeqDocs(SetSeqDocs(docs, c, u, value, f), c, u, f) == Ok(value)
  {
  }

  /** Setting one field leaves the two others as they were, or at 0 for a new record. */
  lemma SetLeavesOtherFields(docs: map<RecordKey, Doc>, c: string, u: string, value: int, f: SeqField, g: SeqField)
    requires f != g
    ensures RecordKey(u, c) in docs ==>
      GetSeqDocs(SetSeqDocs(docs, c, u, value, f), c, u, g) == GetSeqDocs(docs, c, u, g)
    ensures RecordKey(u, c) !in docs ==>
      GetSeqDocs(SetSeqDocs(docs, c, u, value, f), c, u, g) == Ok(0)
  {
    if FieldName(f) == FieldName(g) {
      FieldNameInjective(f, g);
    }
  }

  /** Other (user, conversation) pairs are untouched. */
  lemma SetLeavesOtherRecords(docs: map<RecordKey, Doc>, c: string, u: string, value: int, f: SeqField,
                              c2: string, u2: string, g: SeqField)
    requires c2 != c || u2 != u
    ensures GetSeqDocs(SetSeqDocs(docs, c, u, value, f), c2, u2, g) == GetSeqDocs(docs, c2, u2, g)
  {
  }

  /** Upserts keep every record complete, so reads never fail to decode. */
  lemma SetKeepsComplete(docs: map<RecordKey, Doc>, c: string, u: string, value: int, f: SeqField)
    requires Complete(docs)
    ensures Complete(SetSeqDocs(docs, c, u, value, f))
    ensures forall c2, u2, g :: GetSeqDocs(SetSeqDocs(docs, c, u, value, f), c2, u2, g).Ok?
  {
    var after := SetSeqDocs(docs, c, u, value, f);
    forall k, g | k in after
      ensures FieldName(g) in after[k]
    {
      if k == RecordKey(u, c) && k !in docs && g != f {
        assert FieldName(g) in InsertDoc(f);
      }
    }
  }

  class SeqUserMongo {
    var docs: map<RecordKey, Doc>
    /** Whether the database is unreachable: every call then fails and changes nothing. */
    var down: bool

    ghost predicate Valid()
      reads this
    {
      Complete(docs)
    }

    constructor (unreachable: bool)
      ensures Valid() && docs == map[] && down == unreachable
    {
      docs := map[];
      down := unreachable;
    }

    method SetSeq(c: string, u: string, value: int, f: SeqField) returns (r: Result<()>)
      requires Valid()
      modifies this
      ensures Valid() && down == old(down)
      ensures down ==> r == Err(StorageFailed) && docs == old(docs)
      ensures !down ==> r == Ok(()) && docs == SetSeqDocs(old(docs), c, u, value, f)
    {
      if down {
        return Err(StorageFailed);
      }
      SetKeepsComplete(docs, c, u, value, f);
      var k := RecordKey(u, c);
      if k in docs {
        docs := docs[k := docs[k][FieldName(f) := value]];
      } else {
        // The identifying fields are the record's key; the seq fields start at 0.
        var insert := map["min_seq" := 0, "max_seq" := 0, "read_seq" := 0];
        insert := insert - {FieldName(f)};
        assert insert == InsertDoc(f);
        docs := docs[k := insert[FieldName(f) := value]];
      }
      r := Ok(());
    }

    method GetSeq(c: string, u: string, f: SeqField) returns (r: Result<int>)
      requires Valid()
      ensures down ==> r == Err(StorageFailed)
      ensures !down ==> r == GetSeqDocs(docs, c, u, f) && r.Ok?
    {
      if down {
        return Err(StorageFailed);
      }
      var k := RecordKey(u, c);
      if k !in docs {
        return Ok(0);
      }
      r := Ok(docs[k][FieldName(f)]);
    }

    method GetMaxSeq(c: string, u: string) returns (r: Result<int>)
      requires Valid()
      ensures r == (if down then Err(StorageFailed) else GetSeqDocs(docs, c, u, MaxSeq))
    {
      r := GetSeq(c, u, MaxSeq);
    }

    method SetMaxSeq(c: string, u: string, value: int) returns (r: Result<()>)
      requires Valid()
      modifies this
      ensures Valid() && down == old(down)
      ensures docs == (if down then old(docs) else SetSeqDocs(old(docs), c, u, value, MaxSeq))
      ensures r == (if down then Err(StorageFailed) else Ok(()))
    {
      r := SetSeq(c, u, value, MaxSeq);
    }

    method GetMinSeq(c: string, u: string) returns (r: Result<int>)
      requires Valid()
      ensures r == (if down then Err(StorageFailed) else GetSeqDocs(docs, c, u, MinSeq))
    {
      r := GetSeq(c, u, MinSeq);
    }

    method SetMinSeq(c: string, u: string, value: int) returns (r: Result<()>)
      requires Valid()
      modifies this
      ensures Valid() && down == old(down)
      ensures docs == (if down then old(docs) else SetSeqDocs(old(docs), c, u, value, MinSeq))
      ensures r == (if down then Err(StorageFailed) else Ok(()))
    {
      r := SetSeq(c, u, value, MinSeq);
    }

    method GetReadSeq(c: string, u: string) returns (r: Result<int>)
      requires Valid()
      ensures r == (if down then Err(StorageFailed) else GetSeqDocs(docs, c, u, ReadSeq))
    {
      r := GetSeq(c, u, ReadSeq);
    }

    method SetReadSeq(c: string, u: string, value: int) returns (r: Result<()>)
      requires Valid()
      modifies this
      ensures Valid() && down == old(down)
      ensures docs == (if down then old(docs) else SetSeqDocs(old(docs), c, u, value, ReadSeq))
      ensures r == (if down then Err(StorageFailed) else Ok(()))
    {
      r := SetSeq(c, u, value, ReadSeq);
    }
  }
}
