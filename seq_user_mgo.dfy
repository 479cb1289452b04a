// The older Mongo store of per-user seqs: an upsert that `$set`s one field
// only, so a record created by a set holds just that field.
module SeqUserMgo {
  import opened Common
  import opened SeqUserTable

  /** The collection after `setSeq(c, u, f, value)`. */
  function SetSeqDocs(docs: map<RecordKey, Doc>, c: string, u: string, f: SeqField, value: int): map<RecordKey, Doc>
  {
    var k := RecordKey(u, c);
    var d := if k in docs then docs[k] else map[];
    docs[k := d[FieldName(f) := value]]
  }

  /** What `getSeq(c, u, f)` reads: 0 for a missing record. A record that lacks
      the field is a decoding failure. */
  function GetSeqDocs(docs: map<RecordKey, Doc>, c: string, u: string, f: SeqField): Result<int>
  {
    var k := RecordKey(u, c);
    if k !in docs then Ok(0)
    else if FieldName(f) in docs[k] then Ok(docs[k][FieldName(f)])
    else Err(StorageFailed)
  }

  /** Reading a field back after setting it gives the value set. */
  lemma GetAfterSet(docs: map<RecordKey, Doc>, c: string, u: string, f: SeqField, value: int)
    ensures GetSeqDocs(SetSeqDocs(docs, c, u, f, value), c, u, f) == Ok(value)
  {
  }

  /** A set touches its own field only: every other field of every record,
      present or not, is as it was. */
  lemma SetLeavesEverythingElse(docs: map<RecordKey, Doc>, c: string, u: string, f: SeqField, value: int,
                                c2: string, u2: string, g: SeqField)
    requires RecordKey(u2, c2) != RecordKey(u, c) || g != f
    ensures var after := SetSeqDocs(docs, c, u, f, value);
      var k := RecordKey(u2, c2);
      (k in after && FieldName(g) in after[k]) <==> (k in docs && FieldName(g) in docs[k])
    ensures RecordKey(u2, c2) in docs ==>
      GetSeqDocs(SetSeqDocs(docs, c, u, f, value), c2, u2, g) == GetSeqDocs(docs, c2, u2, g)
  {
    if FieldName(f) == FieldName(g) {
      FieldNameInjective(f, g);
    }
  }

  class SeqUserMongo {
    var docs: map<RecordKey, Doc>
    /** Whether the database is unreachable: every call then fails and changes nothing. */
    var down: bool

    constructor (unreachable: bool)
      ensures docs == map[] && down == unreachable
    {
      docs := map[];
      down := unreachable;
    }

    method SetSeq(c: string, u: string, f: SeqField, value: int) returns (r: Result<()>)
      modifies this
      ensures down == old(down)
      ensures down ==> r == Err(StorageFailed) && docs == old(docs)
      ensures !down ==> r == Ok(()) && docs == SetSeqDocs(old(docs), c, u, f, value)
    {
      if down {
        return Err(StorageFailed);
      }
      var k := RecordKey(u, c);
      if k in docs {
        docs := docs[k := docs[k][FieldName(f) := value]];
      } else {
        docs := docs[k := map[FieldName(f) := value]];
      }
      r := Ok(());
    }

    method GetSeq(c: string, u: string, f: SeqField) returns (r: Result<int>)
      ensures r == (if down then Err(StorageFailed) else GetSeqDocs(docs, c, u, f))
    {
      if down {
        return Err(StorageFailed);
      }
      var k := RecordKey(u, c);
      if k !in docs {
        return Ok(0);
      }
      if FieldName(f) !in docs[k] {
        return Err(StorageFailed);
      }
      r := Ok(docs[k][FieldName(f)]);
    }

    method SetReadSeq(c: string, u: string, value: int) returns (r: Result<()>)
      modifies this
      ensures down == old(down) && r == (if down then Err(StorageFailed) else Ok(()))
      ensures docs == (if down then old(docs) else SetSeqDocs(old(docs), c, u, ReadSeq, value))
    {
      r := SetSeq(c, u, ReadSeq, value);
    }

    method SetMaxSeq(c: string, u: string, value: int) returns (r: Result<()>)
      modifies this
      ensures down == old(down) && r == (if down then Err(StorageFailed) else Ok(()))
      ensures docs == (if down then old(docs) else SetSeqDocs(old(docs), c, u, MaxSeq, value))
    {
      r := SetSeq(c, u, MaxSeq, value);
    }

    method SetMinSeq(c: string, u: string, value: int) returns (r: Result<()>)
      modifies this
      ensures down == old(down) && r == (if down then Err(StorageFailed) else Ok(()))
      ensures docs == (if down then old(docs) else SetSeqDocs(old(docs), c, u, MinSeq, value))
    {
      r := SetSeq(c, u, MinSeq, value);
    }

    method GetReadSeq(c: string, u: string) returns (r: Result<int>)
      ensures r == (if down then Err(StorageFailed) else GetSeqDocs(docs, c, u, ReadSeq))
    {
      r := GetSeq(c, u, ReadSeq);
    }

    method GetMaxSeq(c: string, u: string) returns (r: Result<int>)
      ensures r == (if down then Err(StorageFailed) else GetSeqDocs(docs, c, u, MaxSeq))
    {
      r := GetSeq(c, u, MaxSeq);
    }

    method GetMinSeq(c: string, u: string) returns (r: Result<int>)
      ensures r == (if down then Err(StorageFailed) else GetSeqDocs(docs, c, u, MinSeq))
    {
      r := GetSeq(c, u, MinSeq);
    }
  }
}
