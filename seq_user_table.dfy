// The `seq_user` record: one document per (user, conversation) pair holding
// the user's max, min and read seq of that conversation.
module SeqUserTable {
  datatype SeqField = MaxSeq | MinSeq | ReadSeq

  /** The bson name of each seq field. */
  function FieldName(f: SeqField): string
  {
    match f
    case MaxSeq => "max_seq"
    case MinSeq => "min_seq"
    case ReadSeq => "read_seq"
  }

  /** Distinct fields are stored under distinct names. */
  lemma FieldNameInjective(f: SeqField, g: SeqField)
    requires FieldName(f) == FieldName(g)
    ensures f == g
  {
  }

  /** The filter of every read and write: the (user_id, conversation_id) pair. */
  datatype RecordKey = RecordKey(userId: string, conversationId: string)

  /** A stored document: bson field name -> value. */
  type Doc = map<string, int>
}
