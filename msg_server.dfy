// The message server's receiver rule and its chain of send interceptors.
module MsgServer {
  import opened Common
  import opened Protocol

  datatype Conversation = Conversation(conversationType: SessionType, ownerUserId: string, userId: string, groupId: string)

  /** `conversationAndGetRecvID`: for a single or notification chat the party
      other than `userId` (the peer when `userId` owns the conversation, the
      owner otherwise); for a super group the group; otherwise nothing. */
  function RecvId(conversation: Conversation, userId: string): string
  {
    var t := conversation.conversationType;
    if t == SingleChatType || t == NotificationChatType then
      if userId == conversation.ownerUserId then conversation.userId else conversation.ownerUserId
    else if t == SuperGroupChatType then conversation.groupId
    else ""
  }

  /** For a one-to-one conversation between two different users, asked by
      either of them, the receiver is the other one; a super group's receiver
      is its group; any other type has none. */
  lemma RecvIdSpec(conversation: Conversation, userId: string)
    ensures var t := conversation.conversationType;
      ((t == SingleChatType || t == NotificationChatType) &&
        conversation.ownerUserId != conversation.userId &&
        (userId == conversation.ownerUserId || userId == conversation.userId) ==>
          RecvId(conversation, userId) != userId &&
          (RecvId(conversation, userId) == conversation.ownerUserId || RecvId(conversation, userId) == conversation.userId)) &&
      (t == SuperGroupChatType ==> RecvId(conversation, userId) == conversation.groupId) &&
      (t != SingleChatType && t != NotificationChatType && t != SuperGroupChatType ==> RecvId(conversation, userId) == "")
  {
  }

  /** An interceptor: the message it lets through (possibly rewritten), or an error. */
  type Interceptor = MsgData -> Result<MsgData>

  /** The request's message after a run of the chain, the error that stopped it
      if any, and how many interceptors were called. */
  datatype ChainOutcome = ChainOutcome(msgData: MsgData, err: Option<ErrorKind>, ran: nat)

  /** The handlers in order, each given the previous one's message, stopping at
      the first error (the message keeps the last accepted rewrite). */
  function RunChain(hs: seq<Interceptor>, m: MsgData): (r: ChainOutcome)
    ensures r.ran <= |hs|
    ensures r.err.None? ==> r.ran == |hs|
  {
    if |hs| == 0 then ChainOutcome(m, None, 0)
    else
      var prev := RunChain(hs[..|hs| - 1], m);
      if prev.err.Some? then prev
      else
        match hs[|hs| - 1](prev.msgData)
        case Err(e) => ChainOutcome(prev.msgData, Some(e), |hs|)
        case Ok(m') => ChainOutcome(m', None, |hs|)
  }

  /** Running a chain extended at the end is running the old chain, then the
      new handlers on its result unless it failed. */
  lemma {:induction false} RunChainAppend(hs: seq<Interceptor>, fs: seq<Interceptor>, m: MsgData)
    ensures var first := RunChain(hs, m);
      RunChain(hs + fs, m) ==
        if first.err.Some? then first
        else var rest := RunChain(fs, first.msgData); rest.(ran := |hs| + rest.ran)
    decreases |fs|
  {
    if |fs| > 0 {
      assert (hs + fs)[..|hs + fs| - 1] == hs + fs[..|fs| - 1];
      RunChainAppend(hs, fs[..|fs| - 1], m);
    } else {
      assert hs + fs == hs;
    }
  }

  /** The chain stops at its first error: every handler before the one that
      failed accepted, and that one rejected the message the others produced. */
  lemma {:induction false} RunChainStopsAtFirstError(hs: seq<Interceptor>, m: MsgData)
    requires RunChain(hs, m).err.Some?
    ensures var r := RunChain(hs, m);
      r.ran > 0 && RunChain(hs[..r.ran - 1], m).err.None? &&
      RunChain(hs[..r.ran - 1], m).msgData == r.msgData &&
      hs[r.ran - 1](r.msgData) == Err(r.err.value)
  {
    var prev := RunChain(hs[..|hs| - 1], m);
    if prev.err.Some? {
      RunChainStopsAtFirstError(hs[..|hs| - 1], m);
      assert hs[..|hs| - 1][..prev.ran - 1] == hs[..prev.ran - 1];
    } else {
      assert RunChain(hs, m).ran == |hs|;
    }
  }

  class MsgServer {
    var handlers: seq<Interceptor>

    constructor ()
      ensures handlers == []
    {
      handlers := [];
    }

    /** `addInterceptorHandler`: the new handlers run after the existing ones. */
    method AddInterceptorHandler(fs: seq<Interceptor>)
      modifies this
      ensures handlers == old(handlers) + fs
    {
      handlers := handlers + fs;
    }

    /** `execInterceptorHandler`: the request's message after the chain, and
        the error that stopped it. */
    method ExecInterceptorHandler(req: MsgData) returns (err: Option<ErrorKind>, msgData: MsgData)
      ensures err == RunChain(handlers, req).err
      ensures msgData == RunChain(handlers, req).msgData
    {
      msgData := req;
      for i := 0 to |handlers|
        invariant RunChain(handlers[..i], req) == ChainOutcome(msgData, None, i)
      {
        assert handlers[..i + 1][..i] == handlers[..i];
        var res := handlers[i](msgData);
        if res.Err? {
          assert RunChain(handlers[..i + 1], req).err == Some(res.kind);
          ChainPrefixError(handlers, req, i + 1);
          return Some(res.kind), msgData;
        }
        msgData := res.value;
      }
      assert handlers[..|handlers|] == handlers;
      err := None;
    }
  }

  /** Once a prefix of the chain fails, the whole chain ends the same way. */
  lemma ChainPrefixError(hs: seq<Interceptor>, m: MsgData, n: nat)
    requires n <= |hs| && RunChain(hs[..n], m).err.Some?
    ensures RunChain(hs, m) == RunChain(hs[..n], m)
  {
    RunChainAppend(hs[..n], hs[n..], m);
    assert hs[..n] + hs[n..] == hs;
  }
}
