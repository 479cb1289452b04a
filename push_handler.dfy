// The push consumer: the read-mark aggregation of `loopRead`, the read receipt
// taken out of a message, the age and recipient rules applied to a pushed
// message, and the offline-push gate and texts.
module PushHandler {
  import opened Common
  import opened Protocol

  // ---------------------------------------------------------------------------
  // loopRead: the highest read seq per (conversation, user), the seq last sent
  // on, and the number of idle ticks since.

  datatype MarkKey = MarkKey(conversationId: string, userId: string)
  datatype MarkSeq = MarkSeq(readSeq: int, markSeq: int, count: int)
  datatype AsyncRequest = AsyncRequest(conversationId: string, userId: string, readSeq: int)
  datatype MarkAsReadTips = MarkAsReadTips(conversationId: string, markAsReadUserId: string, hasReadSeq: int, seqs: seq<int>)

  /** Idle ticks an entry survives. */
  const MaxIdleTicks: int := 6

  function KeyOf(t: MarkAsReadTips): MarkKey { MarkKey(t.conversationId, t.markAsReadUserId) }

  /** A read seq above the one last sent on. */
  predicate Pending(s: MarkSeq) { s.markSeq < s.readSeq }

  /** The map after one read tip: a non-positive tip is ignored; otherwise the
      key's read seq becomes the larger of the two, a new key starting with mark
      seq 0. Nothing else changes. */
  function Tip(m: map<MarkKey, MarkSeq>, t: MarkAsReadTips): (r: map<MarkKey, MarkSeq>)
    ensures t.hasReadSeq <= 0 ==> r == m
    ensures t.hasReadSeq > 0 ==> KeyOf(t) in r && r.Keys == m.Keys + {KeyOf(t)}
    ensures t.hasReadSeq > 0 && KeyOf(t) in m ==>
      r[KeyOf(t)] == m[KeyOf(t)].(readSeq := if m[KeyOf(t)].readSeq < t.hasReadSeq then t.hasReadSeq else m[KeyOf(t)].readSeq)
    ensures t.hasReadSeq > 0 && KeyOf(t) !in m ==> r[KeyOf(t)] == MarkSeq(t.hasReadSeq, 0, 0)
    ensures forall k :: k in m && k != KeyOf(t) ==> r[k] == m[k]
  {
    if t.hasReadSeq <= 0 then m
    else
      var key := KeyOf(t);
      if key in m then
        var ms := m[key];
        m[key := if ms.readSeq < t.hasReadSeq then ms.(readSeq := t.hasReadSeq) else ms]
      else m[key := MarkSeq(t.hasReadSeq, 0, 0)]
  }

  /** The map after a sequence of tips, in arrival order. */
  function Tips(m: map<MarkKey, MarkSeq>, ts: seq<MarkAsReadTips>): map<MarkKey, MarkSeq>
  {
    if |ts| == 0 then m else Tip(Tips(m, ts[..|ts| - 1]), ts[|ts| - 1])
  }

  /** The largest positive seq among the tips for `k`. */
  function MaxPositive(ts: seq<MarkAsReadTips>, k: MarkKey): (r: Option<int>)
    ensures r.Some? ==> r.value > 0
    ensures r.Some? ==> exists i :: 0 <= i < |ts| && KeyOf(ts[i]) == k && ts[i].hasReadSeq == r.value
    ensures forall i :: 0 <= i < |ts| && KeyOf(ts[i]) == k && ts[i].hasReadSeq > 0 ==>
      r.Some? && ts[i].hasReadSeq <= r.value
  {
    if |ts| == 0 then None
    else
      var init := MaxPositive(ts[..|ts| - 1], k);
      var t := ts[|ts| - 1];
      assert forall i :: 0 <= i < |ts| - 1 ==> ts[..|ts| - 1][i] == ts[i];
      if KeyOf(t) == k && t.hasReadSeq > 0 && (init.None? || init.value < t.hasReadSeq) then Some(t.hasReadSeq)
      else init
  }

  /** Starting empty, a key has an entry exactly when some positive tip named
      it; its read seq is the largest of those, and no mark has been sent. */
  lemma {:induction false} TipsKeepMaximum(ts: seq<MarkAsReadTips>, k: MarkKey)
    ensures k in Tips(map[], ts) <==> MaxPositive(ts, k).Some?
    ensures k in Tips(map[], ts) ==>
      Tips(map[], ts)[k] == MarkSeq(MaxPositive(ts, k).value, 0, 0)
  {
    if |ts| > 0 {
      TipsKeepMaximum(ts[..|ts| - 1], k);
    }
  }

  /** What a tick leaves of one entry: a pending entry is flushed (mark seq :=
      read seq, count := 0); an idle one counts the tick and is dropped once the
      count exceeds `MaxIdleTicks`. */
  function TickEntry(s: MarkSeq): Option<MarkSeq>
  {
    if Pending(s) then Some(MarkSeq(s.readSeq, s.readSeq, 0))
    else if s.count + 1 > MaxIdleTicks then None
    else Some(s.(count := s.count + 1))
  }

  function Tick(m: map<MarkKey, MarkSeq>): map<MarkKey, MarkSeq>
  {
    map k | k in m && TickEntry(m[k]).Some? :: TickEntry(m[k]).value
  }

  /** The request a tick emits for `m`: one per pending entry, with its read seq. */
  predicate IsPendingRequest(m: map<MarkKey, MarkSeq>, r: AsyncRequest)
  {
    var k := MarkKey(r.conversationId, r.userId);
    k in m && Pending(m[k]) && r.readSeq == m[k].readSeq
  }

  /** After a tick nothing is pending, so a second tick right after emits nothing;
      every flushed entry is kept with its read seq marked. */
  lemma TickFlushes(m: map<MarkKey, MarkSeq>)
    ensures forall k :: k in Tick(m) ==> !Pending(Tick(m)[k])
    ensures forall r :: !IsPendingRequest(Tick(m), r)
    ensures forall k :: k in m && Pending(m[k]) ==>
      k in Tick(m) && Tick(m)[k] == MarkSeq(m[k].readSeq, m[k].readSeq, 0)
  {
  }

  function TickN(m: map<MarkKey, MarkSeq>, n: nat): map<MarkKey, MarkSeq>
  {
    if n == 0 then m else Tick(TickN(m, n - 1))
  }

  lemma {:induction false} IdleTicksCount(m: map<MarkKey, MarkSeq>, k: MarkKey, n: nat)
    requires k in m && !Pending(m[k]) && m[k].count + n <= MaxIdleTicks
    ensures k in TickN(m, n) && TickN(m, n)[k] == m[k].(count := m[k].count + n)
  {
    if n > 0 {
      IdleTicksCount(m, k, n - 1);
    }
  }

  /** An entry that went idle (count 0) survives six more ticks and is gone
      after the seventh. */
  lemma IdleEntryLifetime(m: map<MarkKey, MarkSeq>, k: MarkKey)
    requires k in m && !Pending(m[k]) && m[k].count == 0
    ensures k in TickN(m, 6)
    ensures k !in TickN(m, 7)
  {
    IdleTicksCount(m, k, 6);
  }

  class ReadMarker {
    var maxSeq: map<MarkKey, MarkSeq>

    constructor ()
      ensures maxSeq == map[]
    {
      maxSeq := map[];
    }

    /** A read tip arriving on the channel. */
    method OnTip(tips: MarkAsReadTips)
      modifies this
      ensures maxSeq == Tip(old(maxSeq), tips)
    {
      if tips.hasReadSeq <= 0 {
        return;
      }
      var key := KeyOf(tips);
      if key in maxSeq {
        var ms := maxSeq[key];
        if ms.readSeq < tips.hasReadSeq {
          maxSeq := maxSeq[key := ms.(readSeq := tips.hasReadSeq)];
        }
      } else {
        maxSeq := maxSeq[key := MarkSeq(tips.hasReadSeq, 0, 0)];
      }
    }

    /** A tick: visit every entry once (in any order), flush the pending ones
        into requests, age the idle ones. */
    method OnTick() returns (reqs: seq<AsyncRequest>)
      modifies this
      ensures maxSeq == Tick(old(maxSeq))
      ensures forall r :: r in reqs <==> IsPendingRequest(old(maxSeq), r)
      ensures forall i, j :: 0 <= i < j < |reqs| ==> reqs[i] != reqs[j]
    {
      ghost var m0 := maxSeq;
      var keys := maxSeq.Keys;
      reqs := [];
      while keys != {}
        invariant keys <= m0.Keys
        invariant forall k :: k in keys ==> k in maxSeq && maxSeq[k] == m0[k]
        invariant forall k :: k in maxSeq ==> k in m0
        invariant forall k :: k in m0 && k !in keys ==>
          (k in maxSeq <==> k in Tick(m0)) && (k in maxSeq ==> maxSeq[k] == Tick(m0)[k])
        invariant forall r :: r in reqs <==>
          IsPendingRequest(m0, r) && MarkKey(r.conversationId, r.userId) !in keys
        invariant forall i, j :: 0 <= i < j < |reqs| ==> reqs[i] != reqs[j]
        decreases keys
      {
        var k :| k in keys;
        var s := maxSeq[k];
        if s.markSeq >= s.readSeq {
          var count := s.count + 1;
          if count > MaxIdleTicks {
            maxSeq := maxSeq - {k};
          } else {
            maxSeq := maxSeq[k := s.(count := count)];
          }
        } else {
          maxSeq := maxSeq[k := MarkSeq(s.readSeq, s.readSeq, 0)];
          reqs := reqs + [AsyncRequest(k.conversationId, k.userId, s.readSeq)];
        }
        keys := keys - {k};
      }
      assert maxSeq.Keys == Tick(m0).Keys;
    }
  }

  // ---------------------------------------------------------------------------
  // handlerConversationRead

  /** `hasReadSeq` raised to every seq of the receipt. */
  function MaxSeqOf(hasReadSeq: int, seqs: seq<int>): (r: int)
    ensures r >= hasReadSeq && forall i :: 0 <= i < |seqs| ==> r >= seqs[i]
    ensures r == hasReadSeq || r in seqs
  {
    if |seqs| == 0 then hasReadSeq
    else
      var init := MaxSeqOf(hasReadSeq, seqs[..|seqs| - 1]);
      assert forall i :: 0 <= i < |seqs| - 1 ==> seqs[..|seqs| - 1][i] == seqs[i];
      if init < seqs[|seqs| - 1] then seqs[|seqs| - 1] else init
  }

  /** The read tip a message hands to `loopRead`, if any. Only a read receipt
      whose notification decodes (`decoded`, the JSON decoding being outside the
      model) yields one, with its seqs folded into `hasReadSeq` and cleared; a
      negative result is dropped. */
  method HandlerConversationRead(contentType: ContentType, decoded: Option<MarkAsReadTips>)
    returns (r: Option<MarkAsReadTips>)
    ensures r.Some? <==>
      contentType == HasReadReceipt && decoded.Some? &&
      MaxSeqOf(decoded.value.hasReadSeq, decoded.value.seqs) >= 0
    ensures r.Some? ==>
      r.value == decoded.value.(hasReadSeq := MaxSeqOf(decoded.value.hasReadSeq, decoded.value.seqs), seqs := [])
  {
    if contentType != HasReadReceipt || decoded.None? {
      return None;
    }
    var tips := decoded.value;
    if |tips.seqs| > 0 {
      for i := 0 to |tips.seqs|
        invariant tips.seqs == decoded.value.seqs
        invariant tips == decoded.value.(hasReadSeq := MaxSeqOf(decoded.value.hasReadSeq, tips.seqs[..i]))
      {
        assert tips.seqs[..i + 1][..i] == tips.seqs[..i];
        if tips.hasReadSeq < tips.seqs[i] {
          tips := tips.(hasReadSeq := tips.seqs[i]);
        }
      }
      assert tips.seqs[..|tips.seqs|] == tips.seqs;
      tips := tips.(seqs := []);
    }
    if tips.hasReadSeq < 0 {
      return None;
    }
    r := Some(tips);
  }

  /** A receipt tip, once applied, leaves the key's read seq at or above every
      seq the receipt listed. */
  lemma ReceiptRaisesReadSeq(m: map<MarkKey, MarkSeq>, t: MarkAsReadTips)
    requires MaxSeqOf(t.hasReadSeq, t.seqs) > 0
    ensures var t' := t.(hasReadSeq := MaxSeqOf(t.hasReadSeq, t.seqs), seqs := []);
      KeyOf(t') in Tip(m, t') &&
      forall i :: 0 <= i < |t.seqs| ==> Tip(m, t')[KeyOf(t')].readSeq >= t.seqs[i]
  {
  }

  // ---------------------------------------------------------------------------
  // handleMs2PsChat

  datatype Route = TooOld | ToGroup(groupId: string) | ToUsers(userIds: seq<string>)

  /** The users a single or notification chat message is pushed to: the
      receiver, and the sender too when sender sync is on and they differ. */
  function PushUserIds(msg: MsgData): seq<string>
  {
    if !Switch(msg.options, IsSenderSync) || msg.sendId == msg.recvId then [msg.recvId]
    else [msg.recvId, msg.sendId]
  }

  lemma PushUserIdsSpec(msg: MsgData)
    ensures msg.recvId in PushUserIds(msg)
    ensures msg.sendId in PushUserIds(msg) <==> msg.sendId == msg.recvId || Switch(msg.options, IsSenderSync)
    ensures forall i, j :: 0 <= i < j < |PushUserIds(msg)| ==> PushUserIds(msg)[i] != PushUserIds(msg)[j]
  {
  }

  /** Where `handleMs2PsChat` sends a message at `nowSec` (seconds); the send
      time is in milliseconds and is truncated to seconds. */
  function Ms2PsRoute(msg: MsgData, nowSec: int): Route
  {
    var sec := GoDiv(msg.sendTime, 1000);
    if nowSec - sec > 10 then TooOld
    else if msg.sessionType == SuperGroupChatType then ToGroup(msg.groupId)
    else ToUsers(PushUserIds(msg))
  }

  /** For a non-negative send time, a message is dropped exactly when it was
      sent before the start of second `nowSec - 10`. */
  lemma TooOldIff(msg: MsgData, nowSec: int)
    requires msg.sendTime >= 0
    ensures Ms2PsRoute(msg, nowSec) == TooOld <==> msg.sendTime < (nowSec - 10) * 1000
  {
    var sec := msg.sendTime / 1000;
    assert msg.sendTime == sec * 1000 + msg.sendTime % 1000;
    if sec < nowSec - 10 {
      assert sec + 1 <= nowSec - 10;
      assert (sec + 1) * 1000 <= (nowSec - 10) * 1000;
    } else {
      assert sec * 1000 >= (nowSec - 10) * 1000;
    }
  }

  // ---------------------------------------------------------------------------
  // Offline push

  predicate ShouldPushOffline(msg: MsgData)
  {
    Switch(msg.options, IsOfflinePush) && msg.contentType != SignalingNotification
  }

  datatype SingleMsgToUserResult = SingleMsgToUserResult(userId: string, onlinePush: bool)

  /** The offline-push step of `Push2User` once the online push returned
      `wsResults`: the receiver is pushed offline unless offline push is off or
      some user other than the sender received the message online. */
  method OfflinePushUserIds(msg: MsgData, wsResults: seq<SingleMsgToUserResult>) returns (r: Option<seq<string>>)
    ensures r.Some? <==>
      ShouldPushOffline(msg) &&
      forall i :: 0 <= i < |wsResults| && wsResults[i].userId != msg.sendId ==> !wsResults[i].onlinePush
    ensures r.Some? ==> r.value == [msg.recvId]
  {
    if !ShouldPushOffline(msg) {
      return None;
    }
    for i := 0 to |wsResults|
      invariant forall j :: 0 <= j < i && wsResults[j].userId != msg.sendId ==> !wsResults[j].onlinePush
    {
      if msg.sendId == wsResults[i].userId {
        continue;
      }
      if wsResults[i].onlinePush {
        return None;
      }
    }
    r := Some([msg.recvId]);
  }

  /** Keys of the push-content table (`constant.ContentType2PushContent`). */
  datatype PushContentKey = ContentPush(contentType: ContentType) | SignalMsg | Common

  datatype Opts = Opts(iosBadgeCount: bool, iosPushSound: string, ex: string)

  predicate IsMediaContent(ct: ContentType)
  {
    ct == Text || ct == Picture || ct == Voice || ct == Video || ct == File
  }

  /** The title a message gets when it carries none. An `@` message parses its
      text but leaves the title empty. */
  function DefaultTitle(ct: ContentType, table: PushContentKey -> string): string
  {
    if IsMediaContent(ct) then table(ContentPush(ct))
    else if ct == AtText then ""
    else if ct == SignalingNotification then table(SignalMsg)
    else table(Common)
  }

  /** `getOfflinePushInfos`: title, content and options of the offline push. */
  function OfflinePushInfos(msg: MsgData, table: PushContentKey -> string): (r: (string, string, Opts))
    ensures msg.offlinePushInfo.Some? && msg.offlinePushInfo.value.title != "" ==> r.0 == msg.offlinePushInfo.value.title
    ensures msg.offlinePushInfo.None? || msg.offlinePushInfo.value.title == "" ==> r.0 == DefaultTitle(msg.contentType, table)
    ensures msg.offlinePushInfo.Some? && msg.offlinePushInfo.value.desc != "" ==> r.1 == msg.offlinePushInfo.value.desc
    ensures msg.offlinePushInfo.None? || msg.offlinePushInfo.value.desc == "" ==> r.1 == r.0
    ensures r.1 == "" ==> r.0 == ""
    ensures msg.offlinePushInfo.None? ==> r.2 == Opts(false, "", "")
  {
    var opts := match msg.offlinePushInfo
      case Some(info) => Opts(info.iosBadgeCount, info.iosPushSound, info.ex)
      case None => Opts(false, "", "");
    var title := if msg.offlinePushInfo.Some? then msg.offlinePushInfo.value.title else "";
    var content := if msg.offlinePushInfo.Some? then msg.offlinePushInfo.value.desc else "";
    var title := if title == "" then DefaultTitle(msg.contentType, table) else title;
    var content := if content == "" then title else content;
    (title, content, opts)
  }

  /** An `@` message without push info is pushed with an empty title and body. */
  lemma AtTextPushedEmpty(msg: MsgData, table: PushContentKey -> string)
    requires msg.contentType == AtText && msg.offlinePushInfo.None?
    ensures OfflinePushInfos(msg, table).0 == "" && OfflinePushInfos(msg, table).1 == ""
  {
  }
}
