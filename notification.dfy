// The notification sender: the session type each notification travels in, and
// the message `NotificationWithSesstionType` builds and hands to the send call.
module Notification {
  import opened Common
  import opened Protocol

  /** The session type a notification's content type maps to; a content type
      the table does not list maps to Go's zero value. */
  function SessionTypeOf(ct: ContentType): SessionType
  {
    match ct
    case GroupCreatedNotification => SuperGroupChatType
    case GroupInfoSetNotification => SuperGroupChatType
    case JoinGroupApplicationNotification => SingleChatType
    case MemberQuitNotification => SuperGroupChatType
    case GroupApplicationAcceptedNotification => SingleChatType
    case GroupApplicationRejectedNotification => SingleChatType
    case GroupOwnerTransferredNotification => SuperGroupChatType
    case MemberKickedNotification => SuperGroupChatType
    case MemberInvitedNotification => SuperGroupChatType
    case MemberEnterNotification => SuperGroupChatType
    case GroupDismissedNotification => SuperGroupChatType
    case GroupMutedNotification => SuperGroupChatType
    case GroupCancelMutedNotification => SuperGroupChatType
    case GroupMemberMutedNotification => SuperGroupChatType
    case GroupMemberCancelMutedNotification => SuperGroupChatType
    case GroupMemberInfoSetNotification => SuperGroupChatType
    case GroupMemberSetToAdminNotification => SuperGroupChatType
    case GroupMemberSetToOrdinaryUserNotification => SuperGroupChatType
    case GroupInfoSetAnnouncementNotification => SuperGroupChatType
    case GroupInfoSetNameNotification => SuperGroupChatType
    case UserInfoUpdatedNotification => SingleChatType
    case UserStatusChangeNotification => SingleChatType
    case FriendApplicationNotification => SingleChatType
    case FriendApplicationApprovedNotification => SingleChatType
    case FriendApplicationRejectedNotification => SingleChatType
    case FriendAddedNotification => SingleChatType
    case FriendDeletedNotification => SingleChatType
    case FriendRemarkSetNotification => SingleChatType
    case BlackAddedNotification => SingleChatType
    case BlackDeletedNotification => SingleChatType
    case FriendInfoUpdatedNotification => SingleChatType
    case FriendsInfoUpdateNotification => SingleChatType
    case ConversationChangeNotification => SingleChatType
    case ConversationUnreadNotification => SingleChatType
    case ConversationPrivateChatNotification => SingleChatType
    case DeleteMsgsNotification => SingleChatType
    case _ => Unset
  }

  /** The group notifications a group's members receive in the group. */
  predicate IsGroupBroadcast(ct: ContentType)
  {
    ct in {GroupCreatedNotification, GroupInfoSetNotification, MemberQuitNotification,
           GroupOwnerTransferredNotification, MemberKickedNotification, MemberInvitedNotification,
           MemberEnterNotification, GroupDismissedNotification, GroupMutedNotification,
           GroupCancelMutedNotification, GroupMemberMutedNotification, GroupMemberCancelMutedNotification,
           GroupMemberInfoSetNotification, GroupMemberSetToAdminNotification,
           GroupMemberSetToOrdinaryUserNotification, GroupInfoSetAnnouncementNotification,
           GroupInfoSetNameNotification}
  }

  /** The join-request notifications, which go to one user. */
  predicate IsGroupApplication(ct: ContentType)
  {
    ct in {JoinGroupApplicationNotification, GroupApplicationAcceptedNotification, GroupApplicationRejectedNotification}
  }

  /** The user, friend, conversation and delete notifications. */
  predicate IsPersonal(ct: ContentType)
  {
    ct in {UserInfoUpdatedNotification, UserStatusChangeNotification, FriendApplicationNotification,
           FriendApplicationApprovedNotification, FriendApplicationRejectedNotification, FriendAddedNotification,
           FriendDeletedNotification, FriendRemarkSetNotification, BlackAddedNotification, BlackDeletedNotification,
           FriendInfoUpdatedNotification, FriendsInfoUpdateNotification, ConversationChangeNotification,
           ConversationUnreadNotification, ConversationPrivateChatNotification, DeleteMsgsNotification}
  }

  /** The table by family: group broadcasts travel in the super group, join
      requests and personal notifications one to one, anything else (read
      receipts and revokes among them) has no session type. */
  lemma SessionTypeFamilies(ct: ContentType)
    ensures IsGroupBroadcast(ct) <==> SessionTypeOf(ct) == SuperGroupChatType
    ensures IsGroupApplication(ct) || IsPersonal(ct) <==> SessionTypeOf(ct) == SingleChatType
    ensures SessionTypeOf(HasReadReceipt) == Unset && SessionTypeOf(MsgRevokeNotification) == Unset
    ensures SessionTypeOf(ct) != GroupChatType && SessionTypeOf(ct) != NotificationChatType
  {
  }

  datatype ReliabilityLevel = ReliabilityUnset | UnreliableNotification | ReliableNotificationNoMsg | ReliableNotificationMsg

  /** A notification's configured behaviour. */
  datatype NotificationConf = NotificationConf(isSendMsg: bool, reliabilityLevel: ReliabilityLevel)

  /** The content-type table: configured entries come from `configured`; the
      message notifications are fixed. A type in neither gets the zero value. */
  function ContentTypeConf(configured: ContentType -> Option<NotificationConf>, ct: ContentType): NotificationConf
  {
    if ct == MsgRevokeNotification || ct == HasReadReceipt || ct == DeleteMsgsNotification then
      NotificationConf(false, ReliableNotificationNoMsg)
    else match configured(ct)
      case Some(c) => c
      case None => NotificationConf(false, ReliabilityUnset)
  }

  /** The configuration a notification is sent with: a read receipt to oneself
      is downgraded to unreliable. */
  function OptionsConfig(configured: ContentType -> Option<NotificationConf>, sendId: string, recvId: string,
                         ct: ContentType): (r: NotificationConf)
    ensures r.isSendMsg == ContentTypeConf(configured, ct).isSendMsg
    ensures sendId == recvId && ct == HasReadReceipt ==> r.reliabilityLevel == UnreliableNotification
    ensures !(sendId == recvId && ct == HasReadReceipt) ==> r == ContentTypeConf(configured, ct)
  {
    var c := ContentTypeConf(configured, ct);
    if sendId == recvId && ct == HasReadReceipt then c.(reliabilityLevel := UnreliableNotification) else c
  }

  /** `SetOptionsByContentType`. */
  function SetOptionsByContentType(options: map<OptionKey, bool>, ct: ContentType): (r: map<OptionKey, bool>)
    ensures ct == UserStatusChangeNotification ==> !Switch(r, IsSenderSync) && r == options[IsSenderSync := false]
    ensures ct != UserStatusChangeNotification ==> r == options
  {
    if ct == UserStatusChangeNotification then options[IsSenderSync := false] else options
  }

  datatype UserInfo = UserInfo(nickname: string, faceUrl: string)

  /** What a sender is configured with: the content-type table, the mapping
      from a configuration to message options, and the user lookup if set. */
  datatype Sender = Sender(configured: ContentType -> Option<NotificationConf>,
                           optionsOf: NotificationConf -> map<OptionKey, bool>,
                           getUserInfo: Option<string -> Result<UserInfo>>)

  /** `NotificationWithSesstionType`: the message handed to the send call.
      `content` is the encoded notification element; `withRpcGetUsername` the
      per-call option. */
  function NotificationWithSessionType(s: Sender, sendId: string, recvId: string, ct: ContentType,
                                       sessionType: SessionType, content: string,
                                       withRpcGetUsername: bool): Result<MsgData>
  {
    var info := if withRpcGetUsername && s.getUserInfo.Some? then s.getUserInfo.value(sendId) else Ok(UserInfo("", ""));
    match info
    case Err(e) => Err(e)
    case Ok(user) =>
      var options := SetOptionsByContentType(s.optionsOf(OptionsConfig(s.configured, sendId, recvId, ct)), ct);
      Ok(MsgData(
        sendId := sendId,
        recvId := recvId,
        groupId := if sessionType == SuperGroupChatType then recvId else "",
        senderNickname := user.nickname,
        senderFaceUrl := user.faceUrl,
        content := content,
        msgFrom := SysMsgType,
        contentType := ct,
        sessionType := sessionType,
        sendTime := 0,
        options := options,
        offlinePushInfo := Some(OfflinePushInfo("", "", "", "", false))))
  }

  /** `Notification`: the session type is the one the table maps the content
      type to. */
  function Notification(s: Sender, sendId: string, recvId: string, ct: ContentType, content: string,
                        withRpcGetUsername: bool): (r: Result<MsgData>)
    ensures r.Ok? ==> r.value.sessionType == SessionTypeOf(ct)
    ensures r.Ok? && IsGroupBroadcast(ct) ==> r.value.groupId == recvId
  {
    SessionTypeFamilies(ct);
    NotificationWithSessionType(s, sendId, recvId, ct, SessionTypeOf(ct), content, withRpcGetUsername)
  }

  /** The built message: a system message carrying the sender, receiver,
      content, content type and session type given; the group ID is the
      receiver exactly for a super-group session; the sender's name and face
      are looked up only when asked for and a lookup is set, and only that
      lookup can fail; the options are the configured ones, with sender sync
      off for a user-status change. */
  lemma NotificationWithSessionTypeSpec(s: Sender, sendId: string, recvId: string, ct: ContentType,
                                        sessionType: SessionType, content: string, withRpcGetUsername: bool)
    ensures var r := NotificationWithSessionType(s, sendId, recvId, ct, sessionType, content, withRpcGetUsername);
      var lookup := withRpcGetUsername && s.getUserInfo.Some?;
      (r.Err? <==> lookup && s.getUserInfo.value(sendId).Err?) &&
      (r.Ok? ==>
        r.value.sendId == sendId && r.value.recvId == recvId && r.value.content == content &&
        r.value.contentType == ct && r.value.sessionType == sessionType && r.value.msgFrom == SysMsgType &&
        (r.value.groupId == recvId || (r.value.groupId == "" && sessionType != SuperGroupChatType)) &&
        (sessionType == SuperGroupChatType ==> r.value.groupId == recvId) &&
        (!lookup ==> r.value.senderNickname == "" && r.value.senderFaceUrl == "") &&
        (lookup ==> r.value.senderNickname == s.getUserInfo.value(sendId).value.nickname) &&
        (ct == UserStatusChangeNotification ==> !Switch(r.value.options, IsSenderSync)) &&
        (ct != UserStatusChangeNotification ==>
          r.value.options == s.optionsOf(OptionsConfig(s.configured, sendId, recvId, ct))))
  {
  }
}
