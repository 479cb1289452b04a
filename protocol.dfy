// The message shapes and protocol constants shared by the push handler, the
// message server and the notification sender. Numeric codes are not claimed:
// every constant is an enumerator, and codes the server does not name are `Other…`.
module Protocol {
  import opened Common

  /** Conversation / session types. `Unset` is Go's zero value, which a lookup
      of an unlisted content type in a session table yields. The push handler's
      `ReadGroupChatType` is the same constant as `SuperGroupChatType`. */
  datatype SessionType = Unset | SingleChatType | GroupChatType | SuperGroupChatType | NotificationChatType

  datatype ContentType =
    | Text | Picture | Voice | Video | File | AtText
    | SignalingNotification | HasReadReceipt | MsgRevokeNotification | DeleteMsgsNotification
    | GroupCreatedNotification | GroupInfoSetNotification | JoinGroupApplicationNotification
    | MemberQuitNotification | GroupApplicationAcceptedNotification | GroupApplicationRejectedNotification
    | GroupOwnerTransferredNotification | MemberKickedNotification | MemberInvitedNotification
    | MemberEnterNotification | GroupDismissedNotification | GroupMutedNotification
    | GroupCancelMutedNotification | GroupMemberMutedNotification | GroupMemberCancelMutedNotification
    | GroupMemberInfoSetNotification | GroupMemberSetToAdminNotification
    | GroupMemberSetToOrdinaryUserNotification | GroupInfoSetAnnouncementNotification
    | GroupInfoSetNameNotification
    | UserInfoUpdatedNotification | UserStatusChangeNotification
    | FriendApplicationNotification | FriendApplicationApprovedNotification
    | FriendApplicationRejectedNotification | FriendAddedNotification | FriendDeletedNotification
    | FriendRemarkSetNotification | BlackAddedNotification | BlackDeletedNotification
    | FriendInfoUpdatedNotification | FriendsInfoUpdateNotification
    | ConversationChangeNotification | ConversationUnreadNotification
    | ConversationPrivateChatNotification
    | OtherContent(code: int)

  /** Keys of a message's option switches. */
  datatype OptionKey = IsSenderSync | IsOfflinePush | OtherOption(name: string)

  datatype MsgFrom = UserMsgType | SysMsgType

  datatype OfflinePushInfo = OfflinePushInfo(title: string, desc: string, ex: string, iosPushSound: string, iosBadgeCount: bool)

  datatype MsgData = MsgData(
    sendId: string,
    recvId: string,
    groupId: string,
    senderNickname: string,
    senderFaceUrl: string,
    content: string,
    msgFrom: MsgFrom,
    contentType: ContentType,
    sessionType: SessionType,
    sendTime: int,
    options: map<OptionKey, bool>,
    offlinePushInfo: Option<OfflinePushInfo>)

  /** `datautil.GetSwitchFromOptions`: a switch is on unless it is present and false. */
  predicate Switch(options: map<OptionKey, bool>, key: OptionKey)
  {
    key !in options || options[key]
  }
}
