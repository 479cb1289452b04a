// The validation and permission rules of the group service: who may create,
// kick, mute, quit, transfer, edit members, answer join requests and dismiss.
// The stored group is given as data (its status and the role level of each
// member); the writes that follow a successful check are the store's business,
// except where the rule itself decides what is written.
module GroupRules {
  import opened Common

  // Role levels, group type, status and response codes of the protocol.
  const GroupOwner: int := 100
  const GroupAdmin: int := 60
  const GroupOrdinaryUsers: int := 20
  const WorkingGroup: int := 2
  const GroupStatusDismissed: int := 2
  const GroupResponseAgree: int := 1
  const GroupResponseRefuse: int := -1

  /** The role level of each member of one group, by user ID. */
  type Roles = map<string, int>

  predicate Distinct<T(==)>(s: seq<T>)
  {
    forall i, j :: 0 <= i < j < |s| ==> s[i] != s[j]
  }

  // ---------------------------------------------------------------------------
  // CreateGroup

  datatype NewMember = NewMember(userId: string, roleLevel: int)

  /** The members written and the member count reported. */
  datatype Created = Created(members: seq<NewMember>, memberCount: nat)

  /** Everyone the request names, with the operator appended when not named. */
  function CreateUserIds(memberIds: seq<string>, adminIds: seq<string>, ownerId: string, opUserId: string): seq<string>
  {
    var ids := memberIds + adminIds + [ownerId];
    if opUserId in ids then ids else ids + [opUserId]
  }

  /** The owner, then the admins, then the ordinary members. */
  function MemberList(ownerId: string, adminIds: seq<string>, memberIds: seq<string>): seq<NewMember>
  {
    [NewMember(ownerId, GroupOwner)]
      + seq(|adminIds|, i requires 0 <= i < |adminIds| => NewMember(adminIds[i], GroupAdmin))
      + seq(|memberIds|, i requires 0 <= i < |memberIds| => NewMember(memberIds[i], GroupOrdinaryUsers))
  }

  predicate AllKnown(ids: seq<string>, knownUsers: set<string>)
  {
    forall i :: 0 <= i < |ids| ==> ids[i] in knownUsers
  }

  /** `CreateGroup` as written. `ownerAccess` is the access check on the owner
      (the operator is the owner or an app manager); `knownUsers` the users the
      user service knows. The reported count includes an operator who is not a
      member. */
  function CreateGroup(groupType: int, ownerId: string, memberIds: seq<string>, adminIds: seq<string>,
                       opUserId: string, ownerAccess: bool, knownUsers: set<string>): Result<Created>
  {
    if groupType != WorkingGroup then Err(ArgsError)
    else if ownerId == "" then Err(ArgsError)
    else if !ownerAccess then Err(NoPermission)
    else
      var userIds := CreateUserIds(memberIds, adminIds, ownerId, opUserId);
      if !Distinct(userIds) then Err(ArgsError)
      else if !AllKnown(userIds, knownUsers) then Err(UserIdNotFound)
      else Ok(Created(MemberList(ownerId, adminIds, memberIds), |userIds|))
  }

  /** `CreateGroup` with the count taken from the members written. */
  function CreateGroupIntended(groupType: int, ownerId: string, memberIds: seq<string>, adminIds: seq<string>,
                               opUserId: string, ownerAccess: bool, knownUsers: set<string>): Result<Created>
  {
    match CreateGroup(groupType, ownerId, memberIds, adminIds, opUserId, ownerAccess, knownUsers)
    case Err(e) => Err(e)
    case Ok(c) => Ok(c.(memberCount := |c.members|))
  }

  /** A group is created exactly for a working group with an owner the operator
      may act for, whose named users (operator included) are distinct and known;
      the owner comes first with the owner role, then the admins, then the
      ordinary members, and exactly one member is owner. */
  lemma CreateGroupSpec(groupType: int, ownerId: string, memberIds: seq<string>, adminIds: seq<string>,
                        opUserId: string, ownerAccess: bool, knownUsers: set<string>)
    ensures var r := CreateGroup(groupType, ownerId, memberIds, adminIds, opUserId, ownerAccess, knownUsers);
      var ids := memberIds + adminIds + [ownerId];
      (r.Ok? <==>
        groupType == WorkingGroup && ownerId != "" && ownerAccess && Distinct(ids) &&
        opUserId in knownUsers && AllKnown(ids, knownUsers)) &&
      (r.Ok? ==>
        |r.value.members| == |ids| &&
        r.value.members[0] == NewMember(ownerId, GroupOwner) &&
        (forall i :: 0 <= i < |adminIds| ==> r.value.members[1 + i] == NewMember(adminIds[i], GroupAdmin)) &&
        (forall i :: 0 <= i < |memberIds| ==>
          r.value.members[1 + |adminIds| + i] == NewMember(memberIds[i], GroupOrdinaryUsers)) &&
        (forall i :: 0 <= i < |r.value.members| && r.value.members[i].roleLevel == GroupOwner ==> i == 0))
  {
    var ids := memberIds + adminIds + [ownerId];
    var userIds := CreateUserIds(memberIds, adminIds, ownerId, opUserId);
    if Distinct(userIds) {
      assert forall i :: 0 <= i < |ids| ==> ids[i] == userIds[i];
    }
    if Distinct(ids) && opUserId !in ids {
      forall i, j | 0 <= i < j < |userIds|
        ensures userIds[i] != userIds[j]
      {
        if j == |ids| {
          assert userIds[i] == ids[i];
        }
      }
    }
    if AllKnown(ids, knownUsers) && opUserId in knownUsers {
      assert AllKnown(userIds, knownUsers);
    }
    if AllKnown(userIds, knownUsers) {
      if opUserId in ids {
        var k :| 0 <= k < |ids| && ids[k] == opUserId;
        assert userIds[k] == opUserId;
      } else {
        assert userIds[|ids|] == opUserId;
      }
      assert forall i :: 0 <= i < |ids| ==> ids[i] == userIds[i];
    }
  }

  /** An app manager creating a group for someone else reports one member more
      than it writes. */
  lemma CreateGroupCountsOperator()
    ensures CreateGroup(WorkingGroup, "owner", [], [], "manager", true, {"owner", "manager"})
      == Ok(Created([NewMember("owner", GroupOwner)], 2))
  {
    var ids := CreateUserIds([], [], "owner", "manager");
    assert ids == ["owner", "manager"];
    assert MemberList("owner", [], []) == [NewMember("owner", GroupOwner)];
  }

  /** The intended count is the number of members written: the owner, the
      admins and the ordinary members. */
  lemma CreateGroupIntendedCount(groupType: int, ownerId: string, memberIds: seq<string>, adminIds: seq<string>,
                                 opUserId: string, ownerAccess: bool, knownUsers: set<string>)
    ensures var r := CreateGroupIntended(groupType, ownerId, memberIds, adminIds, opUserId, ownerAccess, knownUsers);
      r.Ok? ==> r.value.memberCount == |r.value.members| == 1 + |adminIds| + |memberIds|
  {
  }

  // ---------------------------------------------------------------------------
  // KickGroupMember

  /** The check on one kicked user. */
  function KickTarget(roles: Roles, opUserId: string, isAppManager: bool, userId: string): Result<()>
  {
    if userId !in roles then Err(UserIdNotFound)
    else if isAppManager then Ok(())
    else if opUserId !in roles then Err(NoPermission)
    else if roles[opUserId] == GroupOwner then Ok(())
    else if roles[opUserId] == GroupAdmin then
      if roles[userId] == GroupOwner || roles[userId] == GroupAdmin then Err(NoPermission) else Ok(())
    else Err(NoPermission)
  }

  /** The first failing check over `ids`, in order. */
  function KickTargets(roles: Roles, opUserId: string, isAppManager: bool, ids: seq<string>): Result<()>
  {
    if |ids| == 0 then Ok(())
    else
      match KickTargets(roles, opUserId, isAppManager, ids[..|ids| - 1])
      case Err(e) => Err(e)
      case Ok(_) => KickTarget(roles, opUserId, isAppManager, ids[|ids| - 1])
  }

  /** Who may kick whom, for every list: all targets must be members; an app
      manager may kick any of them, the owner too, an admin only ordinary
      members, anyone else no one. */
  lemma {:induction false} KickTargetsOk(roles: Roles, opUserId: string, isAppManager: bool, ids: seq<string>)
    ensures KickTargets(roles, opUserId, isAppManager, ids).Ok? <==>
      (forall i :: 0 <= i < |ids| ==> ids[i] in roles) &&
      (|ids| == 0 || isAppManager ||
        (opUserId in roles &&
          (roles[opUserId] == GroupOwner ||
            (roles[opUserId] == GroupAdmin &&
              forall i :: 0 <= i < |ids| ==> roles[ids[i]] != GroupOwner && roles[ids[i]] != GroupAdmin))))
  {
    if |ids| > 0 {
      var init := ids[..|ids| - 1];
      KickTargetsOk(roles, opUserId, isAppManager, init);
      assert forall i :: 0 <= i < |init| ==> init[i] == ids[i];
    }
  }

  /** `KickGroupMember`: on success the kicked users are no longer members. */
  method KickGroupMember(groupExists: bool, roles: Roles, kicked: seq<string>, opUserId: string, isAppManager: bool)
    returns (r: Result<Roles>)
    ensures !groupExists ==> r == Err(RecordNotFound)
    ensures groupExists && (|kicked| == 0 || !Distinct(kicked) || opUserId in kicked) ==> r == Err(ArgsError)
    ensures groupExists && |kicked| > 0 && Distinct(kicked) && opUserId !in kicked ==>
      match KickTargets(roles, opUserId, isAppManager, kicked)
      case Err(e) => r == Err(e)
      case Ok(_) => r == Ok(map u | u in roles && u !in kicked :: roles[u])
  {
    if !groupExists {
      return Err(RecordNotFound);
    }
    if |kicked| == 0 || !Distinct(kicked) || opUserId in kicked {
      return Err(ArgsError);
    }
    for i := 0 to |kicked|
      invariant KickTargets(roles, opUserId, isAppManager, kicked[..i]) == Ok(())
    {
      assert kicked[..i + 1][..i] == kicked[..i];
      var check := KickTarget(roles, opUserId, isAppManager, kicked[i]);
      if check.Err? {
        assert KickTargets(roles, opUserId, isAppManager, kicked[..i + 1]) == check;
        KickPrefixError(roles, opUserId, isAppManager, kicked, i + 1);
        return Err(check.kind);
      }
    }
    assert kicked[..|kicked|] == kicked;
    r := Ok(map u | u in roles && u !in kicked :: roles[u]);
  }

  /** Once a prefix fails, the whole list fails the same way. */
  lemma {:induction false} KickPrefixError(roles: Roles, opUserId: string, isAppManager: bool, ids: seq<string>, n: nat)
    requires n <= |ids| && KickTargets(roles, opUserId, isAppManager, ids[..n]).Err?
    ensures KickTargets(roles, opUserId, isAppManager, ids) == KickTargets(roles, opUserId, isAppManager, ids[..n])
    decreases |ids| - n
  {
    if n < |ids| {
      assert ids[..n + 1][..n] == ids[..n];
      KickPrefixError(roles, opUserId, isAppManager, ids, n + 1);
    } else {
      assert ids[..n] == ids;
    }
  }

  // ---------------------------------------------------------------------------
  // MuteGroupMember / CancelMuteGroupMember

  /** The check both mute and cancel-mute apply. A target whose role is none of
      the three known levels may be muted by any member. */
  function MuteCheck(roles: Roles, userId: string, opUserId: string, isAppManager: bool): Result<()>
  {
    if userId !in roles then Err(RecordNotFound)
    else if isAppManager then Ok(())
    else if opUserId !in roles then Err(RecordNotFound)
    else
      var target := roles[userId];
      var op := roles[opUserId];
      if target == GroupOwner then Err(NoPermission)
      else if target == GroupAdmin then (if op != GroupOwner then Err(NoPermission) else Ok(()))
      else if target == GroupOrdinaryUsers then
        (if !(op == GroupAdmin || op == GroupOwner) then Err(NoPermission) else Ok(()))
      else Ok(())
  }

  /** `MuteGroupMember`: the member's new mute end, in milliseconds. */
  function MuteGroupMember(roles: Roles, userId: string, opUserId: string, isAppManager: bool,
                           nowMilli: int, mutedSeconds: int): Result<int>
  {
    match MuteCheck(roles, userId, opUserId, isAppManager)
    case Err(e) => Err(e)
    case Ok(_) => Ok(nowMilli + mutedSeconds * 1000)
  }

  /** `CancelMuteGroupMember`: the mute end goes back to the epoch. */
  function CancelMuteGroupMember(roles: Roles, userId: string, opUserId: string, isAppManager: bool): Result<int>
  {
    match MuteCheck(roles, userId, opUserId, isAppManager)
    case Err(e) => Err(e)
    case Ok(_) => Ok(0)
  }

  /** For a member operator who is not an app manager: the owner can never be
      muted, an admin only by the owner, an ordinary member by an admin or the
      owner. Muting and cancelling obey the same rule, and a mute ends
      `mutedSeconds` after now. */
  lemma MuteRule(roles: Roles, userId: string, opUserId: string, nowMilli: int, mutedSeconds: int)
    requires userId in roles && opUserId in roles
    ensures var r := MuteGroupMember(roles, userId, opUserId, false, nowMilli, mutedSeconds);
      (r.Ok? <==>
        roles[userId] != GroupOwner &&
        (roles[userId] == GroupAdmin ==> roles[opUserId] == GroupOwner) &&
        (roles[userId] == GroupOrdinaryUsers ==> roles[opUserId] == GroupAdmin || roles[opUserId] == GroupOwner)) &&
      (r.Ok? ==> r.value == nowMilli + mutedSeconds * 1000) &&
      (r.Ok? <==> CancelMuteGroupMember(roles, userId, opUserId, false).Ok?)
  {
  }

  // ---------------------------------------------------------------------------
  // QuitGroup

  /** `QuitGroup`: an empty user ID means the operator; naming someone else
      needs `access` (the operator is that user or an app manager). */
  function QuitGroup(roles: Roles, reqUserId: string, opUserId: string, access: bool): Result<Roles>
  {
    var userId := if reqUserId == "" then opUserId else reqUserId;
    if reqUserId != "" && !access then Err(NoPermission)
    else if userId !in roles then Err(RecordNotFound)
    else if roles[userId] == GroupOwner then Err(NoPermission)
    else Ok(roles - {userId})
  }

  /** Naming another user needs access, and a user who is not a member
      cannot quit; the owner never leaves. Everyone else who passes the access
      check leaves: they are removed and nothing else changes. */
  lemma QuitGroupSpec(roles: Roles, reqUserId: string, opUserId: string, access: bool)
    ensures var userId := if reqUserId == "" then opUserId else reqUserId;
      var r := QuitGroup(roles, reqUserId, opUserId, access);
      (reqUserId != "" && !access ==> r == Err(NoPermission)) &&
      ((reqUserId == "" || access) && userId !in roles ==> r == Err(RecordNotFound)) &&
      (userId in roles && roles[userId] == GroupOwner ==> r.Err?) &&
      (r.Ok? <==> (reqUserId == "" || access) && userId in roles && roles[userId] != GroupOwner) &&
      (r.Ok? ==> (userId !in r.value && r.value.Keys == roles.Keys - {userId} &&
                  forall u :: u in r.value ==> r.value[u] == roles[u]))
  {
  }

  // ---------------------------------------------------------------------------
  // TransferGroupOwner

  /** `TransferGroupOwner`: on success, the role level the new owner had, which
      the store gives to the old owner. */
  function TransferGroupOwner(status: Option<int>, roles: Roles, oldOwnerId: string, newOwnerId: string,
                              opUserId: string, isAppManager: bool): Result<int>
  {
    if status.None? then Err(RecordNotFound)
    else if status.value == GroupStatusDismissed then Err(DismissedAlready)
    else if oldOwnerId == newOwnerId then Err(ArgsError)
    else if oldOwnerId !in roles || newOwnerId !in roles then Err(ArgsError)
    else if !isAppManager && !(opUserId == oldOwnerId && roles[oldOwnerId] == GroupOwner) then Err(NoPermission)
    else Ok(roles[newOwnerId])
  }

  /** A transfer of a live group goes through exactly when the two users differ,
      both are members, and the operator is an app manager or the old owner
      holding the owner role. */
  lemma TransferGroupOwnerSpec(status: int, roles: Roles, oldOwnerId: string, newOwnerId: string,
                               opUserId: string, isAppManager: bool)
    requires status != GroupStatusDismissed
    ensures TransferGroupOwner(Some(status), roles, oldOwnerId, newOwnerId, opUserId, isAppManager).Ok? <==>
      oldOwnerId != newOwnerId && oldOwnerId in roles && newOwnerId in roles &&
      (isAppManager || (opUserId == oldOwnerId && roles[oldOwnerId] == GroupOwner))
  {
  }

  // ---------------------------------------------------------------------------
  // SetGroupMemberInfo

  datatype MemberUpdate = MemberUpdate(groupId: string, userId: string, roleLevel: Option<int>)

  /** The first role-level error among the updates, in order: setting the owner
      role is refused, any level other than admin or ordinary is invalid. */
  function RoleLevels(updates: seq<MemberUpdate>): (r: Result<()>)
    ensures r.Ok? <==> forall i :: 0 <= i < |updates| && updates[i].roleLevel.Some? ==>
      updates[i].roleLevel.value == GroupAdmin || updates[i].roleLevel.value == GroupOrdinaryUsers
  {
    if |updates| == 0 then Ok(())
    else
      var init := updates[..|updates| - 1];
      assert forall i :: 0 <= i < |init| ==> init[i] == updates[i];
      match RoleLevels(init)
      case Err(e) => Err(e)
      case Ok(_) =>
        var level := updates[|updates| - 1].roleLevel;
        if level.None? then Ok(())
        else if level.value == GroupOwner then Err(NoPermission)
        else if level.value == GroupAdmin || level.value == GroupOrdinaryUsers then Ok(())
        else Err(ArgsError)
  }

  /** The group IDs of the updates, each once, in order of first appearance. */
  function GroupIds(updates: seq<MemberUpdate>): (r: seq<string>)
    ensures Distinct(r)
    ensures forall g :: g in r <==> exists i :: 0 <= i < |updates| && updates[i].groupId == g
  {
    if |updates| == 0 then []
    else
      var init := updates[..|updates| - 1];
      assert forall i :: 0 <= i < |init| ==> init[i] == updates[i];
      var g := updates[|updates| - 1].groupId;
      if g in GroupIds(init) then GroupIds(init) else GroupIds(init) + [g]
  }

  /** The user IDs of the updates of group `g`, in order. */
  function UserIdsIn(updates: seq<MemberUpdate>, g: string): (r: seq<string>)
    ensures forall u :: u in r <==> exists i :: 0 <= i < |updates| && updates[i].groupId == g && updates[i].userId == u
  {
    if |updates| == 0 then []
    else
      var init := updates[..|updates| - 1];
      assert forall i :: 0 <= i < |init| ==> init[i] == updates[i];
      var last := updates[|updates| - 1];
      if last.groupId == g then UserIdsIn(init, g) + [last.userId] else UserIdsIn(init, g)
  }

  /** How many of `ids` are members. */
  function CountMembers(ids: seq<string>, roles: Roles): (r: nat)
    ensures r <= |ids|
    ensures r == |ids| <==> forall i :: 0 <= i < |ids| ==> ids[i] in roles
  {
    if |ids| == 0 then 0
    else
      var init := ids[..|ids| - 1];
      assert forall i :: 0 <= i < |init| ==> init[i] == ids[i];
      CountMembers(init, roles) + if ids[|ids| - 1] in roles then 1 else 0
  }

  /** The permission check for one operator role over the updated members of a
      group (the operator included). An admin may touch neither the owner nor
      another admin; an ordinary member only themself; any other level only
      members below it, which the operator never is. */
  predicate MayEdit(roles: Roles, opUserId: string, userIds: seq<string>)
    requires opUserId in roles && forall i :: 0 <= i < |userIds| ==> userIds[i] in roles
  {
    var op := roles[opUserId];
    if op == GroupOwner then true
    else if op == GroupAdmin then
      forall i :: 0 <= i < |userIds| ==>
        roles[userIds[i]] != GroupOwner && (roles[userIds[i]] == GroupAdmin ==> userIds[i] == opUserId)
    else if op == GroupOrdinaryUsers then
      forall i :: 0 <= i < |userIds| ==> roles[userIds[i]] == GroupOrdinaryUsers && userIds[i] == opUserId
    else
      forall i :: 0 <= i < |userIds| ==> roles[userIds[i]] < op
  }

  /** The check of one group's updates. */
  function GroupCheck(userIds: seq<string>, opUserId: string, roles: Roles, isAppManager: bool): Result<()>
  {
    if !Distinct(userIds) then Err(ArgsError)
    else
      var ids := if opUserId in userIds then userIds else userIds + [opUserId];
      var missing := |ids| - CountMembers(ids, roles);
      if missing == 0 then
        if isAppManager then Ok(())
        else
          assert opUserId in roles by {
            var k :| 0 <= k < |ids| && ids[k] == opUserId;
          }
          if MayEdit(roles, opUserId, ids) then Ok(()) else Err(NoPermission)
      else if missing == 1 then
        if opUserId in roles then Err(ArgsError)
        else if !isAppManager then Err(NoPermission)
        else Ok(())
      else Err(ArgsError)
  }

  function RolesOf(groups: map<string, Roles>, g: string): Roles
  {
    if g in groups then groups[g] else map[]
  }

  /** The updates of group `g` pass its check. */
  predicate GroupOk(updates: seq<MemberUpdate>, g: string, opUserId: string, groups: map<string, Roles>,
                    isAppManager: bool)
  {
    GroupCheck(UserIdsIn(updates, g), opUserId, RolesOf(groups, g), isAppManager).Ok?
  }

  /** The first failing group, groups taken in order of first appearance. */
  function GroupChecks(updates: seq<MemberUpdate>, gs: seq<string>, opUserId: string,
                       groups: map<string, Roles>, isAppManager: bool): (r: Result<()>)
    ensures r.Ok? <==> forall g :: g in gs ==> GroupOk(updates, g, opUserId, groups, isAppManager)
  {
    if |gs| == 0 then Ok(())
    else
      var first := GroupCheck(UserIdsIn(updates, gs[0]), opUserId, RolesOf(groups, gs[0]), isAppManager);
      if first.Err? then
        assert gs[0] in gs && !GroupOk(updates, gs[0], opUserId, groups, isAppManager);
        Err(first.kind)
      else
        assert gs == [gs[0]] + gs[1..];
        GroupChecks(updates, gs[1..], opUserId, groups, isAppManager)
  }

  /** `SetGroupMemberInfo`'s checks. */
  function SetGroupMemberInfo(updates: seq<MemberUpdate>, opUserId: string, groups: map<string, Roles>,
                              isAppManager: bool): Result<()>
  {
    if |updates| == 0 then Err(ArgsError)
    else if opUserId == "" then Err(NoPermission)
    else
      match RoleLevels(updates)
      case Err(e) => Err(e)
      case Ok(_) => GroupChecks(updates, GroupIds(updates), opUserId, groups, isAppManager)
  }

  /** An accepted edit never grants the owner role, never names a user twice in
      one group, and names members of the group only (an app manager operator
      aside, who need not be one). */
  lemma SetGroupMemberInfoSpec(updates: seq<MemberUpdate>, opUserId: string, groups: map<string, Roles>,
                               isAppManager: bool, i: int, j: int)
    requires SetGroupMemberInfo(updates, opUserId, groups, isAppManager).Ok?
    requires 0 <= i < |updates|
    ensures updates[i].roleLevel.Some? ==>
      updates[i].roleLevel.value == GroupAdmin || updates[i].roleLevel.value == GroupOrdinaryUsers
    ensures 0 <= j < |updates| && i != j ==>
      updates[i].groupId != updates[j].groupId || updates[i].userId != updates[j].userId
    ensures updates[i].userId != opUserId ==> updates[i].userId in RolesOf(groups, updates[i].groupId)
  {
    var g := updates[i].groupId;
    var gs := GroupIds(updates);
    assert g in gs;
    var ids := UserIdsIn(updates, g);
    var roles := RolesOf(groups, g);
    assert GroupOk(updates, g, opUserId, groups, isAppManager);
    if 0 <= j < |updates| && i != j && updates[j].groupId == g && updates[j].userId == updates[i].userId {
      UserIdsInCounts(updates, g, i, j);
    }
    if updates[i].userId != opUserId {
      assert updates[i].userId in ids;
      var all := if opUserId in ids then ids else ids + [opUserId];
      var m :| 0 <= m < |ids| && ids[m] == updates[i].userId;
      assert all[m] == updates[i].userId;
      if CountMembers(all, roles) != |all| {
        assert opUserId !in roles;
        assert |all| - CountMembers(all, roles) == 1;
        OnlyMissing(all, roles, opUserId, m);
      }
    }
  }

  /** An ordinary member who is not an app manager may only edit themself, and
      an admin never the owner. */
  lemma SetGroupMemberInfoLimits(updates: seq<MemberUpdate>, opUserId: string, groups: map<string, Roles>, i: int)
    requires SetGroupMemberInfo(updates, opUserId, groups, false).Ok?
    requires 0 <= i < |updates| && opUserId in RolesOf(groups, updates[i].groupId)
    ensures RolesOf(groups, updates[i].groupId)[opUserId] == GroupOrdinaryUsers ==> updates[i].userId == opUserId
    ensures RolesOf(groups, updates[i].groupId)[opUserId] == GroupAdmin ==>
      updates[i].userId in RolesOf(groups, updates[i].groupId) &&
      RolesOf(groups, updates[i].groupId)[updates[i].userId] != GroupOwner
  {
    var g := updates[i].groupId;
    var gs := GroupIds(updates);
    assert g in gs;
    assert GroupOk(updates, g, opUserId, groups, false);
    var ids := UserIdsIn(updates, g);
    var roles := RolesOf(groups, g);
    var all := if opUserId in ids then ids else ids + [opUserId];
    assert updates[i].userId in ids;
    var m :| 0 <= m < |ids| && ids[m] == updates[i].userId;
    assert all[m] == updates[i].userId;
    assert CountMembers(all, roles) == |all|;
  }

  /** Two distinct updates of the same user in a group appear twice in that
      group's user list. */
  lemma {:induction false} UserIdsInCounts(updates: seq<MemberUpdate>, g: string, i: int, j: int)
    requires 0 <= i < |updates| && 0 <= j < |updates| && i != j
    requires updates[i].groupId == g && updates[j].groupId == g && updates[i].userId == updates[j].userId
    ensures !Distinct(UserIdsIn(updates, g))
  {
    var n := |updates| - 1;
    var init := updates[..n];
    assert forall k :: 0 <= k < |init| ==> init[k] == updates[k];
    if i < n && j < n {
      UserIdsInCounts(init, g, i, j);
      var a := UserIdsIn(init, g);
      var p, q :| 0 <= p < q < |a| && a[p] == a[q];
      var b := UserIdsIn(updates, g);
      assert b[p] == a[p] && b[q] == a[q];
    } else {
      var other := if i < n then i else j;
      var a := UserIdsIn(init, g);
      assert updates[other].userId in a;
      var p :| 0 <= p < |a| && a[p] == updates[other].userId;
      var b := UserIdsIn(updates, g);
      assert b == a + [updates[n].userId];
      assert b[p] == b[|a|];
    }
  }

  /** When exactly one of a list is not a member and that one is `x`, every
      other entry is a member. */
  lemma {:induction false} OnlyMissing(ids: seq<string>, roles: Roles, x: string, m: int)
    requires x !in roles && x in ids && |ids| - CountMembers(ids, roles) == 1
    requires 0 <= m < |ids| && ids[m] != x
    ensures ids[m] in roles
  {
    var n := |ids| - 1;
    var init := ids[..n];
    assert forall k :: 0 <= k < |init| ==> init[k] == ids[k];
    if ids[n] == x {
      assert CountMembers(init, roles) == |init|;
      assert ids[m] == init[m];
    } else {
      assert x in init;
      if ids[n] in roles && m < n {
        assert ids[m] == init[m];
        OnlyMissing(init, roles, x, m);
      }
    }
  }

  // ---------------------------------------------------------------------------
  // GroupApplicationResponse

  datatype GroupRequest = GroupRequest(handleResult: int, joinSource: int, inviterUserId: string, ex: string)

  datatype JoinedMember = JoinedMember(groupId: string, userId: string, roleLevel: int, joinSource: int,
                                       inviterUserId: string, operatorUserId: string, ex: string)

  /** `GroupApplicationResponse`: on success, the member to add, if any.
      `roles` is the group's members (`None`: no such group), `request` the
      pending request from `fromUserId`, `userExists` whether the user service
      knows that user. */
  function GroupApplicationResponse(handleResult: int, groupId: string, fromUserId: string, opUserId: string,
                                    isAppManager: bool, roles: Option<Roles>, request: Option<GroupRequest>,
                                    userExists: bool): Result<Option<JoinedMember>>
  {
    var members := if roles.Some? then roles.value else map[];
    if handleResult != GroupResponseAgree && handleResult != GroupResponseRefuse then Err(ArgsError)
    else if !isAppManager && opUserId !in members then Err(RecordNotFound)
    else if !isAppManager && members[opUserId] != GroupOwner && members[opUserId] != GroupAdmin then Err(NoPermission)
    else if roles.None? || request.None? then Err(RecordNotFound)
    else if request.value.handleResult != 0 then Err(GroupRequestHandled)
    else if !userExists then Err(UserIdNotFound)
    else if fromUserId !in members && handleResult == GroupResponseAgree then
      Ok(Some(JoinedMember(groupId, fromUserId, GroupOrdinaryUsers, request.value.joinSource,
                           request.value.inviterUserId, opUserId, request.value.ex)))
    else Ok(None)
  }

  /** Only agree or refuse is accepted, by an owner, admin or app manager, on a
      request not yet handled from a user the user service knows, and every
      such response is accepted; a member (ordinary, from the request) is built
      exactly for an agreed request of a user not already in the group. */
  lemma GroupApplicationResponseSpec(handleResult: int, groupId: string, fromUserId: string, opUserId: string,
                                     isAppManager: bool, roles: Option<Roles>, request: Option<GroupRequest>,
                                     userExists: bool)
    ensures var r := GroupApplicationResponse(handleResult, groupId, fromUserId, opUserId, isAppManager,
                                              roles, request, userExists);
      (r.Ok? ==> handleResult == GroupResponseAgree || handleResult == GroupResponseRefuse) &&
      (r.Ok? ==> roles.Some? && request.Some? && request.value.handleResult == 0) &&
      (r.Ok? && !isAppManager ==>
        opUserId in roles.value && (roles.value[opUserId] == GroupOwner || roles.value[opUserId] == GroupAdmin)) &&
      (r.Ok? ==> (r.value.Some? <==> handleResult == GroupResponseAgree && fromUserId !in roles.value)) &&
      (r.Ok? && r.value.Some? ==>
        r.value.value.userId == fromUserId && r.value.value.roleLevel == GroupOrdinaryUsers &&
        r.value.value.inviterUserId == request.value.inviterUserId)
      && (request.Some? && request.value.handleResult != 0 ==> r.Err?)
      && (!userExists ==> r.Err?)
      && (r.Ok? <==>
            (handleResult == GroupResponseAgree || handleResult == GroupResponseRefuse) &&
            roles.Some? && request.Some? && request.value.handleResult == 0 && userExists &&
            (isAppManager ||
             (opUserId in roles.value && (roles.value[opUserId] == GroupOwner || roles.value[opUserId] == GroupAdmin))))
  {
  }

  // ---------------------------------------------------------------------------
  // DismissGroup

  /** `DismissGroup`: on success, whether the dismissal is announced (only when
      the members are kept). `ownerId` is the group's owner (`None`: not found),
      `status` the group's status. */
  function DismissGroup(ownerId: Option<string>, opUserId: string, isAppManager: bool, status: Option<int>,
                        deleteMember: bool): Result<bool>
  {
    if ownerId.None? then Err(RecordNotFound)
    else if !isAppManager && ownerId.value != opUserId then Err(NoPermission)
    else if status.None? then Err(RecordNotFound)
    else if !deleteMember && status.value == GroupStatusDismissed then Err(DismissedAlready)
    else Ok(!deleteMember)
  }

  /** Only the owner or an app manager dismisses; a dismissed group can be
      dismissed again only to delete its members. */
  lemma DismissGroupSpec(ownerId: string, opUserId: string, isAppManager: bool, status: int, deleteMember: bool)
    ensures var r := DismissGroup(Some(ownerId), opUserId, isAppManager, Some(status), deleteMember);
      (r.Ok? <==> (isAppManager || ownerId == opUserId) && (deleteMember || status != GroupStatusDismissed)) &&
      (r.Ok? ==> r.value == !deleteMember)
  {
  }
}
