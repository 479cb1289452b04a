// The group-member store of the storage layer (`GroupMemberMgo`): the
// `group_member` collection beside two version logs, the member log (one per
// group, naming users) and the join log (one per user, naming groups).
module GroupMemberStore {
  import opened Common
  import opened Sorting
  import opened VersionLog

  /** A member document (`GroupMember`). */
  datatype GroupMember = GroupMember(groupId: string, userId: string, nickname: string, faceUrl: string,
                                     roleLevel: int, createTime: int, ex: string)

  /** A value in an update's `$set` map. */
  datatype Value = Str(s: string) | Int(i: int)

  /** A member document with the group and user set and every other field zero. */
  function Blank(groupId: string, userId: string): GroupMember
  {
    GroupMember(groupId, userId, "", "", 0, 0, "")
  }

  function StrArg(data: map<string, Value>, name: string, current: string): string
  {
    if name in data && data[name].Str? then data[name].s else current
  }

  function IntArg(data: map<string, Value>, name: string, current: int): int
  {
    if name in data && data[name].Int? then data[name].i else current
  }

  /** `$set`: each document field named in `data` (by its stored name) takes
      the value given for it. */
  function SetFields(m: GroupMember, data: map<string, Value>): (r: GroupMember)
    ensures r.groupId == m.groupId && r.userId == m.userId
    ensures |data| == 0 ==> r == m
  {
    m.(nickname := StrArg(data, "nickname", m.nickname),
       faceUrl := StrArg(data, "face_url", m.faceUrl),
       roleLevel := IntArg(data, "role_level", m.roleLevel),
       createTime := IntArg(data, "create_time", m.createTime),
       ex := StrArg(data, "ex", m.ex))
  }

  /** `Delete`'s filter: the group's members, only those listed when a list is
      given. */
  predicate Targets(m: GroupMember, groupId: string, userIds: seq<string>)
  {
    m.groupId == groupId && (|userIds| == 0 || m.userId in userIds)
  }

  /** The documents the filter matches, in collection order. */
  function Removed(coll: seq<GroupMember>, groupId: string, userIds: seq<string>): (r: seq<GroupMember>)
    ensures forall m :: m in r <==> m in coll && Targets(m, groupId, userIds)
  {
    if |coll| == 0 then []
    else
      assert coll == [coll[0]] + coll[1..];
      (if Targets(coll[0], groupId, userIds) then [coll[0]] else []) + Removed(coll[1..], groupId, userIds)
  }

  /** What `DeleteMany` with the filter leaves, in collection order. */
  function DeleteMembers(coll: seq<GroupMember>, groupId: string, userIds: seq<string>): (r: seq<GroupMember>)
    ensures forall m :: m in r <==> m in coll && !Targets(m, groupId, userIds)
  {
    if |coll| == 0 then []
    else
      assert coll == [coll[0]] + coll[1..];
      (if Targets(coll[0], groupId, userIds) then [] else [coll[0]]) + DeleteMembers(coll[1..], groupId, userIds)
  }

  /** Every document is removed or kept, never both; with no user listed,
      none of the group's members is kept. */
  lemma {:induction false} DeleteMembersSplit(coll: seq<GroupMember>, groupId: string, userIds: seq<string>)
    ensures |Removed(coll, groupId, userIds)| + |DeleteMembers(coll, groupId, userIds)| == |coll|
    ensures |userIds| == 0 ==> forall m :: m in DeleteMembers(coll, groupId, userIds) ==> m.groupId != groupId
  {
    if |coll| > 0 {
      DeleteMembersSplit(coll[1..], groupId, userIds);
    }
  }

  /** The first document for the member, if any. */
  function FirstMember(coll: seq<GroupMember>, groupId: string, userId: string): Option<GroupMember>
  {
    var m := Removed(coll, groupId, [userId]);
    if |m| == 0 then None else Some(m[0])
  }

  /** `$set` on the member's first document; the others are kept, in order. */
  function SetMember(coll: seq<GroupMember>, groupId: string, userId: string, data: map<string, Value>)
    : seq<GroupMember>
  {
    if |coll| == 0 then []
    else if Targets(coll[0], groupId, [userId]) then [SetFields(coll[0], data)] + coll[1..]
    else [coll[0]] + SetMember(coll[1..], groupId, userId, data)
  }

  /** `UpdateOne(filter, {$set: data}, true)` on the member's document: no
      upsert option is passed, and the trailing `true` turns a filter that
      matches nothing into a not-found error. */
  function UpdateMember(coll: seq<GroupMember>, groupId: string, userId: string, data: map<string, Value>)
    : Result<seq<GroupMember>>
  {
    if FirstMember(coll, groupId, userId).None? then Err(RecordNotFound)
    else Ok(SetMember(coll, groupId, userId, data))
  }

  /** Updating a user who is not a member is a not-found error and creates
      nothing. Otherwise the member's first document is the old one updated,
      and every other document is untouched and in order: none is added or
      removed. */
  lemma {:induction false} UpdateMemberSpec(coll: seq<GroupMember>, groupId: string, userId: string,
                                            data: map<string, Value>)
    ensures var r := UpdateMember(coll, groupId, userId, data);
      var before := FirstMember(coll, groupId, userId);
      (r.Err? <==> before.None?) &&
      (r.Err? ==> r.kind == RecordNotFound) &&
      (r.Ok? ==>
        FirstMember(r.value, groupId, userId) == Some(SetFields(before.value, data)) &&
        DeleteMembers(r.value, groupId, [userId]) == DeleteMembers(coll, groupId, [userId]) &&
        |r.value| == |coll|)
  {
    if |coll| > 0 && FirstMember(coll, groupId, userId).Some? {
      var r := SetMember(coll, groupId, userId, data);
      if Targets(coll[0], groupId, [userId]) {
        assert r[1..] == coll[1..];
        assert Removed(r, groupId, [userId]) == [SetFields(coll[0], data)] + Removed(coll[1..], groupId, [userId]);
        assert Removed(coll, groupId, [userId]) == [coll[0]] + Removed(coll[1..], groupId, [userId]);
      } else {
        assert Removed(coll, groupId, [userId]) == Removed(coll[1..], groupId, [userId]);
        UpdateMemberSpec(coll[1..], groupId, userId, data);
        assert r[1..] == SetMember(coll[1..], groupId, userId, data);
      }
    }
  }

  /** `IsUpdateRoleLevel`: the update sets the role level. */
  function IsUpdateRoleLevel(data: map<string, Value>): (r: bool)
    ensures r <==> "role_level" in data
  {
    if |data| == 0 then false else "role_level" in data
  }

  /** `memberSort`: higher role level first, then newer first. */
  predicate MemberOrder(a: GroupMember, b: GroupMember)
  {
    a.roleLevel > b.roleLevel || (a.roleLevel == b.roleLevel && a.createTime >= b.createTime)
  }

  lemma MemberOrderTotalPreorder()
    ensures TotalPreorder(MemberOrder)
  {
  }

  /** The documents of a group, in collection order. */
  function GroupDocs(coll: seq<GroupMember>, groupId: string): seq<GroupMember>
  {
    Removed(coll, groupId, [])
  }

  /** `FindMemberUserID`: the group's members' IDs in `memberSort` order. */
  function FindMemberUserIds(coll: seq<GroupMember>, groupId: string): seq<string>
  {
    var sorted := SortBy(GroupDocs(coll, groupId), MemberOrder);
    seq(|sorted|, i requires 0 <= i < |sorted| => sorted[i].userId)
  }

  /** One ID per member document of the group, read from the group's
      documents in descending role level, and newest first within a level. */
  lemma FindMemberUserIdsSpec(coll: seq<GroupMember>, groupId: string)
    ensures var sorted := SortBy(GroupDocs(coll, groupId), MemberOrder);
      var ids := FindMemberUserIds(coll, groupId);
      |ids| == |GroupDocs(coll, groupId)| && multiset(sorted) == multiset(GroupDocs(coll, groupId)) &&
      (forall i :: 0 <= i < |ids| ==> ids[i] == sorted[i].userId && sorted[i] in coll && sorted[i].groupId == groupId) &&
      (forall i, j :: 0 <= i < j < |sorted| ==> sorted[i].roleLevel >= sorted[j].roleLevel) &&
      (forall i, j :: 0 <= i < j < |sorted| && sorted[i].roleLevel == sorted[j].roleLevel ==>
        sorted[i].createTime >= sorted[j].createTime)
  {
    var sorted := SortBy(GroupDocs(coll, groupId), MemberOrder);
    MemberOrderTotalPreorder();
    SortBySorted(GroupDocs(coll, groupId), MemberOrder);
    forall i | 0 <= i < |sorted|
      ensures sorted[i] in coll && sorted[i].groupId == groupId
    {
      assert sorted[i] in multiset(GroupDocs(coll, groupId));
    }
    forall i, j | 0 <= i < j < |sorted|
      ensures sorted[i].roleLevel >= sorted[j].roleLevel
      ensures sorted[i].roleLevel == sorted[j].roleLevel ==> sorted[i].createTime >= sorted[j].createTime
    {
      assert MemberOrder(sorted[i], sorted[j]);
    }
  }

  /** The state a version-log entry records. */
  datatype VersionState = VersionInsert | VersionDelete | VersionUpdate

  function GroupOf(m: GroupMember): string { m.groupId }

  function UserOf(m: GroupMember): string { m.userId }

  class GroupMemberMgo {
    var coll: seq<GroupMember>
    /** The member log: each group's changed user IDs. */
    var member: Logs<VersionState>
    /** The join log: each user's changed group IDs. */
    var join: Logs<VersionState>

    constructor ()
      ensures coll == [] && member == map[] && join == map[]
    {
      coll := [];
      member := map[];
      join := map[];
    }

    /** `Create`: the documents are inserted; each group among them gets one
        member-log entry naming its new members, and each user one join-log
        entry naming the groups joined, in input order. */
    method Create(members: seq<GroupMember>)
      modifies this
      ensures coll == old(coll) + members
      ensures forall g ::
        (Log(member, g) == if g in KeysOf(members, GroupOf)
                           then Log(old(member), g) + [LogEntry(Collect(members, GroupOf, UserOf, g), VersionInsert)]
                           else Log(old(member), g))
      ensures forall u ::
        (Log(join, u) == if u in KeysOf(members, UserOf)
                         then Log(old(join), u) + [LogEntry(Collect(members, UserOf, GroupOf, u), VersionInsert)]
                         else Log(old(join), u))
    {
      coll := coll + members;
      member := LogGrouped(member, members, GroupOf, UserOf, VersionInsert);
      join := LogGrouped(join, members, UserOf, GroupOf, VersionInsert);
    }

    /** `Delete`: the group's listed members go (every member when none is
        listed); the member log records the deletion, a second time when
        users are listed, and the join log is not written. */
    method Delete(groupId: string, userIds: seq<string>)
      modifies this
      ensures coll == DeleteMembers(old(coll), groupId, userIds)
      ensures var e := LogEntry(userIds, VersionDelete);
        member == if |userIds| == 0 then Append(old(member), groupId, e)
                  else Append(Append(old(member), groupId, e), groupId, e)
      ensures join == old(join)
    {
      coll := DeleteMembers(coll, groupId, userIds);
      member := Append(member, groupId, LogEntry(userIds, VersionDelete));
      if |userIds| == 0 {
        return;
      }
      member := Append(member, groupId, LogEntry(userIds, VersionDelete));
    }

    /** `Delete` with its third step writing the join log: one member-log
        entry, and each user whose membership went a join-log entry for the
        group. */
    method DeleteIntended(groupId: string, userIds: seq<string>)
      modifies this
      ensures coll == DeleteMembers(old(coll), groupId, userIds)
      ensures member == Append(old(member), groupId, LogEntry(userIds, VersionDelete))
      ensures var gone := Removed(old(coll), groupId, userIds);
        forall u ::
          (Log(join, u) == if u in KeysOf(gone, UserOf)
                           then Log(old(join), u) + [LogEntry(Collect(gone, UserOf, GroupOf, u), VersionDelete)]
                           else Log(old(join), u))
    {
      var gone := Removed(coll, groupId, userIds);
      coll := DeleteMembers(coll, groupId, userIds);
      member := Append(member, groupId, LogEntry(userIds, VersionDelete));
      join := LogGrouped(join, gone, UserOf, GroupOf, VersionDelete);
    }

    /** `Update`: nothing to set changes nothing, the logs included.
        Otherwise `UpdateOne` on the member's document; for a user who is not
        a member it fails and, the write having failed, no log entry is made;
        when it succeeds, the member log records the user. */
    method Update(groupId: string, userId: string, data: map<string, Value>) returns (r: Result<()>)
      modifies this
      ensures |data| == 0 ==> r == Ok(()) && coll == old(coll) && member == old(member)
      ensures |data| > 0 ==>
        var u := UpdateMember(old(coll), groupId, userId, data);
        (u.Err? ==> r == Err(u.kind) && coll == old(coll) && member == old(member)) &&
        (u.Ok? ==>
           r == Ok(()) && coll == u.value &&
           member == Append(old(member), groupId, LogEntry([userId], VersionUpdate)))
      ensures join == old(join)
    {
      if |data| == 0 {
        return Ok(());
      }
      var u := UpdateMember(coll, groupId, userId, data);
      if u.Err? {
        return Err(u.kind);
      }
      coll := u.value;
      member := Append(member, groupId, LogEntry([userId], VersionUpdate));
      r := Ok(());
    }

    /** `UpdateRoleLevel`: `Update` with the role level (which logs the user
        once), the member log a second time, then the join log under the
        group's ID; a failed `Update` stops it before either log write. */
    method UpdateRoleLevel(groupId: string, userId: string, roleLevel: int) returns (r: Result<()>)
      modifies this
      ensures var u := UpdateMember(old(coll), groupId, userId, map["role_level" := Int(roleLevel)]);
        var e := LogEntry([userId], VersionUpdate);
        (u.Err? ==> r == Err(u.kind) && coll == old(coll) && member == old(member) && join == old(join)) &&
        (u.Ok? ==>
           r == Ok(()) && coll == u.value &&
           member == Append(Append(old(member), groupId, e), groupId, e) &&
           join == Append(old(join), groupId, e))
    {
      var data := map["role_level" := Int(roleLevel)];
      assert "role_level" in data;
      r := Update(groupId, userId, data);
      if r.Err? {
        return;
      }
      member := Append(member, groupId, LogEntry([userId], VersionUpdate));
      join := Append(join, groupId, LogEntry([userId], VersionUpdate));
    }

    /** `UpdateRoleLevel` with the join log written as the join log is kept:
        under the user, naming the group. */
    method UpdateRoleLevelIntended(groupId: string, userId: string, roleLevel: int) returns (r: Result<()>)
      modifies this
      ensures var u := UpdateMember(old(coll), groupId, userId, map["role_level" := Int(roleLevel)]);
        var e := LogEntry([userId], VersionUpdate);
        (u.Err? ==> r == Err(u.kind) && coll == old(coll) && member == old(member) && join == old(join)) &&
        (u.Ok? ==>
           r == Ok(()) && coll == u.value &&
           member == Append(Append(old(member), groupId, e), groupId, e) &&
           join == Append(old(join), userId, LogEntry([groupId], VersionUpdate)))
    {
      var data := map["role_level" := Int(roleLevel)];
      assert "role_level" in data;
      r := Update(groupId, userId, data);
      if r.Err? {
        return;
      }
      member := Append(member, groupId, LogEntry([userId], VersionUpdate));
      join := Append(join, userId, LogEntry([groupId], VersionUpdate));
    }
  }

  /** As written: a user added to a group and then removed has the removal
      twice in the group's member log and not at all in the user's join log. */
  method DeleteSkipsJoinLog() returns (memberLog: seq<LogEntry<VersionState>>, joinLog: seq<LogEntry<VersionState>>)
    ensures memberLog == [LogEntry(["u"], VersionInsert), LogEntry(["u"], VersionDelete), LogEntry(["u"], VersionDelete)]
    ensures joinLog == [LogEntry(["g"], VersionInsert)]
  {
    var s := new GroupMemberMgo();
    var m := Blank("g", "u");
    KeysOfOne(m, GroupOf);
    KeysOfOne(m, UserOf);
    assert [m][..0] == [] && GroupOf(m) == "g" && UserOf(m) == "u";
    assert Collect([m], GroupOf, UserOf, "g") == ["u"];
    assert Collect([m], UserOf, GroupOf, "u") == ["g"];
    s.Create([m]);
    s.Delete("g", ["u"]);
    memberLog := Log(s.member, "g");
    joinLog := Log(s.join, "u");
  }

  /** With the intended third step the removal is logged once for the group
      and once for the user. */
  method DeleteIntendedLogsLeaver() returns (memberLog: seq<LogEntry<VersionState>>, joinLog: seq<LogEntry<VersionState>>)
    ensures memberLog == [LogEntry(["u"], VersionInsert), LogEntry(["u"], VersionDelete)]
    ensures joinLog == [LogEntry(["g"], VersionInsert), LogEntry(["g"], VersionDelete)]
  {
    var s := new GroupMemberMgo();
    var m := Blank("g", "u");
    KeysOfOne(m, GroupOf);
    KeysOfOne(m, UserOf);
    assert [m][..0] == [] && GroupOf(m) == "g" && UserOf(m) == "u";
    assert Collect([m], GroupOf, UserOf, "g") == ["u"];
    assert Collect([m], UserOf, GroupOf, "u") == ["g"];
    s.Create([m]);
    assert Removed([m], "g", ["u"]) == [m];
    s.DeleteIntended("g", ["u"]);
    memberLog := Log(s.member, "g");
    joinLog := Log(s.join, "u");
  }

  /** As written: once "u" has joined "g", a role change of "u" in "g"
      succeeds but adds nothing to "u"'s join log, and starts a join log
      under the group's ID instead. */
  method RoleChangeLogsGroup() returns (res: Result<()>, userLog: seq<LogEntry<VersionState>>,
                                        groupLog: seq<LogEntry<VersionState>>)
    ensures res == Ok(())
    ensures userLog == [LogEntry(["g"], VersionInsert)] && groupLog == [LogEntry(["u"], VersionUpdate)]
  {
    var s := new GroupMemberMgo();
    var m := Blank("g", "u");
    KeysOfOne(m, GroupOf);
    KeysOfOne(m, UserOf);
    assert [m][..0] == [] && GroupOf(m) == "g" && UserOf(m) == "u";
    assert Collect([m], GroupOf, UserOf, "g") == ["u"];
    assert Collect([m], UserOf, GroupOf, "u") == ["g"];
    s.Create([m]);
    assert Removed([m], "g", ["u"]) == [m];
    res := s.UpdateRoleLevel("g", "u", 60);
    userLog := Log(s.join, "u");
    groupLog := Log(s.join, "g");
  }

  /** With the intended join-log write the role change is in "u"'s join log,
      naming the group, and no log is started under the group's ID. */
  method RoleChangeLogsUser() returns (res: Result<()>, userLog: seq<LogEntry<VersionState>>,
                                       groupLog: seq<LogEntry<VersionState>>)
    ensures res == Ok(())
    ensures userLog == [LogEntry(["g"], VersionInsert), LogEntry(["g"], VersionUpdate)] && groupLog == []
  {
    var s := new GroupMemberMgo();
    var m := Blank("g", "u");
    KeysOfOne(m, GroupOf);
    KeysOfOne(m, UserOf);
    assert [m][..0] == [] && GroupOf(m) == "g" && UserOf(m) == "u";
    assert Collect([m], GroupOf, UserOf, "g") == ["u"];
    assert Collect([m], UserOf, GroupOf, "u") == ["g"];
    s.Create([m]);
    assert Removed([m], "g", ["u"]) == [m];
    res := s.UpdateRoleLevelIntended("g", "u", 60);
    userLog := Log(s.join, "u");
    groupLog := Log(s.join, "g");
  }
}
