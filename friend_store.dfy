// The friend store of the storage layer (`FriendMgo` beside a version log):
// every write to the `friend` collection is followed by an `IncrVersion` on
// the owner's version log naming the friend IDs it changed.
module FriendStore {
  import opened Common
  import opened Strs
  import opened Sorting
  import opened FriendDocs
  import opened VersionLog

  /** An owner's log entries carry, as their state, whether the friends named
      were deleted. */
  type FriendLogs = Logs<bool>

  function OwnerOf(f: Friend): string { f.ownerUserId }

  function FriendOf(f: Friend): string { f.friendUserId }

  /** `friendSort`: pinned friends first, then by nickname, then by creation
      time. */
  predicate FriendOrder(a: Friend, b: Friend)
  {
    (a.isPinned && !b.isPinned) ||
    (a.isPinned == b.isPinned &&
      (StrLess(a.nickname, b.nickname) || (a.nickname == b.nickname && a.createTime <= b.createTime)))
  }

  lemma FriendOrderTotalPreorder()
    ensures TotalPreorder(FriendOrder)
  {
    forall a: Friend, b: Friend
      ensures FriendOrder(a, b) || FriendOrder(b, a)
    {
      StrLessTrichotomy(a.nickname, b.nickname);
    }
    forall a: Friend, b: Friend, c: Friend | FriendOrder(a, b) && FriendOrder(b, c)
      ensures FriendOrder(a, c)
    {
      if StrLess(a.nickname, b.nickname) && StrLess(b.nickname, c.nickname) {
        StrLessTrans(a.nickname, b.nickname, c.nickname);
      }
    }
  }

  /** `SearchFriend`'s filter: the owner's friends, and when the keyword is not
      empty, only those whose remark, nickname or ID it matches
      (`matches(keyword, field)` is the case-insensitive regular-expression
      match). */
  function SearchFilter(ownerUserId: string, keyword: string, matches: (string, string) -> bool): Friend -> bool
  {
    if keyword == "" then (f: Friend) => f.ownerUserId == ownerUserId
    else
      (f: Friend) => f.ownerUserId == ownerUserId &&
        (matches(keyword, f.remark) || matches(keyword, f.nickname) || matches(keyword, f.friendUserId))
  }

  /** The documents `SearchFriend` pages through, in `friendSort` order. */
  function SearchFriend(coll: seq<Friend>, ownerUserId: string, keyword: string,
                        matches: (string, string) -> bool): seq<Friend>
  {
    SortBy(Where(coll, SearchFilter(ownerUserId, keyword, matches)), FriendOrder)
  }

  /** An empty keyword finds every friend of the owner; a non-empty one only
      those it matches. Either way the results are the owner's documents, in
      `friendSort` order, so the pinned ones come first. */
  lemma SearchFriendSpec(coll: seq<Friend>, ownerUserId: string, keyword: string, matches: (string, string) -> bool)
    ensures var r := SearchFriend(coll, ownerUserId, keyword, matches);
      SortedBy(r, FriendOrder) &&
      (forall i, j :: 0 <= i < j < |r| && r[j].isPinned ==> r[i].isPinned) &&
      (forall f :: f in r <==>
        (f in coll && f.ownerUserId == ownerUserId &&
         (keyword == "" || matches(keyword, f.remark) || matches(keyword, f.nickname) || matches(keyword, f.friendUserId))))
  {
    var w := Where(coll, SearchFilter(ownerUserId, keyword, matches));
    FriendOrderTotalPreorder();
    SortBySorted(w, FriendOrder);
    var r := SortBy(w, FriendOrder);
    WhereMembers(coll, SearchFilter(ownerUserId, keyword, matches));
    forall f
      ensures f in r <==> f in w
    {
      assert f in r <==> f in multiset(r);
    }
  }

  class FriendStore {
    var coll: seq<Friend>
    /** The version log: each owner's `IncrVersion` calls, in order. */
    var versions: FriendLogs

    constructor ()
      ensures coll == [] && versions == map[]
    {
      coll := [];
      versions := map[];
    }

    /** `Create`: the documents are inserted, then each owner among them gets
        one log entry naming that owner's new friends in input order. */
    method Create(friends: seq<Friend>)
      modifies this
      ensures coll == old(coll) + friends
      ensures forall o ::
        (Log(versions, o) ==
          if o in KeysOf(friends, OwnerOf) then Log(old(versions), o) + [LogEntry(Collect(friends, OwnerOf, FriendOf, o), false)]
          else Log(old(versions), o))
    {
      coll := coll + friends;
      versions := LogGrouped(versions, friends, OwnerOf, FriendOf, false);
    }

    /** `Delete`: one `DeleteOne` over the owner's documents for the given
        friends, then a log entry marking all of them deleted. */
    method Delete(ownerUserId: string, friendUserIds: seq<string>)
      modifies this
      ensures coll == DeleteOne(old(coll), ownerUserId, friendUserIds)
      ensures versions == Append(old(versions), ownerUserId, LogEntry(friendUserIds, true))
    {
      coll := DeleteOne(coll, ownerUserId, friendUserIds);
      versions := Append(versions, ownerUserId, LogEntry(friendUserIds, true));
    }

    /** `Delete` as its log entry says: every listed friend of the owner goes. */
    method DeleteIntended(ownerUserId: string, friendUserIds: seq<string>)
      modifies this
      ensures coll == DeleteMany(old(coll), ownerUserId, friendUserIds)
      ensures versions == Append(old(versions), ownerUserId, LogEntry(friendUserIds, true))
    {
      coll := DeleteMany(coll, ownerUserId, friendUserIds);
      versions := Append(versions, ownerUserId, LogEntry(friendUserIds, true));
    }

    /** `UpdateByMap`: nothing to set changes nothing, the log included.
        Otherwise `UpdateOne` on the owner's document for the friend; when
        there is none it fails and, the write having failed, no log entry is
        made; when it succeeds, a log entry for the friend follows. */
    method UpdateByMap(ownerUserId: string, friendUserId: string, args: map<string, Value>)
      returns (r: Result<()>)
      modifies this
      ensures |args| == 0 ==> r == Ok(()) && coll == old(coll) && versions == old(versions)
      ensures |args| > 0 ==>
        var u := UpdateOne(old(coll), ownerUserId, friendUserId, args);
        (u.Err? ==> r == Err(u.kind) && coll == old(coll) && versions == old(versions)) &&
        (u.Ok? ==>
           r == Ok(()) && coll == u.value &&
           versions == Append(old(versions), ownerUserId, LogEntry([friendUserId], false)))
    {
      if |args| == 0 {
        return Ok(());
      }
      var u := UpdateOne(coll, ownerUserId, friendUserId, args);
      if u.Err? {
        return Err(u.kind);
      }
      coll := u.value;
      versions := Append(versions, ownerUserId, LogEntry([friendUserId], false));
      r := Ok(());
    }

    /** `UpdateRemark`: `UpdateByMap` with the remark alone. */
    method UpdateRemark(ownerUserId: string, friendUserId: string, remark: string) returns (r: Result<()>)
      modifies this
      ensures var u := UpdateOne(old(coll), ownerUserId, friendUserId, map["remark" := Str(remark)]);
        (u.Err? ==> r == Err(u.kind) && coll == old(coll) && versions == old(versions)) &&
        (u.Ok? ==>
           r == Ok(()) && coll == u.value &&
           versions == Append(old(versions), ownerUserId, LogEntry([friendUserId], false)))
    {
      r := UpdateByMap(ownerUserId, friendUserId, map["remark" := Str(remark)]);
    }

    /** `UpdateFriends`: no friends changes nothing, the log included;
        otherwise `UpdateMany`, then a log entry for the friends. */
    method UpdateFriends(ownerUserId: string, friendUserIds: seq<string>, val: map<string, Value>)
      modifies this
      ensures |friendUserIds| == 0 ==> coll == old(coll) && versions == old(versions)
      ensures |friendUserIds| > 0 ==>
        (coll == UpdateMany(old(coll), ownerUserId, friendUserIds, val) &&
         versions == Append(old(versions), ownerUserId, LogEntry(friendUserIds, false)))
    {
      if |friendUserIds| == 0 {
        return;
      }
      coll := UpdateMany(coll, ownerUserId, friendUserIds, val);
      versions := Append(versions, ownerUserId, LogEntry(friendUserIds, false));
    }
  }

  /** As written, deleting two friends of an owner removes one document only,
      while the log records both as deleted. */
  lemma DeleteKeepsListedFriend()
    ensures var coll := [Blank("owner", "a"), Blank("owner", "b")];
      var r := DeleteOne(coll, "owner", ["a", "b"]);
      r == [Blank("owner", "b")] && Matching(r, "owner", ["a", "b"]) != []
  {
    var r := DeleteOne([Blank("owner", "a"), Blank("owner", "b")], "owner", ["a", "b"]);
    assert Targets(r[0], "owner", ["a", "b"]);
  }

  /** After the intended delete no document of the owner for a friend the log
      marks deleted is left, and every other document is. */
  lemma DeleteIntendedMatchesLog(coll: seq<Friend>, ownerUserId: string, friendUserIds: seq<string>)
    ensures var r := DeleteMany(coll, ownerUserId, friendUserIds);
      (forall f :: f in r ==> !(f.ownerUserId == ownerUserId && f.friendUserId in friendUserIds)) &&
      (forall f :: f in coll && !Targets(f, ownerUserId, friendUserIds) ==> f in r) &&
      DeleteMany(DeleteOne(coll, ownerUserId, friendUserIds), ownerUserId, friendUserIds) == r
  {
    DeleteManySpec(coll, ownerUserId, friendUserIds);
  }
}
