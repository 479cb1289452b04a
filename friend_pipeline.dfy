// The MongoDB update pipeline that adds friend "1000" to owner "2000"'s
// friend document unless it is already there (an idempotent
// read-modify-write). Each pipeline stage is one function from document to
// document; `updateMany` applies the stages to every matching document.
module FriendPipeline {
  import opened Common

  /** One element of the `friends` array. */
  datatype FriendEntry = FriendEntry(
    friendUserId: string,
    nickname: string,
    faceUrl: string,
    remark: string,
    createTime: int,
    addSource: int,
    operatorUserId: string,
    ex: string,
    isPinned: bool,
    updateVersion: int,
    deleted: bool)

  /** An owner's friend document; `isFriendFound` is the pipeline's scratch field. */
  datatype OwnerDoc = OwnerDoc(
    userId: string,
    updateVersion: int,
    friends: seq<FriendEntry>,
    isFriendFound: Option<bool>)

  const OwnerId: string := "2000"
  const NewFriendId: string := "1000"

  /** `$in: [id, "$friends.friend_user_id"]`: membership looks at the IDs only. */
  predicate HasFriend(friends: seq<FriendEntry>, id: string)
  {
    exists i :: 0 <= i < |friends| && friends[i].friendUserId == id
  }

  /** A `$cond` on a field that may be missing: only a present `true` is truthy. */
  predicate Found(d: OwnerDoc) { d.isFriendFound == Some(true) }

  /** The literal entry the pipeline appends; `now` is the `new Date()` of the operation. */
  function NewEntry(now: int, version: int): FriendEntry
  {
    FriendEntry(NewFriendId, "new_friend_nickname", "new_friend_face_url", "new_friend_remark",
                now, 1, "new_operator_user_id", "new_ex", false, version, false)
  }

  /** Stage 1: `$addFields isFriendFound`. */
  function AddFound(d: OwnerDoc): OwnerDoc
  {
    d.(isFriendFound := Some(HasFriend(d.friends, NewFriendId)))
  }

  /** Stage 2: keep `update_version` when found, else add one. */
  function SetVersion(d: OwnerDoc): OwnerDoc
  {
    d.(updateVersion := if Found(d) then d.updateVersion else d.updateVersion + 1)
  }

  /** Stage 3: keep `friends` when found, else append the new entry, whose
      `update_version` reads the document's field as stage 2 left it. */
  function SetFriends(d: OwnerDoc, now: int): OwnerDoc
  {
    d.(friends := if Found(d) then d.friends else d.friends + [NewEntry(now, d.updateVersion)])
  }

  /** Stage 4: `$unset isFriendFound`. */
  function UnsetFound(d: OwnerDoc): OwnerDoc
  {
    d.(isFriendFound := None)
  }

  /** The four stages in order, applied to one matching document. */
  function Pipeline(d: OwnerDoc, now: int): (r: OwnerDoc)
    ensures r.userId == d.userId && r.isFriendFound.None?
    ensures HasFriend(d.friends, NewFriendId) ==>
              r.friends == d.friends && r.updateVersion == d.updateVersion
    ensures !HasFriend(d.friends, NewFriendId) ==>
              r.updateVersion == d.updateVersion + 1 &&
              r.friends == d.friends + [NewEntry(now, d.updateVersion + 1)]
  {
    UnsetFound(SetFriends(SetVersion(AddFound(d)), now))
  }

  /** The appended entry is friend "1000", not pinned, not deleted, and carries
      the document's new (already incremented) version. */
  lemma AppendedEntry(d: OwnerDoc, now: int)
    requires !HasFriend(d.friends, NewFriendId)
    ensures var r := Pipeline(d, now);
      |r.friends| == |d.friends| + 1 &&
      r.friends[..|d.friends|] == d.friends &&
      var e := r.friends[|d.friends|];
      e.friendUserId == NewFriendId && !e.isPinned && !e.deleted &&
      e.createTime == now && e.updateVersion == r.updateVersion
  {
    var r := Pipeline(d, now);
    assert r.friends[..|d.friends|] == d.friends;
  }

  /** A tombstoned entry (`deleted: true`) for "1000" still blocks re-insertion. */
  lemma DeletedEntryBlocks(d: OwnerDoc, now: int, i: int)
    requires 0 <= i < |d.friends|
    requires d.friends[i].friendUserId == NewFriendId && d.friends[i].deleted
    ensures Pipeline(d, now).friends == d.friends
    ensures Pipeline(d, now).updateVersion == d.updateVersion
  {
  }

  /** After the pipeline friend "1000" is always present. */
  lemma PipelineAddsFriend(d: OwnerDoc, now: int)
    ensures HasFriend(Pipeline(d, now).friends, NewFriendId)
  {
    var r := Pipeline(d, now);
    if !HasFriend(d.friends, NewFriendId) {
      assert r.friends[|d.friends|].friendUserId == NewFriendId;
    }
  }

  /** Running the update a second time (at any time) changes nothing. */
  lemma PipelineIdempotent(d: OwnerDoc, t1: int, t2: int)
    ensures Pipeline(Pipeline(d, t1), t2) == Pipeline(d, t1)
  {
    PipelineAddsFriend(d, t1);
  }

  /** `updateMany` with filter `{user_id: "2000"}` over a collection. */
  function UpdateMany(docs: seq<OwnerDoc>, now: int): (r: seq<OwnerDoc>)
    ensures |r| == |docs|
    ensures forall i :: 0 <= i < |docs| && docs[i].userId != OwnerId ==> r[i] == docs[i]
    ensures forall i :: 0 <= i < |docs| && docs[i].userId == OwnerId ==>
              r[i] == Pipeline(docs[i], now) && r[i].isFriendFound.None?
  {
    if |docs| == 0 then []
    else
      var head := if docs[0].userId == OwnerId then Pipeline(docs[0], now) else docs[0];
      [head] + UpdateMany(docs[1..], now)
  }

  /** The whole update is idempotent on a collection. */
  lemma {:induction false} UpdateManyIdempotent(docs: seq<OwnerDoc>, t1: int, t2: int)
    ensures UpdateMany(UpdateMany(docs, t1), t2) == UpdateMany(docs, t1)
  {
    var once := UpdateMany(docs, t1);
    var twice := UpdateMany(once, t2);
    forall i | 0 <= i < |docs|
      ensures twice[i] == once[i]
    {
      if docs[i].userId == OwnerId {
        PipelineIdempotent(docs[i], t1, t2);
      }
    }
  }
}
