// The friend collection: one document per owner and friend, and the effect on
// the collection of the write operations both friend stores issue (`DeleteOne`,
// `UpdateOne` without upsert, `UpdateMany`, each with an owner-and-friends filter).
// The collection is a sequence in Mongo's natural order.
module FriendDocs {
  import opened Common

  /** A friend document (`FriendModel`). `createTime` is in Unix seconds. */
  datatype Friend = Friend(ownerUserId: string, friendUserId: string, remark: string, nickname: string,
                           faceUrl: string, createTime: int, addSource: int, operatorUserId: string,
                           ex: string, isPinned: bool)

  /** A value in an update's `$set` map. */
  datatype Value = Str(s: string) | Int(i: int) | Bool(b: bool)

  /** A document with the owner and friend set and every other field zero. */
  function Blank(ownerUserId: string, friendUserId: string): Friend
  {
    Friend(ownerUserId, friendUserId, "", "", "", 0, 0, "", "", false)
  }

  function StrArg(args: map<string, Value>, name: string, current: string): string
  {
    if name in args && args[name].Str? then args[name].s else current
  }

  function IntArg(args: map<string, Value>, name: string, current: int): int
  {
    if name in args && args[name].Int? then args[name].i else current
  }

  function BoolArg(args: map<string, Value>, name: string, current: bool): bool
  {
    if name in args && args[name].Bool? then args[name].b else current
  }

  /** `$set`: each document field named in `args` (by its stored name) takes
      the value given for it. */
  function Set(f: Friend, args: map<string, Value>): (r: Friend)
    ensures r.ownerUserId == f.ownerUserId && r.friendUserId == f.friendUserId
    ensures |args| == 0 ==> r == f
  {
    f.(remark := StrArg(args, "remark", f.remark),
       nickname := StrArg(args, "nickname", f.nickname),
       faceUrl := StrArg(args, "face_url", f.faceUrl),
       createTime := IntArg(args, "create_time", f.createTime),
       addSource := IntArg(args, "add_source", f.addSource),
       operatorUserId := StrArg(args, "operator_user_id", f.operatorUserId),
       ex := StrArg(args, "ex", f.ex),
       isPinned := BoolArg(args, "is_pinned", f.isPinned))
  }

  /** The documents a query matches, in collection order. */
  function Where(coll: seq<Friend>, where: Friend -> bool): seq<Friend>
  {
    if |coll| == 0 then [] else (if where(coll[0]) then [coll[0]] else []) + Where(coll[1..], where)
  }

  /** A query returns exactly the documents it matches. */
  lemma {:induction false} WhereMembers(coll: seq<Friend>, where: Friend -> bool)
    ensures forall f :: f in Where(coll, where) <==> f in coll && where(f)
  {
    if |coll| > 0 {
      WhereMembers(coll[1..], where);
      assert coll == [coll[0]] + coll[1..];
    }
  }

  /** The filter `{owner_user_id: owner, friend_user_id: {$in: ids}}`. */
  predicate Targets(f: Friend, owner: string, ids: seq<string>)
  {
    f.ownerUserId == owner && f.friendUserId in ids
  }

  /** The documents the filter matches, in collection order. */
  function Matching(coll: seq<Friend>, owner: string, ids: seq<string>): (r: seq<Friend>)
    ensures |r| <= |coll|
    ensures forall f :: f in r <==> f in coll && Targets(f, owner, ids)
  {
    if |coll| == 0 then []
    else
      assert coll == [coll[0]] + coll[1..];
      (if Targets(coll[0], owner, ids) then [coll[0]] else []) + Matching(coll[1..], owner, ids)
  }

  /** What `DeleteMany` with the filter leaves: the documents it does not match. */
  function DeleteMany(coll: seq<Friend>, owner: string, ids: seq<string>): (r: seq<Friend>)
    ensures |r| <= |coll|
    ensures forall f :: f in r <==> f in coll && !Targets(f, owner, ids)
  {
    if |coll| == 0 then []
    else
      assert coll == [coll[0]] + coll[1..];
      (if Targets(coll[0], owner, ids) then [] else [coll[0]]) + DeleteMany(coll[1..], owner, ids)
  }

  /** Every document is matched or left by `DeleteMany`, never both. */
  lemma {:induction false} MatchingSplit(coll: seq<Friend>, owner: string, ids: seq<string>)
    ensures |Matching(coll, owner, ids)| + |DeleteMany(coll, owner, ids)| == |coll|
  {
    if |coll| > 0 {
      MatchingSplit(coll[1..], owner, ids);
    }
  }

  /** `DeleteOne`: the first matching document is removed. */
  function DeleteOne(coll: seq<Friend>, owner: string, ids: seq<string>): seq<Friend>
  {
    if |coll| == 0 then []
    else if Targets(coll[0], owner, ids) then coll[1..]
    else [coll[0]] + DeleteOne(coll[1..], owner, ids)
  }

  /** `DeleteOne` removes exactly one matching document when there is one (the
      first), and nothing else: the unmatched documents stay, in order. */
  lemma {:induction false} DeleteOneSpec(coll: seq<Friend>, owner: string, ids: seq<string>)
    ensures var r := DeleteOne(coll, owner, ids);
      DeleteMany(r, owner, ids) == DeleteMany(coll, owner, ids) &&
      Matching(r, owner, ids) == (if |Matching(coll, owner, ids)| == 0 then [] else Matching(coll, owner, ids)[1..]) &&
      |r| == (if |Matching(coll, owner, ids)| == 0 then |coll| else |coll| - 1)
  {
    if |coll| > 0 {
      DeleteOneSpec(coll[1..], owner, ids);
      if Targets(coll[0], owner, ids) {
        assert Matching(coll, owner, ids) == [coll[0]] + Matching(coll[1..], owner, ids);
      }
    }
  }

  /** `DeleteMany` leaves no matching document and keeps the rest in order;
      after it, a `DeleteOne` with the same filter has nothing to remove. */
  lemma {:induction false} DeleteManySpec(coll: seq<Friend>, owner: string, ids: seq<string>)
    ensures var r := DeleteMany(coll, owner, ids);
      Matching(r, owner, ids) == [] && DeleteMany(r, owner, ids) == r &&
      |r| == |coll| - |Matching(coll, owner, ids)| &&
      DeleteMany(DeleteOne(coll, owner, ids), owner, ids) == r
  {
    MatchingSplit(coll, owner, ids);
    DeleteOneSpec(coll, owner, ids);
    if |coll| > 0 {
      DeleteManySpec(coll[1..], owner, ids);
      if !Targets(coll[0], owner, ids) {
        var r := DeleteMany(coll, owner, ids);
        assert r == [coll[0]] + DeleteMany(coll[1..], owner, ids);
        assert r[1..] == DeleteMany(coll[1..], owner, ids);
      }
    }
  }

  /** The first matching document, if any. */
  function FirstMatch(coll: seq<Friend>, owner: string, ids: seq<string>): (r: Option<Friend>)
    ensures r.None? <==> |Matching(coll, owner, ids)| == 0
    ensures r.Some? ==> r.value == Matching(coll, owner, ids)[0]
  {
    var m := Matching(coll, owner, ids);
    if |m| == 0 then None else Some(m[0])
  }

  /** `$set` on the first document for the owner and friend; the others are
      kept, in order. */
  function SetFirst(coll: seq<Friend>, owner: string, friend: string, args: map<string, Value>): seq<Friend>
  {
    if |coll| == 0 then []
    else if Targets(coll[0], owner, [friend]) then [Set(coll[0], args)] + coll[1..]
    else [coll[0]] + SetFirst(coll[1..], owner, friend, args)
  }

  /** `UpdateOne(filter, {$set: args}, true)`: no upsert option is passed, and
      the trailing `true` turns a filter that matches nothing into a not-found
      error; otherwise the first match is updated. */
  function UpdateOne(coll: seq<Friend>, owner: string, friend: string, args: map<string, Value>)
    : Result<seq<Friend>>
  {
    if FirstMatch(coll, owner, [friend]).None? then Err(RecordNotFound)
    else Ok(SetFirst(coll, owner, friend, args))
  }

  /** An update of a missing document is a not-found error and creates
      nothing. Otherwise the owner's first document for the friend is the old
      one updated, and every other document is untouched and in order: no
      document is added or removed. */
  lemma {:induction false} UpdateOneSpec(coll: seq<Friend>, owner: string, friend: string, args: map<string, Value>)
    ensures var r := UpdateOne(coll, owner, friend, args);
      var before := FirstMatch(coll, owner, [friend]);
      (r.Err? <==> before.None?) &&
      (r.Err? ==> r.kind == RecordNotFound) &&
      (r.Ok? ==>
        FirstMatch(r.value, owner, [friend]) == Some(Set(before.value, args)) &&
        DeleteMany(r.value, owner, [friend]) == DeleteMany(coll, owner, [friend]) &&
        |r.value| == |coll|)
  {
    if |coll| > 0 && FirstMatch(coll, owner, [friend]).Some? {
      var r := SetFirst(coll, owner, friend, args);
      if Targets(coll[0], owner, [friend]) {
        assert r[1..] == coll[1..];
        assert Matching(r, owner, [friend]) == [Set(coll[0], args)] + Matching(coll[1..], owner, [friend]);
        assert Matching(coll, owner, [friend]) == [coll[0]] + Matching(coll[1..], owner, [friend]);
      } else {
        assert Matching(coll, owner, [friend]) == Matching(coll[1..], owner, [friend]);
        UpdateOneSpec(coll[1..], owner, friend, args);
        assert r[1..] == SetFirst(coll[1..], owner, friend, args);
      }
    }
  }

  /** `$set` applied to each document of a sequence. */
  function SetAll(fs: seq<Friend>, args: map<string, Value>): (r: seq<Friend>)
    ensures |r| == |fs|
  {
    if |fs| == 0 then [] else [Set(fs[0], args)] + SetAll(fs[1..], args)
  }

  /** `UpdateMany(filter, {$set: args})`. */
  function UpdateMany(coll: seq<Friend>, owner: string, ids: seq<string>, args: map<string, Value>): (r: seq<Friend>)
    ensures |r| == |coll|
  {
    if |coll| == 0 then []
    else [if Targets(coll[0], owner, ids) then Set(coll[0], args) else coll[0]] + UpdateMany(coll[1..], owner, ids, args)
  }

  /** `UpdateMany` updates every matching document: the matched documents
      afterwards are the old ones with the update applied, in order. */
  lemma {:induction false} UpdateManyMatched(coll: seq<Friend>, owner: string, ids: seq<string>, args: map<string, Value>)
    ensures Matching(UpdateMany(coll, owner, ids, args), owner, ids) == SetAll(Matching(coll, owner, ids), args)
  {
    if |coll| > 0 {
      UpdateManyMatched(coll[1..], owner, ids, args);
      var r := UpdateMany(coll, owner, ids, args);
      var rest := UpdateMany(coll[1..], owner, ids, args);
      assert r == [r[0]] + rest;
      if Targets(coll[0], owner, ids) {
        var m := Matching(coll, owner, ids);
        var mr := Matching(coll[1..], owner, ids);
        assert m == [coll[0]] + mr;
        assert SetAll(m, args) == [Set(coll[0], args)] + SetAll(mr, args) by {
          assert m[1..] == mr;
        }
        assert Matching(r, owner, ids) == [r[0]] + Matching(rest, owner, ids);
      } else {
        assert r[0] == coll[0];
        assert Matching(r, owner, ids) == Matching(rest, owner, ids);
        assert Matching(coll, owner, ids) == Matching(coll[1..], owner, ids);
      }
    }
  }

  /** `UpdateMany` touches no other document: those stay as they were. */
  lemma {:induction false} UpdateManyOthers(coll: seq<Friend>, owner: string, ids: seq<string>, args: map<string, Value>)
    ensures DeleteMany(UpdateMany(coll, owner, ids, args), owner, ids) == DeleteMany(coll, owner, ids)
  {
    if |coll| > 0 {
      UpdateManyOthers(coll[1..], owner, ids, args);
      var r := UpdateMany(coll, owner, ids, args);
      assert r == [r[0]] + UpdateMany(coll[1..], owner, ids, args);
    }
  }
}
