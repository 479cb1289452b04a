// The friend cache: the keys each `Del*` call registers for deletion on a new
// cache object, the two-way friend lookup, and the string the friend-list hash
// is computed over (the MD5 digest itself is outside the model).
module FriendCache {
  import opened Common
  import opened Strs
  import opened Sorting
  import opened FriendDocs
  import FriendMgo

  /** The `cachekey` builders: friend-ID list, one friend, friend-list hash
      (which takes the hash size). */
  datatype KeyBuilders = KeyBuilders(friendIds: string -> string,
                                     friend: (string, string) -> string,
                                     friendHash: (int, string) -> string)

  class FriendCache {
    const keyOf: KeyBuilders
    var hashNum: int
    /** The keys registered for deletion (`AddKeys`), in order. */
    var keys: seq<string>

    constructor (keyOf: KeyBuilders, hashNum: int)
      ensures this.keyOf == keyOf && this.hashNum == hashNum && keys == []
    {
      this.keyOf := keyOf;
      this.hashNum := hashNum;
      keys := [];
    }

    method AddKeys(ks: seq<string>)
      modifies this
      ensures keys == old(keys) + ks
      ensures hashNum == old(hashNum)
    {
      keys := keys + ks;
    }

    /** `NewCache`: a copy carrying the registered keys; the hash size is not
        copied and is zero in the new cache. */
    method NewCache() returns (c: FriendCache)
      ensures fresh(c) && c.keyOf == keyOf && c.keys == keys && c.hashNum == 0
    {
      c := new FriendCache(keyOf, 0);
      c.keys := keys;
    }

    /** `NewCache` carrying the hash size over as well. */
    method NewCacheIntended() returns (c: FriendCache)
      ensures fresh(c) && c.keyOf == keyOf && c.keys == keys && c.hashNum == hashNum
    {
      c := new FriendCache(keyOf, hashNum);
      c.keys := keys;
    }

    /** `DelFriendIDs`: one friend-ID-list key per owner, in order. */
    method DelFriendIds(ownerUserIds: seq<string>) returns (c: FriendCache)
      ensures fresh(c) && c.keyOf == keyOf && c.hashNum == 0
      ensures |c.keys| == |keys| + |ownerUserIds| && c.keys[..|keys|] == keys
      ensures forall i :: 0 <= i < |ownerUserIds| ==> c.keys[|keys| + i] == keyOf.friendIds(ownerUserIds[i])
    {
      c := NewCache();
      var ks: seq<string> := [];
      for i := 0 to |ownerUserIds|
        invariant |ks| == i
        invariant forall j :: 0 <= j < i ==> ks[j] == keyOf.friendIds(ownerUserIds[j])
      {
        ks := ks + [keyOf.friendIds(ownerUserIds[i])];
      }
      c.AddKeys(ks);
    }

    /** `DelFriendHash`: one hash key per user, built with this cache's hash
        size. */
    method DelFriendHash(userIds: seq<string>) returns (c: FriendCache)
      ensures fresh(c) && c.keyOf == keyOf && c.hashNum == 0
      ensures |c.keys| == |keys| + |userIds| && c.keys[..|keys|] == keys
      ensures forall i :: 0 <= i < |userIds| ==> c.keys[|keys| + i] == keyOf.friendHash(hashNum, userIds[i])
    {
      c := NewCache();
      for i := 0 to |userIds|
        invariant |c.keys| == |keys| + i && c.keys[..|keys|] == keys && c.hashNum == 0
        invariant forall j :: 0 <= j < i ==> c.keys[|keys| + j] == keyOf.friendHash(hashNum, userIds[j])
      {
        c.AddKeys([keyOf.friendHash(hashNum, userIds[i])]);
      }
    }

    /** `DelFriend`: the one friend's key. */
    method DelFriend(ownerUserId: string, friendUserId: string) returns (c: FriendCache)
      ensures fresh(c) && c.keyOf == keyOf && c.hashNum == 0
      ensures c.keys == keys + [keyOf.friend(ownerUserId, friendUserId)]
    {
      c := NewCache();
      c.AddKeys([keyOf.friend(ownerUserId, friendUserId)]);
    }

    /** `DelFriends`: one friend key per friend of the owner, in order. */
    method DelFriends(ownerUserId: string, friendUserIds: seq<string>) returns (c: FriendCache)
      ensures fresh(c) && c.keyOf == keyOf && c.hashNum == 0
      ensures |c.keys| == |keys| + |friendUserIds| && c.keys[..|keys|] == keys
      ensures forall i :: 0 <= i < |friendUserIds| ==> c.keys[|keys| + i] == keyOf.friend(ownerUserId, friendUserIds[i])
    {
      c := NewCache();
      for i := 0 to |friendUserIds|
        invariant |c.keys| == |keys| + i && c.keys[..|keys|] == keys && c.hashNum == 0
        invariant forall j :: 0 <= j < i ==> c.keys[|keys| + j] == keyOf.friend(ownerUserId, friendUserIds[j])
      {
        c.AddKeys([keyOf.friend(ownerUserId, friendUserIds[i])]);
      }
    }

    /** `DelOwner`: the friend's key under each owner, in order. */
    method DelOwner(friendUserId: string, ownerUserIds: seq<string>) returns (c: FriendCache)
      ensures fresh(c) && c.keyOf == keyOf && c.hashNum == 0
      ensures |c.keys| == |keys| + |ownerUserIds| && c.keys[..|keys|] == keys
      ensures forall i :: 0 <= i < |ownerUserIds| ==> c.keys[|keys| + i] == keyOf.friend(ownerUserIds[i], friendUserId)
    {
      c := NewCache();
      for i := 0 to |ownerUserIds|
        invariant |c.keys| == |keys| + i && c.keys[..|keys|] == keys && c.hashNum == 0
        invariant forall j :: 0 <= j < i ==> c.keys[|keys| + j] == keyOf.friend(ownerUserIds[j], friendUserId)
      {
        c.AddKeys([keyOf.friend(ownerUserIds[i], friendUserId)]);
      }
    }

    /** `GetTwoWayFriendIDs` over the friend-ID lookup `getFriendIds`: for each
        of the owner's friends whose own list holds the owner, the owner's ID
        is appended. */
    method GetTwoWayFriendIds(getFriendIds: string -> Result<seq<string>>, ownerUserId: string)
      returns (r: Result<seq<string>>)
      ensures r == TwoWayFriendIds(getFriendIds, ownerUserId, false)
    {
      var friendIds := getFriendIds(ownerUserId);
      if friendIds.Err? {
        return Err(friendIds.kind);
      }
      var ids := friendIds.value;
      var twoWay: seq<string> := [];
      for i := 0 to |ids|
        invariant TwoWayOver(getFriendIds, ownerUserId, ids[..i], false) == Ok(twoWay)
      {
        assert ids[..i + 1][..i] == ids[..i] && ids[..i + 1][i] == ids[i];
        var theirs := getFriendIds(ids[i]);
        if theirs.Err? {
          TwoWayPrefixError(getFriendIds, ownerUserId, ids, i + 1, false);
          return Err(theirs.kind);
        }
        if ownerUserId in theirs.value {
          twoWay := twoWay + [ownerUserId];
        } else {
          assert twoWay + [] == twoWay;
        }
      }
      assert ids[..|ids|] == ids;
      r := Ok(twoWay);
    }
  }

  /** What the two-way list holds for a mutual friend: the owner's ID as
      written, or the friend's (`pickFriend`). */
  function Pick(ownerUserId: string, friendId: string, pickFriend: bool): string
  {
    if pickFriend then friendId else ownerUserId
  }

  /** The two-way pass over `ids`: an element for each friend whose list holds
      the owner; the first failed lookup is the result. */
  function TwoWayOver(getFriendIds: string -> Result<seq<string>>, ownerUserId: string, ids: seq<string>,
                      pickFriend: bool): Result<seq<string>>
  {
    if |ids| == 0 then Ok([])
    else
      match TwoWayOver(getFriendIds, ownerUserId, ids[..|ids| - 1], pickFriend)
      case Err(e) => Err(e)
      case Ok(acc) =>
        match getFriendIds(ids[|ids| - 1])
        case Err(e) => Err(e)
        case Ok(theirs) =>
          Ok(acc + if ownerUserId in theirs then [Pick(ownerUserId, ids[|ids| - 1], pickFriend)] else [])
  }

  function TwoWayFriendIds(getFriendIds: string -> Result<seq<string>>, ownerUserId: string,
                           pickFriend: bool): Result<seq<string>>
  {
    match getFriendIds(ownerUserId)
    case Err(e) => Err(e)
    case Ok(ids) => TwoWayOver(getFriendIds, ownerUserId, ids, pickFriend)
  }

  lemma {:induction false} TwoWayPrefixError(getFriendIds: string -> Result<seq<string>>, ownerUserId: string,
                                             ids: seq<string>, n: nat, pickFriend: bool)
    requires n <= |ids| && TwoWayOver(getFriendIds, ownerUserId, ids[..n], pickFriend).Err?
    ensures TwoWayOver(getFriendIds, ownerUserId, ids, pickFriend) ==
      TwoWayOver(getFriendIds, ownerUserId, ids[..n], pickFriend)
    decreases |ids|
  {
    if n < |ids| {
      assert ids[..|ids| - 1][..n] == ids[..n];
      TwoWayPrefixError(getFriendIds, ownerUserId, ids[..|ids| - 1], n, pickFriend);
    } else {
      assert ids[..n] == ids;
    }
  }

  /** Whether `friendId`'s own friend list could be read and holds the owner. */
  predicate IsMutual(getFriendIds: string -> Result<seq<string>>, ownerUserId: string, friendId: string)
  {
    getFriendIds(friendId).Ok? && ownerUserId in getFriendIds(friendId).value
  }

  /** The friends in `ids` whose own list holds the owner, in order. */
  function MutualFriends(getFriendIds: string -> Result<seq<string>>, ownerUserId: string,
                         ids: seq<string>): seq<string>
  {
    if |ids| == 0 then []
    else
      var head := if IsMutual(getFriendIds, ownerUserId, ids[0]) then [ids[0]] else [];
      head + MutualFriends(getFriendIds, ownerUserId, ids[1..])
  }

  /** Filtering a list grown at the end. */
  lemma {:induction false} MutualFriendsSnoc(getFriendIds: string -> Result<seq<string>>, ownerUserId: string,
                                             ids: seq<string>)
    requires |ids| > 0
    ensures var last := ids[|ids| - 1];
      MutualFriends(getFriendIds, ownerUserId, ids) ==
        MutualFriends(getFriendIds, ownerUserId, ids[..|ids| - 1]) +
        (if IsMutual(getFriendIds, ownerUserId, last) then [last] else [])
    decreases |ids|
  {
    var last := ids[|ids| - 1];
    var step := if IsMutual(getFriendIds, ownerUserId, last) then [last] else [];
    if |ids| == 1 {
      assert ids[1..] == [] && ids[..0] == [] && ids[0] == last;
      assert MutualFriends(getFriendIds, ownerUserId, ids) == step + [];
    } else {
      var t := ids[1..];
      MutualFriendsSnoc(getFriendIds, ownerUserId, t);
      var init := ids[..|ids| - 1];
      assert init[0] == ids[0] && init[1..] == t[..|t| - 1] && t[|t| - 1] == last;
      var head := if IsMutual(getFriendIds, ownerUserId, ids[0]) then [ids[0]] else [];
      calc {
        MutualFriends(getFriendIds, ownerUserId, ids);
        head + MutualFriends(getFriendIds, ownerUserId, t);
        head + (MutualFriends(getFriendIds, ownerUserId, t[..|t| - 1]) + step);
        (head + MutualFriends(getFriendIds, ownerUserId, init[1..])) + step;
        MutualFriends(getFriendIds, ownerUserId, init) + step;
      }
    }
  }

  /** A successful pass looked up every friend, and holds, in order, what
      `Pick` gives for each friend whose list holds the owner. */
  lemma {:induction false} TwoWayOverSpec(getFriendIds: string -> Result<seq<string>>, ownerUserId: string,
                                          ids: seq<string>, pickFriend: bool)
    requires TwoWayOver(getFriendIds, ownerUserId, ids, pickFriend).Ok?
    ensures forall i :: 0 <= i < |ids| ==> getFriendIds(ids[i]).Ok?
    ensures forall x :: x in TwoWayOver(getFriendIds, ownerUserId, ids, pickFriend).value <==>
      exists i :: 0 <= i < |ids| && ownerUserId in getFriendIds(ids[i]).value && x == Pick(ownerUserId, ids[i], pickFriend)
    ensures var m := MutualFriends(getFriendIds, ownerUserId, ids);
      var v := TwoWayOver(getFriendIds, ownerUserId, ids, pickFriend).value;
      |v| == |m| && forall i :: 0 <= i < |v| ==> v[i] == Pick(ownerUserId, m[i], pickFriend)
  {
    if |ids| > 0 {
      var init := ids[..|ids| - 1];
      TwoWayOverSpec(getFriendIds, ownerUserId, init, pickFriend);
      MutualFriendsSnoc(getFriendIds, ownerUserId, ids);
      forall i | 0 <= i < |ids|
        ensures getFriendIds(ids[i]).Ok?
      {
        if i < |ids| - 1 {
          assert init[i] == ids[i];
        }
      }
      forall x
        ensures x in TwoWayOver(getFriendIds, ownerUserId, ids, pickFriend).value <==>
          exists i :: 0 <= i < |ids| && ownerUserId in getFriendIds(ids[i]).value && x == Pick(ownerUserId, ids[i], pickFriend)
      {
        if exists i :: 0 <= i < |ids| && ownerUserId in getFriendIds(ids[i]).value && x == Pick(ownerUserId, ids[i], pickFriend) {
          var i :| 0 <= i < |ids| && ownerUserId in getFriendIds(ids[i]).value && x == Pick(ownerUserId, ids[i], pickFriend);
          if i < |ids| - 1 {
            assert init[i] == ids[i];
          }
        }
        if x in TwoWayOver(getFriendIds, ownerUserId, init, pickFriend).value {
          var i :| 0 <= i < |init| && ownerUserId in getFriendIds(init[i]).value && x == Pick(ownerUserId, init[i], pickFriend);
          assert ids[i] == init[i];
        }
      }
    }
  }

  /** As written, every element of the two-way list is the owner's own ID. */
  lemma TwoWayYieldsOwner(getFriendIds: string -> Result<seq<string>>, ownerUserId: string)
    requires TwoWayFriendIds(getFriendIds, ownerUserId, false).Ok?
    ensures var r := TwoWayFriendIds(getFriendIds, ownerUserId, false).value;
      (forall i :: 0 <= i < |r| ==> r[i] == ownerUserId) &&
      |r| == |MutualFriends(getFriendIds, ownerUserId, getFriendIds(ownerUserId).value)|
  {
    var r := TwoWayFriendIds(getFriendIds, ownerUserId, false).value;
    TwoWayOverSpec(getFriendIds, ownerUserId, getFriendIds(ownerUserId).value, false);
    assert forall i :: 0 <= i < |r| ==> r[i] in r;
  }

  /** The concrete case: "a" and "b" are each other's friends; "a"'s two-way
      list comes back as ["a"], not ["b"]. */
  lemma TwoWayMutualPair()
    ensures TwoWayFriendIds(MutualPair, "a", false) == Ok(["a"])
    ensures TwoWayFriendIds(MutualPair, "a", true) == Ok(["b"])
  {
    var ids := ["b"];
    assert ids[..|ids| - 1] == [] && ids[|ids| - 1] == "b";
    assert TwoWayOver(MutualPair, "a", ids, false) == Ok([] + ["a"]);
    assert TwoWayOver(MutualPair, "a", ids, true) == Ok([] + ["b"]);
    assert [] + ["a"] == ["a"] && [] + ["b"] == ["b"];
  }

  /** The friend lists of two users who are each other's only friend. */
  function MutualPair(u: string): Result<seq<string>>
  {
    if u == "a" then Ok(["b"]) else Ok(["a"])
  }

  /** Picking each friend's own ID, the list is exactly the owner's friends
      whose lists hold the owner: the mutual friends. */
  lemma TwoWayIntended(getFriendIds: string -> Result<seq<string>>, ownerUserId: string)
    requires TwoWayFriendIds(getFriendIds, ownerUserId, true).Ok?
    ensures var ids := getFriendIds(ownerUserId).value;
      TwoWayFriendIds(getFriendIds, ownerUserId, true).value == MutualFriends(getFriendIds, ownerUserId, ids) &&
      forall x :: x in TwoWayFriendIds(getFriendIds, ownerUserId, true).value <==>
        x in ids && getFriendIds(x).Ok? && ownerUserId in getFriendIds(x).value
  {
    var ids := getFriendIds(ownerUserId).value;
    TwoWayOverSpec(getFriendIds, ownerUserId, ids, true);
    var v := TwoWayFriendIds(getFriendIds, ownerUserId, true).value;
    assert forall i :: 0 <= i < |v| ==> v[i] == MutualFriends(getFriendIds, ownerUserId, ids)[i];
    forall x | x in ids
      ensures getFriendIds(x).Ok?
    {
      var i :| 0 <= i < |ids| && ids[i] == x;
    }
  }

  /** `strconv.FormatBool`. */
  function FormatBool(b: bool): string
  {
    if b then "true" else "false"
  }

  /** The seven fields of a friend's line in the hash input. */
  function HashFields(f: Friend): seq<string>
  {
    [f.friendUserId, f.remark, IntToString(f.createTime), IntToString(f.addSource), f.operatorUserId, f.ex,
     FormatBool(f.isPinned)]
  }

  /** The hash sorts by creation time, newest first. */
  predicate NewerFirst(a: Friend, b: Friend)
  {
    a.createTime >= b.createTime
  }

  function HashOrder(friends: seq<Friend>): seq<Friend>
  {
    SortBy(friends, NewerFirst)
  }

  function HashLines(friends: seq<Friend>): (r: seq<string>)
    ensures |r| == |friends|
  {
    seq(|friends|, i requires 0 <= i < |friends| => Join(HashFields(friends[i]), ","))
  }

  /** The string `getFriendHash` digests: the total, then one line per friend
      newest first, joined with ";". */
  function FriendHashInput(total: int, friends: seq<Friend>): string
  {
    Join([IntToString(total)] + HashLines(HashOrder(friends)), ";")
  }

  /** The friends behind the hash are those given, newest first. */
  lemma HashOrderSpec(friends: seq<Friend>)
    ensures SortedBy(HashOrder(friends), NewerFirst)
    ensures multiset(HashOrder(friends)) == multiset(friends)
  {
    SortBySorted(friends, NewerFirst);
  }

  /** The text fields hold neither separator. */
  predicate Plain(f: Friend)
  {
    (';' !in f.friendUserId && ';' !in f.remark && ';' !in f.operatorUserId && ';' !in f.ex) &&
    (',' !in f.friendUserId && ',' !in f.remark && ',' !in f.operatorUserId && ',' !in f.ex)
  }

  /** A friend line of a plain friend holds no ";" and splits back at ","
      into its seven fields. */
  lemma HashLineReadsBack(f: Friend)
    requires Plain(f)
    ensures ';' !in Join(HashFields(f), ",") && Split(Join(HashFields(f), ","), ',') == HashFields(f)
  {
    var fields := HashFields(f);
    IntToStringChars(f.createTime, ';');
    IntToStringChars(f.createTime, ',');
    IntToStringChars(f.addSource, ';');
    IntToStringChars(f.addSource, ',');
    assert forall k :: 0 <= k < |fields| ==> ';' !in fields[k] && ',' !in fields[k];
    JoinWithout(fields, ",", ';');
    SplitJoin(fields, ',');
  }

  /** When no friend's text holds a separator, the input reads back: its first
      ";" piece is the total, and each further piece splits at "," into the
      seven fields of the next friend, newest first. */
  lemma FriendHashInputReadsBack(total: int, friends: seq<Friend>)
    requires forall i :: 0 <= i < |friends| ==> Plain(friends[i])
    ensures var parts := Split(FriendHashInput(total, friends), ';');
      var sorted := HashOrder(friends);
      |parts| == |friends| + 1 && parts[0] == IntToString(total) &&
      (InInt64(total) ==> Atoi(parts[0]) == Some(total)) &&
      forall i :: 0 <= i < |friends| ==> Split(parts[i + 1], ',') == HashFields(sorted[i])
  {
    var sorted := HashOrder(friends);
    var lines := HashLines(sorted);
    forall i | 0 <= i < |sorted|
      ensures ';' !in lines[i] && Split(lines[i], ',') == HashFields(sorted[i])
    {
      assert sorted[i] in multiset(friends);
      var j :| 0 <= j < |friends| && friends[j] == sorted[i];
      HashLineReadsBack(sorted[i]);
    }
    var parts := [IntToString(total)] + lines;
    IntToStringChars(total, ';');
    SplitJoin(parts, ';');
    if InInt64(total) {
      AtoiOfIntToString(total);
    }
  }

  /** The filter on the owner's friends. */
  function OwnedBy(userId: string): Friend -> bool
  {
    (f: Friend) => f.ownerUserId == userId
  }

  /** `getFriendHash` up to the digest: the first page of `hashNum` of the
      user's friends in listing order, then the input built from them. */
  function FriendHashSource(coll: seq<Friend>, userId: string, hashNum: int): Result<(int, string)>
  {
    match FriendMgo.AggregatePagination(coll, OwnedBy(userId), Some(FriendMgo.Pagination(1, WrapInt32(hashNum))))
    case Err(e) => Err(e)
    case Ok(page) => Ok((page.0, FriendHashInput(page.0, page.1)))
  }

  /** The hash covers the user's friend count and, for a positive 32-bit hash
      size, the first `hashNum` of the user's friends (all of them when there
      are fewer): the input has one line per friend read. */
  lemma FriendHashSourceSpec(coll: seq<Friend>, userId: string, hashNum: int)
    requires 0 < hashNum <= INT32_MAX
    ensures var where := OwnedBy(userId);
      var total := |Where(coll, where)|;
      var page := FriendMgo.AggregatePagination(coll, where, Some(FriendMgo.Pagination(1, hashNum))).value.1;
      FriendHashSource(coll, userId, hashNum) == Ok((total, FriendHashInput(total, page))) &&
      |page| == FriendMgo.Min(hashNum, total) &&
      forall f :: f in page ==> f in coll && f.ownerUserId == userId
  {
    var where := OwnedBy(userId);
    var p := FriendMgo.Pagination(1, hashNum);
    assert WrapInt32(hashNum) == hashNum;
    assert FriendMgo.Skip(p) == 0 by {
      assert WrapInt32(0) == 0;
    }
    FriendMgo.AggregatePaginationCounts(coll, where, p);
    FriendMgo.AggregatePaginationMembers(coll, where, p);
  }

  /** As written: a hash key registered on a cache that `NewCache` produced
      (any `Del*` result) is built with hash size 0, not the configured one. */
  method ChainedHashKey(keyOf: KeyBuilders, hashNum: int, userId: string) returns (keys: seq<string>)
    ensures keys == [keyOf.friendIds(userId), keyOf.friendHash(0, userId)]
  {
    var f := new FriendCache(keyOf, hashNum);
    var c1 := f.DelFriendIds([userId]);
    assert c1.keys[|f.keys| + 0] == f.keyOf.friendIds([userId][0]);
    var c2 := c1.DelFriendHash([userId]);
    assert c2.keys[|c1.keys| + 0] == c1.keyOf.friendHash(c1.hashNum, [userId][0]);
    assert c2.keys[..1] == c1.keys;
    keys := c2.keys;
  }

  /** The same chain with the hash size copied (`DelFriendIDs` on a copy made
      by `NewCacheIntended`): the hash key uses the configured size. */
  method ChainedHashKeyIntended(keyOf: KeyBuilders, hashNum: int, userId: string) returns (keys: seq<string>)
    ensures keys == [keyOf.friendIds(userId), keyOf.friendHash(hashNum, userId)]
  {
    var f := new FriendCache(keyOf, hashNum);
    var c1 := f.NewCacheIntended();
    c1.AddKeys([keyOf.friendIds(userId)]);
    var c2 := c1.DelFriendHash([userId]);
    assert c2.keys[|c1.keys| + 0] == c1.keyOf.friendHash(c1.hashNum, [userId][0]);
    assert c2.keys[..1] == c1.keys;
    keys := c2.keys;
  }
}
