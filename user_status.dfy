// Online status kept in Redis: a connection -> platform hash per user, the
// subscription sets between users, and one sorted set of online members per
// group (with a placeholder member of score 0 that marks it initialised).
// Every Lua script is one atomic step of the `UserStatus` class.
module UserStatus {
  import opened Common
  import opened Strs
  import opened Sorting
  import opened CacheKeyUserStatus

  const RedisPlaceholder: string := "$placeholder$"

  // ---------------------------------------------------------------------------
  // The connection hash (`USER_STATE_CONN:<userID>`): field = connection ID,
  // value = platform ID as decimal text, in Redis's field order.

  datatype Conn = Conn(connId: string, platform: string)

  /** `HGET`: the platform stored for a connection, if any. */
  function Get(h: seq<Conn>, connId: string): (r: Option<string>)
    ensures r.None? <==> forall i :: 0 <= i < |h| ==> h[i].connId != connId
    ensures r.Some? ==> Conn(connId, r.value) in h
  {
    if |h| == 0 then None
    else if h[0].connId == connId then Some(h[0].platform)
    else Get(h[1..], connId)
  }

  /** `HDEL`: the hash without the connection; every other field keeps its value. */
  function Del(h: seq<Conn>, connId: string): (r: seq<Conn>)
    ensures Get(r, connId).None?
    ensures forall c :: c != connId ==> Get(r, c) == Get(h, c)
    ensures forall x :: x in r ==> x in h
  {
    if |h| == 0 then []
    else if h[0].connId == connId then Del(h[1..], connId)
    else [h[0]] + Del(h[1..], connId)
  }

  /** `HVALS`. */
  function Values(h: seq<Conn>): (r: seq<string>)
    ensures |r| == |h|
    ensures forall i :: 0 <= i < |h| ==> r[i] == h[i].platform
  {
    seq(|h|, i requires 0 <= i < |h| => h[i].platform)
  }

  /** Number of values equal to `p` (the counting loop of both scripts). */
  function Count(vals: seq<string>, p: string): nat
  {
    if |vals| == 0 then 0
    else Count(vals[..|vals| - 1], p) + (if vals[|vals| - 1] == p then 1 else 0)
  }

  lemma {:induction false} CountZeroIff(vals: seq<string>, p: string)
    ensures Count(vals, p) == 0 <==> p !in vals
  {
    if |vals| > 0 {
      var init := vals[..|vals| - 1];
      assert vals == init + [vals[|vals| - 1]];
      CountZeroIff(init, p);
    }
  }

  /** A connection that was absent, added and then removed leaves the hash as it was. */
  lemma {:induction false} DelUndoesAppend(h: seq<Conn>, connId: string, platform: string)
    requires Get(h, connId).None?
    ensures Del(h + [Conn(connId, platform)], connId) == h
  {
    if |h| == 0 {
      assert [Conn(connId, platform)][1..] == [];
    } else {
      assert (h + [Conn(connId, platform)])[1..] == h[1..] + [Conn(connId, platform)];
      DelUndoesAppend(h[1..], connId, platform);
      assert [h[0]] + h[1..] == h;
    }
  }


  // ---------------------------------------------------------------------------
  // GetUserOnline: distinct values, those that parse as integers (converted to
  // int32), sorted ascending.

  /** The first occurrence of each value, in order. */
  function Dedup(s: seq<string>): (r: seq<string>)
    ensures forall x :: x in r <==> x in s
    ensures forall i, j :: 0 <= i < j < |r| ==> r[i] != r[j]
  {
    if |s| == 0 then []
    else
      var d := Dedup(s[..|s| - 1]);
      if s[|s| - 1] in d then d else d + [s[|s| - 1]]
  }

  /** One step of the dedupe loop of `GetUserOnline`. */
  lemma DedupStep(vals: seq<string>, i: nat)
    requires i < |vals|
    ensures vals[i] in vals[..i] ==> Dedup(vals[..i + 1]) == Dedup(vals[..i])
    ensures vals[i] !in vals[..i] ==> Dedup(vals[..i + 1]) == Dedup(vals[..i]) + [vals[i]]
    ensures vals[i] !in vals[..i] ==>
      ParsePlatforms(Dedup(vals[..i + 1])) ==
        ParsePlatforms(Dedup(vals[..i])) + (match PlatformOf(vals[i]) case Some(p) => [p] case None => [])
  {
    var prefix := vals[..i + 1];
    assert prefix[..i] == vals[..i];
    var d := Dedup(vals[..i]);
    assert (d + [vals[i]])[..|d|] == d;
  }

  /** `int32(strconv.Atoi(v))`, or nothing when `v` does not parse. */
  function PlatformOf(v: string): Option<int>
  {
    match Atoi(v)
    case Some(n) => Some(WrapInt32(n))
    case None => None
  }

  function ParsePlatforms(s: seq<string>): seq<int>
  {
    if |s| == 0 then []
    else
      var init := ParsePlatforms(s[..|s| - 1]);
      match PlatformOf(s[|s| - 1])
      case Some(p) => init + [p]
      case None => init
  }

  function IntLeq(a: int, b: int): bool { a <= b }

  /** What `GetUserOnline` returns for a connection hash. */
  function OnlinePlatforms(h: seq<Conn>): seq<int>
  {
    SortBy(ParsePlatforms(Dedup(Values(h))), IntLeq)
  }

  lemma {:induction false} ParsePlatformsMembers(s: seq<string>, x: int)
    ensures x in ParsePlatforms(s) <==> exists v :: v in s && PlatformOf(v) == Some(x)
  {
    if |s| > 0 {
      var init := s[..|s| - 1];
      assert s == init + [s[|s| - 1]];
      ParsePlatformsMembers(init, x);
    }
  }

  /** A connection that came online as the first on its platform is, going
      offline right after, the last one on it, and conversely. */
  lemma OnlineOfflineAgree(h: seq<Conn>, connId: string, platform: string)
    requires Get(h, connId).None?
    ensures platform !in Values(Del(h + [Conn(connId, platform)], connId)) <==> platform !in Values(h)
  {
    DelUndoesAppend(h, connId, platform);
  }

  /** Decimal text of an int32 in its one canonical form, as `tostring` gives
      for the platform argument. */
  predicate Canonical(v: string)
  {
    PlatformOf(v).Some? && IntToString(PlatformOf(v).value) == v
  }

  predicate AllCanonical(h: seq<Conn>)
  {
    forall i {:trigger Canonical(h[i].platform)} :: 0 <= i < |h| ==> Canonical(h[i].platform)
  }

  lemma DelAllCanonical(h: seq<Conn>, connId: string)
    requires AllCanonical(h)
    ensures AllCanonical(Del(h, connId))
  {
    var r := Del(h, connId);
    forall i | 0 <= i < |r|
      ensures Canonical(r[i].platform)
    {
      assert r[i] in h;
    }
  }

  lemma AppendAllCanonical(h: seq<Conn>, c: Conn)
    requires AllCanonical(h) && Canonical(c.platform)
    ensures AllCanonical(h + [c])
  {
  }

  lemma CanonicalPlatform(p: int)
    requires InInt32(p)
    ensures PlatformOf(IntToString(p)) == Some(p) && Canonical(IntToString(p))
  {
    AtoiOfIntToString(p);
  }

  /** Distinct canonical values give distinct platform IDs. */
  lemma {:induction false} ParsePlatformsDistinct(s: seq<string>)
    requires forall i, j :: 0 <= i < j < |s| ==> s[i] != s[j]
    requires forall i {:trigger Canonical(s[i])} :: 0 <= i < |s| ==> Canonical(s[i])
    ensures forall x :: multiset(ParsePlatforms(s))[x] <= 1
  {
    if |s| > 0 {
      var init := s[..|s| - 1];
      var last := s[|s| - 1];
      forall i | 0 <= i < |init|
        ensures Canonical(init[i])
      {
        assert Canonical(s[i]);
      }
      ParsePlatformsDistinct(init);
      assert Canonical(s[|s| - 1]);
      var q := PlatformOf(last).value;
      ParsePlatformsMembers(init, q);
      assert q !in ParsePlatforms(init);
      assert ParsePlatforms(s) == ParsePlatforms(init) + [q];
    }
  }

  /** `GetUserOnline` returns its platforms sorted ascending. */
  lemma OnlinePlatformsSorted(h: seq<Conn>)
    ensures SortedBy(OnlinePlatforms(h), IntLeq)
  {
    SortBySorted(ParsePlatforms(Dedup(Values(h))), IntLeq);
  }

  /** A platform is returned iff some connection's value parses to it. */
  lemma OnlinePlatformsMembers(h: seq<Conn>, x: int)
    ensures x in OnlinePlatforms(h) <==> exists c :: c in h && PlatformOf(c.platform) == Some(x)
  {
    var vals := Values(h);
    var d := Dedup(vals);
    assert x in OnlinePlatforms(h) <==> x in multiset(ParsePlatforms(d));
    ParsePlatformsMembers(d, x);
    if exists v :: v in d && PlatformOf(v) == Some(x) {
      var v :| v in d && PlatformOf(v) == Some(x);
      var k :| 0 <= k < |vals| && vals[k] == v;
      assert h[k] in h;
    }
    if exists c :: c in h && PlatformOf(c.platform) == Some(x) {
      var c :| c in h && PlatformOf(c.platform) == Some(x);
      var k :| 0 <= k < |h| && h[k] == c;
      assert vals[k] in d;
    }
  }

  /** With canonical values, each platform is returned once. */
  lemma OnlinePlatformsDistinct(h: seq<Conn>)
    requires AllCanonical(h)
    ensures forall x :: multiset(OnlinePlatforms(h))[x] <= 1
  {
    var vals := Values(h);
    var d := Dedup(vals);
    forall i | 0 <= i < |d|
      ensures Canonical(d[i])
    {
      assert d[i] in vals;
      var k :| 0 <= k < |vals| && vals[k] == d[i];
      assert Canonical(h[k].platform);
    }
    ParsePlatformsDistinct(d);
  }

  // ---------------------------------------------------------------------------
  // The group sorted set: members ordered by score, then by name.

  datatype Member = Member(name: string, score: int)

  /** Redis orders members by score, then equal scores by name, byte-wise. */
  predicate RanksBefore(x: Member, y: Member)
  {
    x.score < y.score || (x.score == y.score && StrLess(x.name, y.name))
  }

  function Names(z: seq<Member>): (r: seq<string>)
    ensures |r| == |z|
    ensures forall i :: 0 <= i < |z| ==> r[i] == z[i].name
  {
    seq(|z|, i requires 0 <= i < |z| => z[i].name)
  }

  /** `ZREM`. */
  function ZRem(z: seq<Member>, name: string): (r: seq<Member>)
    ensures forall x :: x in Names(r) <==> x in Names(z) && x != name
    ensures |z| > 0 && z[0].name != name ==> |r| > 0 && r[0] == z[0]
  {
    if |z| == 0 then []
    else if z[0].name == name then ZRem(z[1..], name)
    else
      var r := [z[0]] + ZRem(z[1..], name);
      assert forall x :: x in Names(r) <==> x == z[0].name || x in Names(ZRem(z[1..], name)) by {
        assert Names(r) == [z[0].name] + Names(ZRem(z[1..], name));
      }
      assert forall x :: x in Names(z) <==> x == z[0].name || x in Names(z[1..]) by {
        assert Names(z) == [z[0].name] + Names(z[1..]);
      }
      r
  }

  /** Insertion at the member's rank. */
  function ZInsert(z: seq<Member>, m: Member): (r: seq<Member>)
    ensures forall x :: x in Names(r) <==> x in Names(z) || x == m.name
    ensures |z| > 0 && !RanksBefore(m, z[0]) ==> |r| > 0 && r[0] == z[0]
  {
    if |z| == 0 then
      assert Names([m]) == [m.name];
      [m]
    else if RanksBefore(m, z[0]) then
      assert Names([m] + z) == [m.name] + Names(z);
      [m] + z
    else
      var r := [z[0]] + ZInsert(z[1..], m);
      assert Names(r) == [z[0].name] + Names(ZInsert(z[1..], m));
      assert Names(z) == [z[0].name] + Names(z[1..]);
      r
  }

  /** `ZADD`: the member, re-scored if present, at its rank. */
  function ZAdd(z: seq<Member>, name: string, score: int): seq<Member>
  {
    ZInsert(ZRem(z, name), Member(name, score))
  }

  /** The sorted set `initGroupOnlineRedis` leaves: the placeholder at score 0,
      then every given user at `score`. */
  function InitZSet(users: seq<string>, score: int): seq<Member>
  {
    if |users| == 0 then [Member(RedisPlaceholder, 0)]
    else ZAdd(InitZSet(users[..|users| - 1], score), users[|users| - 1], score)
  }

  /** With a positive score the placeholder stays first; the set holds the
      placeholder and exactly the given users. */
  lemma {:induction false} InitZSetShape(users: seq<string>, score: int)
    requires score > 0 && RedisPlaceholder !in users
    ensures |InitZSet(users, score)| > 0 && InitZSet(users, score)[0] == Member(RedisPlaceholder, 0)
    ensures forall x :: x in Names(InitZSet(users, score)) <==> x == RedisPlaceholder || x in users
  {
    if |users| > 0 {
      var init := users[..|users| - 1];
      var last := users[|users| - 1];
      assert users == init + [last];
      InitZSetShape(init, score);
    } else {
      assert Names([Member(RedisPlaceholder, 0)]) == [RedisPlaceholder];
    }
  }

  // ---------------------------------------------------------------------------
  // GetGroupOnline paging.

  /** `ZRANGE key start end` by rank: negative indices count from the end, the
      end is inclusive and clamped. */
  function ZRange(z: seq<string>, start: int, end: int): (r: seq<string>)
    ensures |r| <= |z|
  {
    var n := |z|;
    var s := if start < 0 then start + n else start;
    var e := if end < 0 then end + n else end;
    var s := if s < 0 then 0 else s;
    if s > e || s >= n then []
    else
      var e := if e >= n then n - 1 else e;
      z[s..e + 1]
  }

  function Reversed<T>(s: seq<T>): (r: seq<T>)
    ensures |r| == |s|
    ensures forall i :: 0 <= i < |s| ==> r[i] == s[|s| - 1 - i]
  {
    seq(|s|, i requires 0 <= i < |s| => s[|s| - 1 - i])
  }

  /** `reverse` undoes itself. */
  lemma ReversedInvolution<T>(s: seq<T>)
    ensures Reversed(Reversed(s)) == s
  {
    assert forall i :: 0 <= i < |s| ==> Reversed(Reversed(s))[i] == s[i];
  }

  /** The count `GetGroupOnline` reports: the set's size less the placeholder. */
  function Total(z: seq<string>): (t: int)
    ensures t >= 0 && (|z| > 0 ==> t == |z| - 1)
  {
    if |z| > 0 then |z| - 1 else 0
  }

  /** The ranks `GetGroupOnline` asks for, as written: a descending page counts
      back from the highest score; an ascending one skips the placeholder with
      `+ 1` and ends at `start + show` (the product is taken in int32). */
  function Window(desc: bool, page: int, show: int): (int, int)
  {
    if desc then
      var start := -page * show;
      (start, start + show - 1)
    else
      var start := WrapInt32(WrapInt32(page - 1) * show) + 1;
      (start, start + show)
  }

  /** The page of member IDs `GetGroupOnline` returns, as written. */
  function GroupOnlinePage(z: seq<string>, desc: bool, page: int, show: int): seq<string>
  {
    var w := Window(desc, page, show);
    var ids := ZRange(z, w.0, w.1);
    if desc then Descending(ids) else ids
  }

  /** A descending range reversed, without the placeholder. */
  function Descending(ids: seq<string>): seq<string>
  {
    if |ids| > 0 then Reversed(if ids[0] == RedisPlaceholder then ids[1..] else ids) else ids
  }

  /** An ascending page holds one member more than asked for: page 1 of size 1
      over three online members returns two. */
  lemma AscendingPageTooLong()
    ensures GroupOnlinePage([RedisPlaceholder, "a", "b", "c"], false, 1, 1) == ["a", "b"]
  {
    assert WrapInt32(0) == 0;
    assert [RedisPlaceholder, "a", "b", "c"][1..3] == ["a", "b"];
  }

  /** The ascending page with an inclusive end of `start + show - 1`. */
  function AscendingPageIntended(z: seq<string>, page: int, show: int): seq<string>
  {
    var start := WrapInt32(WrapInt32(page - 1) * show) + 1;
    ZRange(z, start, start + show - 1)
  }

  /** Corrected, the ascending pages tile the members after the placeholder:
      page `p` holds the members of ranks `(p-1)*show .. p*show` among them. */
  lemma AscendingPageIntendedTiles(z: seq<string>, page: int, show: int)
    requires page >= 1 && show >= 1 && InInt32(page) && InInt32(show)
    requires InInt32((page - 1) * show)
    requires |z| > 0 && z[0] == RedisPlaceholder
    ensures var users := z[1..];
      var lo := (page - 1) * show;
      AscendingPageIntended(z, page, show) ==
        (if lo >= |users| then [] else users[lo..if lo + show <= |users| then lo + show else |users|])
  {
    PageOffset(page, show);
    var lo := (page - 1) * show;
    assert WrapInt32(page - 1) == page - 1;
    assert WrapInt32(lo) == lo;
    assert AscendingPageIntended(z, page, show) == ZRange(z, lo + 1, lo + show);
    AscendingWindow(z, lo, show);
  }

  /** The ascending window once the page's offset `lo` is known. */
  lemma AscendingWindow(z: seq<string>, lo: nat, show: int)
    requires show >= 1 && |z| > 0
    ensures var users := z[1..];
      ZRange(z, lo + 1, lo + show) ==
        (if lo >= |users| then [] else users[lo..if lo + show <= |users| then lo + show else |users|])
  {
    if lo < |z| - 1 {
      var hi := if lo + show <= |z| - 1 then lo + show else |z| - 1;
      assert ZRange(z, lo + 1, lo + show) == z[lo + 1..hi + 1];
      assert z[lo + 1..hi + 1] == z[1..][lo..hi];
    }
  }

  /** The descending window once the page's offset `qs` is known: the ranks
      `-(qs + show) .. -(qs + show) + show - 1` hold the members from rank
      `|users| - qs` down, possibly with the placeholder in front. */
  lemma DescendingWindow(z: seq<string>, qs: nat, show: int)
    requires show >= 1
    requires |z| > 0 && z[0] == RedisPlaceholder && RedisPlaceholder !in z[1..]
    ensures var users := z[1..];
      var hi := |users| - qs;
      var lo := if |users| - (qs + show) < 0 then 0 else |users| - (qs + show);
      Descending(ZRange(z, -(qs + show), -(qs + show) + show - 1)) ==
        (if hi <= 0 then [] else Reversed(users[lo..hi]))
  {
    var users := z[1..];
    var n := |z|;
    var ps := qs + show;
    var hi := |users| - qs;
    var lo := if |users| - ps < 0 then 0 else |users| - ps;
    var s := -ps + n;
    var e := -ps + show - 1 + n;
    var ids := ZRange(z, -ps, -ps + show - 1);
    if hi <= 0 {
      if hi == 0 && s <= 0 {
        assert ids == z[0..1];
      }
    } else {
      var s0 := if s < 0 then 0 else s;
      assert ids == z[s0..e + 1];
      if s0 == 0 {
        assert ids[0] == RedisPlaceholder;
        assert ids[1..] == users[lo..hi];
      } else {
        assert ids == users[lo..hi];
        assert ids[0] in z[1..];
      }
    }
  }

  /** Page `page` of size `show` starts `(page - 1) * show` members in. */
  lemma PageOffset(page: int, show: int)
    requires page >= 1 && show >= 1
    ensures (page - 1) * show >= 0 && page * show == (page - 1) * show + show
  {
    assert (page - 1) * show == page * show - show;
  }

  /** Descending pages tile the members from the highest rank down, each page
      reversed, the placeholder never included. */
  lemma DescendingPageTiles(z: seq<string>, page: int, show: int)
    requires page >= 1 && show >= 1
    requires |z| > 0 && z[0] == RedisPlaceholder && RedisPlaceholder !in z[1..]
    ensures var users := z[1..];
      var hi := |users| - (page - 1) * show;
      var lo := if |users| - page * show < 0 then 0 else |users| - page * show;
      GroupOnlinePage(z, true, page, show) == (if hi <= 0 then [] else Reversed(users[lo..hi]))
  {
    PageOffset(page, show);
    var qs := (page - 1) * show;
    assert Window(true, page, show) == (-(qs + show), -(qs + show) + show - 1);
    DescendingWindow(z, qs, show);
  }

  // ---------------------------------------------------------------------------

  function HashOf(conns: map<string, seq<Conn>>, key: string): seq<Conn>
  {
    if key in conns then conns[key] else []
  }

  /** The group members that have at least one parseable platform online. */
  function OnlineUsers(conns: map<string, seq<Conn>>, users: seq<string>): seq<string>
  {
    if |users| == 0 then []
    else
      var init := OnlineUsers(conns, users[..|users| - 1]);
      var u := users[|users| - 1];
      if |OnlinePlatforms(HashOf(conns, GetUserStateConnKey(u)))| > 0 then init + [u] else init
  }

  function GroupNamesOf(groupSets: map<string, seq<Member>>, groupId: string): seq<string>
  {
    if groupId in groupSets then Names(groupSets[groupId]) else []
  }

  class UserStatus {
    /** Connection hashes by key. */
    var conns: map<string, seq<Conn>>
    /** Subscription and subscribed sets by key. */
    var sets: map<string, set<string>>
    /** Online-member sorted sets by group. */
    var groupSets: map<string, seq<Member>>
    /** The rockscache tag that marks a group's sorted set as initialised. */
    var groupTags: map<string, string>
    /** The `getGroupMemberID` callback as a lookup of member IDs by group;
        `None` is a nil function. */
    const groupMembers: Option<map<string, seq<string>>>

    /** Redis drops empty hashes; every stored value is a platform's decimal text. */
    ghost predicate Valid()
      reads this
    {
      forall k :: k in conns ==> |conns[k]| > 0 && AllCanonical(conns[k])
    }

    function Hash(key: string): seq<Conn>
      reads this
    {
      HashOf(conns, key)
    }

    function Members(key: string): set<string>
      reads this
    {
      if key in sets then sets[key] else {}
    }

    /** `NewUserStatus` as written: the member lookup is not stored. */
    constructor ()
      ensures Valid()
      ensures conns == map[] && sets == map[] && groupSets == map[] && groupTags == map[]
      ensures groupMembers.None?
    {
      conns := map[];
      sets := map[];
      groupSets := map[];
      groupTags := map[];
      groupMembers := None;
    }

    /** `NewUserStatus` keeping the member lookup it is given. */
    constructor WithMemberLookup(lookup: map<string, seq<string>>)
      ensures Valid()
      ensures conns == map[] && sets == map[] && groupSets == map[] && groupTags == map[]
      ensures groupMembers == Some(lookup)
    {
      conns := map[];
      sets := map[];
      groupSets := map[];
      groupTags := map[];
      groupMembers := Some(lookup);
    }

    /** Subscribe `userId` to every listed user, both directions at once. An
        empty list reaches `SADD` with no member, which Redis refuses. */
    method AddSubscriptionList(userId: string, userIdList: seq<string>) returns (r: Result<()>)
      modifies this
      ensures conns == old(conns) && groupSets == old(groupSets) && groupTags == old(groupTags)
      ensures |userIdList| == 0 ==> r == Err(InternalServer) && sets == old(sets)
      ensures |userIdList| > 0 ==> r == Ok(())
      ensures |userIdList| > 0 ==>
        Members(GetSubscriptionKey(userId)) == old(Members(GetSubscriptionKey(userId))) + (set t | t in userIdList)
      ensures |userIdList| > 0 ==>
        forall t :: t in userIdList ==> Members(GetSubscribedKey(t)) == old(Members(GetSubscribedKey(t))) + {userId}
      ensures forall k ::
        k != GetSubscriptionKey(userId) && (forall t :: t in userIdList ==> k != GetSubscribedKey(t)) ==>
        Members(k) == old(Members(k))
    {
      if |userIdList| == 0 {
        return Err(InternalServer);
      }
      for i := 0 to |userIdList|
        invariant conns == old(conns) && groupSets == old(groupSets) && groupTags == old(groupTags)
        invariant forall t :: t in userIdList[..i] ==>
          Members(GetSubscribedKey(t)) == old(Members(GetSubscribedKey(t))) + {userId}
        invariant forall k :: (forall t :: t in userIdList[..i] ==> k != GetSubscribedKey(t)) ==>
          Members(k) == old(Members(k))
      {
        assert userIdList[..i + 1] == userIdList[..i] + [userIdList[i]];
        var key := GetSubscribedKey(userIdList[i]);
        sets := sets[key := Members(key) + {userId}];
      }
      assert userIdList[..|userIdList|] == userIdList;
      var key := GetSubscriptionKey(userId);
      forall t | t in userIdList
        ensures key != GetSubscribedKey(t)
      {
        UserStatusKindsDisjoint(userId, t);
      }
      sets := sets[key := Members(key) + (set t | t in userIdList)];
      r := Ok(());
    }

    /** Remove the listed users from `userId`'s subscriptions only; their
        subscribed sets keep `userId`. An empty list is refused by `SREM`. */
    method UnsubscriptionList(userId: string, userIdList: seq<string>) returns (r: Result<()>)
      modifies this
      ensures conns == old(conns) && groupSets == old(groupSets) && groupTags == old(groupTags)
      ensures |userIdList| == 0 ==> r == Err(InternalServer) && sets == old(sets)
      ensures |userIdList| > 0 ==> r == Ok(())
      ensures |userIdList| > 0 ==>
        sets == old(sets)[GetSubscriptionKey(userId) := old(Members(GetSubscriptionKey(userId))) - (set t | t in userIdList)]
    {
      if |userIdList| == 0 {
        return Err(InternalServer);
      }
      var key := GetSubscriptionKey(userId);
      sets := sets[key := Members(key) - (set t | t in userIdList)];
      r := Ok(());
    }

    /** The counting loop of the status scripts. */
    static method CountValues(vals: seq<string>, target: string) returns (count: nat)
      ensures count == Count(vals, target)
    {
      count := 0;
      for i := 0 to |vals|
        invariant count == Count(vals[..i], target)
      {
        assert vals[..i + 1][..i] == vals[..i];
        if vals[i] == target {
          count := count + 1;
        }
      }
      assert vals[..|vals|] == vals;
    }

    /** Register a connection (`HSETNX`); true iff it is new and now the only
        connection of the user on that platform. */
    method SetUserOnline(userId: string, connId: string, platformId: int) returns (r: bool)
      requires Valid() && InInt32(platformId)
      modifies this
      ensures Valid()
      ensures sets == old(sets) && groupSets == old(groupSets) && groupTags == old(groupTags)
      ensures Get(old(Hash(GetUserStateConnKey(userId))), connId).Some? ==> !r && conns == old(conns)
      ensures Get(old(Hash(GetUserStateConnKey(userId))), connId).None? ==>
        conns == old(conns)[GetUserStateConnKey(userId) :=
          old(Hash(GetUserStateConnKey(userId))) + [Conn(connId, IntToString(platformId))]]
      ensures r <==>
        Get(old(Hash(GetUserStateConnKey(userId))), connId).None? &&
        IntToString(platformId) !in Values(old(Hash(GetUserStateConnKey(userId))))
    {
      var key := GetUserStateConnKey(userId);
      var target := IntToString(platformId);
      var h := Hash(key);
      if Get(h, connId).Some? {
        return false;
      }
      var h' := h + [Conn(connId, target)];
      CanonicalPlatform(platformId);
      AppendAllCanonical(h, Conn(connId, target));
      conns := conns[key := h'];
      var vals := Values(h');
      assert vals == Values(h) + [target];
      assert vals[..|vals| - 1] == Values(h);
      var count := CountValues(vals, target);
      CountZeroIff(Values(h), target);
      r := count == 1;
    }

    /** Remove a connection (`HGET`, `HDEL`); true iff it existed and no remaining
        connection of the user has its platform. */
    method SetUserOffline(userId: string, connId: string) returns (r: bool)
      requires Valid()
      modifies this
      ensures Valid()
      ensures sets == old(sets) && groupSets == old(groupSets) && groupTags == old(groupTags)
      ensures Get(old(Hash(GetUserStateConnKey(userId))), connId).None? ==> !r && conns == old(conns)
      ensures Get(old(Hash(GetUserStateConnKey(userId))), connId).Some? ==>
        Hash(GetUserStateConnKey(userId)) == Del(old(Hash(GetUserStateConnKey(userId))), connId) &&
        (forall k :: k != GetUserStateConnKey(userId) ==> Hash(k) == old(Hash(k))) &&
        (r <==> Get(old(Hash(GetUserStateConnKey(userId))), connId).value !in
                  Values(Del(old(Hash(GetUserStateConnKey(userId))), connId)))
    {
      var key := GetUserStateConnKey(userId);
      var h := Hash(key);
      var platform := Get(h, connId);
      if platform.None? {
        return false;
      }
      var h' := Del(h, connId);
      DelAllCanonical(h, connId);
      if |h'| == 0 {
        conns := conns - {key};
      } else {
        conns := conns[key := h'];
      }
      var count := CountValues(Values(h'), platform.value);
      CountZeroIff(Values(h'), platform.value);
      r := count == 0;
    }

    /** The user's platforms online: distinct values, parsed, sorted ascending. */
    method GetUserOnline(userId: string) returns (r: seq<int>)
      requires Valid()
      ensures r == OnlinePlatforms(Hash(GetUserStateConnKey(userId)))
      ensures SortedBy(r, IntLeq)
      ensures forall x :: multiset(r)[x] <= 1
    {
      var vals := Values(Hash(GetUserStateConnKey(userId)));
      var seen: set<string> := {};
      var ids: seq<int> := [];
      for i := 0 to |vals|
        invariant forall x :: x in seen <==> x in vals[..i]
        invariant ids == ParsePlatforms(Dedup(vals[..i]))
      {
        DedupStep(vals, i);
        if vals[i] in seen {
          continue;
        }
        seen := seen + {vals[i]};
        match PlatformOf(vals[i]) {
          case Some(p) =>
            ids := ids + [p];
          case None =>
        }
      }
      assert vals[..|vals|] == vals;
      r := SortBy(ids, IntLeq);
      OnlinePlatformsSorted(Hash(GetUserStateConnKey(userId)));
      OnlinePlatformsDistinct(Hash(GetUserStateConnKey(userId)));
    }

    /** `reverse`: swap the two ends inwards. */
    static method Reverse<T>(a: array<T>)
      modifies a
      ensures a[..] == Reversed(old(a[..]))
    {
      var i, j := 0, a.Length - 1;
      while i < j
        invariant 0 <= i && j == a.Length - 1 - i && i <= j + 1
        invariant forall k :: 0 <= k < i ==> a[k] == old(a[a.Length - 1 - k]) && a[a.Length - 1 - k] == old(a[k])
        invariant forall k :: i <= k <= j ==> a[k] == old(a[k])
      {
        a[i], a[j] := a[j], a[i];
        i, j := i + 1, j - 1;
      }
    }

    /** `initGroupOnlineRedis`: replace the group's set by the placeholder at 0
        and the given users at `score`. */
    method InitGroupOnlineRedis(groupId: string, score: int, users: seq<string>)
      modifies this
      ensures groupSets == old(groupSets)[groupId := InitZSet(users, score)]
      ensures conns == old(conns) && sets == old(sets) && groupTags == old(groupTags)
    {
      var z := [Member(RedisPlaceholder, 0)];
      for i := 0 to |users|
        invariant z == InitZSet(users[..i], score)
      {
        assert users[..i + 1][..i] == users[..i];
        z := ZAdd(z, users[i], score);
      }
      assert users[..|users|] == users;
      groupSets := groupSets[groupId := z];
    }

    /** The total and one page of a group's online members. The set is built
        first, once per group tag, from the members that are online now; with
        the member lookup missing, building it calls a nil function. */
    method GetGroupOnline(groupId: string, desc: bool, page: int, show: int, now: int)
      returns (r: Result<(int, seq<string>)>)
      requires Valid()
      modifies this
      ensures Valid()
      ensures conns == old(conns) && sets == old(sets)
      ensures groupId in old(groupTags) ==> groupSets == old(groupSets) && groupTags == old(groupTags)
      ensures groupId !in old(groupTags) && groupMembers.None? ==>
        r == Err(Panic) && groupSets == old(groupSets) && groupTags == old(groupTags)
      ensures groupId !in old(groupTags) && groupMembers.Some? ==>
        var users := if groupId in groupMembers.value then groupMembers.value[groupId] else [];
        groupSets == old(groupSets)[groupId := InitZSet(OnlineUsers(conns, users), now)] &&
        groupTags == old(groupTags)[groupId := IntToString(now)]
      ensures r.Ok? ==>
        var z := GroupNamesOf(groupSets, groupId);
        r.value == (Total(z), GroupOnlinePage(z, desc, page, show))
      ensures groupId in old(groupTags) || groupMembers.Some? ==> r.Ok?
    {
      if groupId !in groupTags {
        if groupMembers.None? {
          return Err(Panic);
        }
        var users := if groupId in groupMembers.value then groupMembers.value[groupId] else [];
        var online: seq<string> := [];
        for i := 0 to |users|
          invariant Valid() && conns == old(conns) && sets == old(sets)
          invariant groupSets == old(groupSets) && groupTags == old(groupTags)
          invariant online == OnlineUsers(conns, users[..i])
        {
          assert users[..i + 1][..i] == users[..i];
          var platforms := GetUserOnline(users[i]);
          if |platforms| > 0 {
            online := online + [users[i]];
          }
        }
        assert users[..|users|] == users;
        InitGroupOnlineRedis(groupId, now, online);
        groupTags := groupTags[groupId := IntToString(now)];
      }
      var z := GroupNamesOf(groupSets, groupId);
      var ids := Page(z, desc, page, show);
      r := Ok((Total(z), ids));
    }

    /** The `ZRANGE` of the page's window, reversed in place when descending. */
    static method Page(z: seq<string>, desc: bool, page: int, show: int) returns (ids: seq<string>)
      ensures ids == GroupOnlinePage(z, desc, page, show)
    {
      var w := Window(desc, page, show);
      ids := ZRange(z, w.0, w.1);
      if desc && |ids| > 0 {
        if ids[0] == RedisPlaceholder {
          ids := ids[1..];
        }
        var a := new string[|ids|](i requires 0 <= i < |ids| => ids[i]);
        assert a[..] == ids;
        Reverse(a);
        ids := a[..];
      }
    }
  }
}
