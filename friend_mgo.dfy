// The friend store over the `friend` collection (`FriendMgo` of the older
// database layer): its writes, and the paged, sorted listing
// `aggregatePagination` that `FindOwnerFriends` and `SearchFriend` share.
module FriendMgo {
  import opened Common
  import opened Strs
  import opened Sorting
  import opened FriendDocs

  /** A page request: 1-based page number and page size (both 32-bit). */
  datatype Pagination = Pagination(pageNumber: int, showNumber: int)

  /** The `sort_field` the pipeline adds: the remark, or the nickname when the
      remark is empty. */
  function SortField(f: Friend): string
  {
    if f.remark == "" then f.nickname else f.remark
  }

  /** `$sort: {sort_field: 1, create_time: 1}`. */
  predicate PageOrder(a: Friend, b: Friend)
  {
    StrLess(SortField(a), SortField(b)) || (SortField(a) == SortField(b) && a.createTime <= b.createTime)
  }

  lemma PageOrderTotalPreorder()
    ensures TotalPreorder(PageOrder)
  {
    forall a: Friend, b: Friend
      ensures PageOrder(a, b) || PageOrder(b, a)
    {
      StrLessTrichotomy(SortField(a), SortField(b));
    }
    forall a: Friend, b: Friend, c: Friend | PageOrder(a, b) && PageOrder(b, c)
      ensures PageOrder(a, c)
    {
      if StrLess(SortField(a), SortField(b)) && StrLess(SortField(b), SortField(c)) {
        StrLessTrans(SortField(a), SortField(b), SortField(c));
      }
    }
  }

  /** `int64(page-1) * int64(show)`, the subtraction done in 32 bits. */
  function Skip(p: Pagination): int
  {
    WrapInt32(p.pageNumber - 1) * p.showNumber
  }

  function Min(a: int, b: int): int { if a <= b then a else b }

  /** `$skip` then `$limit`, after the early return for a page that cannot
      hold anything. */
  function Window<T>(s: seq<T>, skip: int, show: int): seq<T>
  {
    if skip < 0 || skip >= |s| || show <= 0 then [] else s[skip..Min(skip + show, |s|)]
  }

  /** A window is empty exactly when the early return applies, and otherwise
      holds `show` elements, or all the rest. */
  lemma WindowSize<T>(s: seq<T>, skip: int, show: int)
    ensures |Window(s, skip, show)| == 0 <==> skip < 0 || skip >= |s| || show <= 0
    ensures |Window(s, skip, show)| > 0 ==> |Window(s, skip, show)| == Min(show, |s| - skip)
  {
  }

  /** A window holds some of the elements of what it is cut from. */
  lemma WindowIn<T>(s: seq<T>, skip: int, show: int)
    ensures multiset(Window(s, skip, show)) <= multiset(s)
    ensures forall x :: x in Window(s, skip, show) ==> x in multiset(s)
  {
    if !(skip < 0 || skip >= |s| || show <= 0) {
      var hi := Min(skip + show, |s|);
      assert s == s[..skip] + s[skip..hi] + s[hi..];
    }
  }

  /** A window of a sorted sequence is sorted. */
  lemma WindowSorted<T>(s: seq<T>, skip: int, show: int, leq: (T, T) -> bool)
    requires SortedBy(s, leq)
    ensures SortedBy(Window(s, skip, show), leq)
  {
  }

  /** `aggregatePagination`: the total number of matches, and the requested
      page of them in sort-field, then creation-time order. */
  function AggregatePagination(coll: seq<Friend>, where: Friend -> bool, pagination: Option<Pagination>)
    : Result<(int, seq<Friend>)>
  {
    match pagination
    case None => Err(ArgsError)
    case Some(p) =>
      var matched := Where(coll, where);
      Ok((|matched|, Window(SortBy(matched, PageOrder), Skip(p), p.showNumber)))
  }

  /** A missing pagination is rejected. */
  lemma AggregatePaginationNeedsPage(coll: seq<Friend>, where: Friend -> bool)
    ensures AggregatePagination(coll, where, None) == Err(ArgsError)
  {
  }

  /** The total is the number of matching documents whatever the page; the
      page is empty exactly when the skip is negative or past the end or the
      page size is not positive, and otherwise holds the next `showNumber`
      matches (fewer at the end). */
  lemma AggregatePaginationCounts(coll: seq<Friend>, where: Friend -> bool, p: Pagination)
    ensures var r := AggregatePagination(coll, where, Some(p));
      var count := |Where(coll, where)|;
      r.Ok? && r.value.0 == count &&
      (|r.value.1| == 0 <==> Skip(p) < 0 || Skip(p) >= count || p.showNumber <= 0) &&
      (|r.value.1| > 0 ==> |r.value.1| == Min(p.showNumber, count - Skip(p)))
  {
    var matched := Where(coll, where);
    var s := SortBy(matched, PageOrder);
    var skip := Skip(p);
    assert AggregatePagination(coll, where, Some(p)) == Ok((|matched|, Window(s, skip, p.showNumber)));
    assert |s| == |matched|;
    WindowSize(s, skip, p.showNumber);
  }

  /** A page is in sort-field, then creation-time order. */
  lemma AggregatePaginationSorted(coll: seq<Friend>, where: Friend -> bool, p: Pagination)
    ensures SortedBy(AggregatePagination(coll, where, Some(p)).value.1, PageOrder)
  {
    var matched := Where(coll, where);
    PageOrderTotalPreorder();
    SortBySorted(matched, PageOrder);
    WindowSorted(SortBy(matched, PageOrder), Skip(p), p.showNumber, PageOrder);
  }

  /** Every document on a page matches the query, and none appears more often
      than among the matches. */
  lemma AggregatePaginationMembers(coll: seq<Friend>, where: Friend -> bool, p: Pagination)
    ensures var items := AggregatePagination(coll, where, Some(p)).value.1;
      multiset(items) <= multiset(Where(coll, where)) &&
      (forall f :: f in items ==> f in coll && where(f))
  {
    var matched := Where(coll, where);
    WhereMembers(coll, where);
    WindowIn(SortBy(matched, PageOrder), Skip(p), p.showNumber);
  }

  /** The first `n` pages, one after the other. */
  ghost function Pages(coll: seq<Friend>, where: Friend -> bool, show: int, n: nat): seq<Friend>
  {
    if n == 0 then []
    else Pages(coll, where, show, n - 1) + AggregatePagination(coll, where, Some(Pagination(n, show))).value.1
  }

  /** Page n (from 1) of a positive size is the n-th block of the sorted
      matches. */
  lemma NthPage(coll: seq<Friend>, where: Friend -> bool, show: int, n: int)
    requires 0 < show && 1 <= n <= INT32_MAX
    ensures Skip(Pagination(n, show)) == (n - 1) * show
    ensures AggregatePagination(coll, where, Some(Pagination(n, show))).value.1 ==
      Window(SortBy(Where(coll, where), PageOrder), (n - 1) * show, show)
  {
    assert WrapInt32(n - 1) == n - 1;
  }

  /** The first `n` blocks of `show` elements of `s`, one after the other. */
  ghost function Blocks<T>(s: seq<T>, show: int, n: nat): seq<T>
  {
    if n == 0 then [] else Blocks(s, show, n - 1) + Window(s, (n - 1) * show, show)
  }

  lemma {:induction false} BlocksPrefix<T>(s: seq<T>, show: int, n: nat)
    requires 0 < show
    ensures Blocks(s, show, n) == s[..Min(n * show, |s|)]
  {
    if n > 0 {
      BlocksPrefix(s, show, n - 1);
      var skip := (n - 1) * show;
      assert n * show == skip + show;
      if skip < |s| {
        assert s[..skip] + s[skip..Min(skip + show, |s|)] == s[..Min(n * show, |s|)];
      }
    }
  }

  lemma {:induction false} PagesAreBlocks(coll: seq<Friend>, where: Friend -> bool, show: int, n: nat)
    requires 0 < show && n <= INT32_MAX
    ensures Pages(coll, where, show, n) == Blocks(SortBy(Where(coll, where), PageOrder), show, n)
  {
    if n > 0 {
      PagesAreBlocks(coll, where, show, n - 1);
      NthPage(coll, where, show, n);
    }
  }

  /** Pages 1 to n of a positive size tile the sorted matches: together they
      are exactly their first n*size (or all of them), with no document
      repeated or skipped between pages. */
  lemma PagesTile(coll: seq<Friend>, where: Friend -> bool, show: int, n: nat)
    requires 0 < show && n <= INT32_MAX
    ensures var s := SortBy(Where(coll, where), PageOrder);
      Pages(coll, where, show, n) == s[..Min(n * show, |s|)]
  {
    PagesAreBlocks(coll, where, show, n);
    BlocksPrefix(SortBy(Where(coll, where), PageOrder), show, n);
  }

  class FriendMgo {
    var coll: seq<Friend>

    constructor ()
      ensures coll == []
    {
      coll := [];
    }

    /** `Create`: `InsertMany`. */
    method Create(friends: seq<Friend>)
      modifies this
      ensures coll == old(coll) + friends
    {
      coll := coll + friends;
    }

    /** `Delete`: one `DeleteOne` over the owner's documents for any of the
        given friends. */
    method Delete(ownerUserId: string, friendUserIds: seq<string>)
      modifies this
      ensures coll == DeleteOne(old(coll), ownerUserId, friendUserIds)
    {
      coll := DeleteOne(coll, ownerUserId, friendUserIds);
    }

    /** `UpdateByMap`: nothing to set is a no-op; otherwise `UpdateOne` on the
        owner's document for the friend, which fails, writing nothing, when
        there is none. */
    method UpdateByMap(ownerUserId: string, friendUserId: string, args: map<string, Value>)
      returns (r: Result<()>)
      modifies this
      ensures |args| == 0 ==> r == Ok(()) && coll == old(coll)
      ensures |args| > 0 ==>
        var u := UpdateOne(old(coll), ownerUserId, friendUserId, args);
        (u.Err? ==> r == Err(u.kind) && coll == old(coll)) &&
        (u.Ok? ==> r == Ok(()) && coll == u.value)
    {
      if |args| == 0 {
        return Ok(());
      }
      var u := UpdateOne(coll, ownerUserId, friendUserId, args);
      if u.Err? {
        return Err(u.kind);
      }
      coll := u.value;
      r := Ok(());
    }

    /** `UpdateRemark`: `UpdateByMap` with the remark alone. */
    method UpdateRemark(ownerUserId: string, friendUserId: string, remark: string) returns (r: Result<()>)
      modifies this
      ensures var u := UpdateOne(old(coll), ownerUserId, friendUserId, map["remark" := Str(remark)]);
        (u.Err? ==> r == Err(u.kind) && coll == old(coll)) &&
        (u.Ok? ==> r == Ok(()) && coll == u.value)
    {
      r := UpdateByMap(ownerUserId, friendUserId, map["remark" := Str(remark)]);
    }

    /** `UpdateFriends`: no friends is a no-op; otherwise `UpdateMany` over the
        owner's documents for them. */
    method UpdateFriends(ownerUserId: string, friendUserIds: seq<string>, val: map<string, Value>)
      modifies this
      ensures |friendUserIds| == 0 ==> coll == old(coll)
      ensures |friendUserIds| > 0 ==> coll == UpdateMany(old(coll), ownerUserId, friendUserIds, val)
    {
      if |friendUserIds| == 0 {
        return;
      }
      coll := UpdateMany(coll, ownerUserId, friendUserIds, val);
    }

    /** `FindOwnerFriends`: a page of the owner's friends. */
    function FindOwnerFriends(ownerUserId: string, pagination: Option<Pagination>): (r: Result<(int, seq<Friend>)>)
      reads this
      ensures r.Ok? <==> pagination.Some?
      ensures r.Ok? ==> SortedBy(r.value.1, PageOrder)
      ensures r.Ok? ==> forall f :: f in r.value.1 ==> f in coll && f.ownerUserId == ownerUserId
      ensures r.Ok? && pagination.value.showNumber > 0 ==> |r.value.1| <= pagination.value.showNumber
    {
      var where := (f: Friend) => f.ownerUserId == ownerUserId;
      if pagination.Some? then
        AggregatePaginationCounts(coll, where, pagination.value);
        AggregatePaginationSorted(coll, where, pagination.value);
        AggregatePaginationMembers(coll, where, pagination.value);
        AggregatePagination(coll, where, pagination)
      else AggregatePagination(coll, where, pagination)
    }

    /** `SearchFriend`: a page of the owner's friends whose remark, ID or
        nickname the keyword matches; `matches(keyword, field)` is the
        case-insensitive regular-expression match. */
    function SearchFriend(ownerUserId: string, keyword: string, pagination: Option<Pagination>,
                          matches: (string, string) -> bool): (r: Result<(int, seq<Friend>)>)
      reads this
      ensures r.Ok? <==> pagination.Some?
      ensures r.Ok? ==> SortedBy(r.value.1, PageOrder)
      ensures r.Ok? ==> forall f :: f in r.value.1 ==>
        f in coll && f.ownerUserId == ownerUserId &&
        (matches(keyword, f.remark) || matches(keyword, f.friendUserId) || matches(keyword, f.nickname))
    {
      var where := (f: Friend) => f.ownerUserId == ownerUserId &&
        (matches(keyword, f.remark) || matches(keyword, f.friendUserId) || matches(keyword, f.nickname));
      if pagination.Some? then
        AggregatePaginationCounts(coll, where, pagination.value);
        AggregatePaginationSorted(coll, where, pagination.value);
        AggregatePaginationMembers(coll, where, pagination.value);
        AggregatePagination(coll, where, pagination)
      else AggregatePagination(coll, where, pagination)
    }
  }

  /** `UpdateRemark` fails exactly when the owner has no document for the
      friend; when it succeeds, that document carries the new remark, and the
      owner's other documents are as they were. */
  lemma UpdateRemarkSetsRemark(coll: seq<Friend>, ownerUserId: string, friendUserId: string, remark: string)
    ensures var r := UpdateOne(coll, ownerUserId, friendUserId, map["remark" := Str(remark)]);
      (r.Err? <==> FirstMatch(coll, ownerUserId, [friendUserId]).None?) &&
      (r.Ok? ==>
        FirstMatch(r.value, ownerUserId, [friendUserId]).Some? &&
        FirstMatch(r.value, ownerUserId, [friendUserId]).value.remark == remark &&
        DeleteMany(r.value, ownerUserId, [friendUserId]) == DeleteMany(coll, ownerUserId, [friendUserId]))
  {
    UpdateOneSpec(coll, ownerUserId, friendUserId, map["remark" := Str(remark)]);
  }
}
