// The incremental-sync decision of `incrversion.Option.Build`: given the
// client's last version, answer with either the full ID list or the changes
// since that version, and derive the IDs to delete.
module IncrVersion {
  import opened Common

  /** A version log as the stores return it. `id` is the hex form of its object
      ID; `logs` is the number of log entries fetched and `logLen` the number the
      log holds; `deleteIds` / `changeIds` are the split the log itself computes
      (`DeleteAndChangeIDs`). */
  datatype VersionLog = VersionLog(id: string, version: nat, logs: nat, logLen: int,
                                   deleteIds: seq<string>, changeIds: seq<string>)

  /** The lookups of an option. A missing function is `None`; `hasCtx` and
      `hasResp` say whether the context and the response builder were set. */
  datatype SyncOption<!A> = SyncOption(
    hasCtx: bool,
    versionKey: string,
    versionId: string,
    versionNumber: nat,
    syncLimit: int,
    cacheMaxVersion: Option<string -> Result<VersionLog>>,
    version: Option<(string, nat, int) -> Result<VersionLog>>,
    sortId: Option<string -> Result<seq<string>>>,
    find: Option<seq<string> -> Result<seq<A>>>,
    id: Option<A -> string>,
    hasResp: bool)

  datatype Response<A> = Response(version: VersionLog, deleteIds: seq<string>, list: seq<A>, full: bool)

  datatype Tag = TagQuery | TagFull | TagEqual

  /** `check`: the first missing piece, if any. */
  function Check<A>(o: SyncOption<A>): (r: Option<string>)
    ensures r.None? <==>
      o.hasCtx && o.versionKey != "" && o.syncLimit > 0 && o.version.Some? &&
      o.sortId.Some? && o.find.Some? && o.id.Some? && o.hasResp
  {
    if !o.hasCtx then Some("opt ctx is nil")
    else if o.versionKey == "" then Some("versionKey is empty")
    else if o.syncLimit <= 0 then Some("invalid synchronization quantity")
    else if o.version.None? then Some("func version is nil")
    else if o.sortId.None? then Some("func allID is nil")
    else if o.find.None? then Some("func find is nil")
    else if o.id.None? then Some("func id is nil")
    else if !o.hasResp then Some("func resp is nil")
    else None
  }

  predicate IsHexDigit(c: char)
  {
    ('0' <= c <= '9') || ('a' <= c <= 'f') || ('A' <= c <= 'F')
  }

  /** The string parses as an object ID (24 hex digits). */
  predicate IsObjectIdHex(s: string)
  {
    |s| == 24 && forall i :: 0 <= i < |s| ==> IsHexDigit(s[i])
  }

  /** The parsed object ID is all zero bytes. */
  predicate IsZeroObjectId(s: string)
  {
    forall i :: 0 <= i < |s| ==> s[i] == '0'
  }

  /** `validVersion`. */
  predicate ValidVersion<A>(o: SyncOption<A>)
  {
    IsObjectIdHex(o.versionId) && !IsZeroObjectId(o.versionId) && o.versionNumber > 0
  }

  /** `getVersion`: which kind of answer to give and the version log it rests on. */
  function GetVersion<A>(o: SyncOption<A>): (Tag, Result<VersionLog>)
    requires o.version.Some?
  {
    var version := o.version.value;
    match o.cacheMaxVersion
    case None =>
      if ValidVersion(o) then (TagQuery, version(o.versionKey, o.versionNumber, o.syncLimit))
      else (TagFull, version(o.versionKey, 0, 0))
    case Some(cacheMaxVersion) =>
      match cacheMaxVersion(o.versionKey)
      case Err(e) => (TagFull, Err(e))
      case Ok(cache) =>
        if !ValidVersion(o) || o.versionId != cache.id then (TagFull, Ok(cache))
        else if o.versionNumber == cache.version then (TagEqual, Ok(cache))
        else (TagQuery, version(o.versionKey, o.versionNumber, o.syncLimit))
  }

  /** The arguments `Version` is called with, if it is called at all. */
  function VersionQuery<A>(o: SyncOption<A>): Option<(nat, int)>
  {
    match o.cacheMaxVersion
    case None => if ValidVersion(o) then Some((o.versionNumber, o.syncLimit)) else Some((0, 0))
    case Some(cacheMaxVersion) =>
      match cacheMaxVersion(o.versionKey)
      case Err(_) => None
      case Ok(cache) =>
        if !ValidVersion(o) || o.versionId != cache.id || o.versionNumber == cache.version then None
        else Some((o.versionNumber, o.syncLimit))
  }

  /** Whether the answer is a full one. */
  predicate IsFull<A>(o: SyncOption<A>, tag: Tag, v: VersionLog)
  {
    match tag
    case TagQuery => v.id != o.versionId || v.version < o.versionNumber || v.logs != v.logLen
    case TagFull => true
    case TagEqual => false
  }

  /** The IDs of `ids` not in `found`, in order. */
  function Missing(ids: seq<string>, found: set<string>): (r: seq<string>)
    ensures forall x :: x in r <==> x in ids && x !in found
    ensures |r| <= |ids|
  {
    if |ids| == 0 then []
    else
      var init := Missing(ids[..|ids| - 1], found);
      assert ids == ids[..|ids| - 1] + [ids[|ids| - 1]];
      if ids[|ids| - 1] in found then init else init + [ids[|ids| - 1]]
  }

  function FoundIds<A>(list: seq<A>, id: A -> string): set<string>
  {
    set i | 0 <= i < |list| :: id(list[i])
  }

  /** The deletes of a non-full answer once `Find` returned `list`. */
  function Deletes<A>(o: SyncOption<A>, v: VersionLog, list: seq<A>): seq<string>
    requires o.id.Some?
  {
    if |v.changeIds| != |list| then v.deleteIds + Missing(v.changeIds, FoundIds(list, o.id.value))
    else v.deleteIds
  }

  /** What `Build` answers, stated over the option's lookups. */
  function Expected<A>(o: SyncOption<A>): Result<Response<A>>
  {
    if Check(o).Some? then Err(InternalServer)
    else
      var (tag, res) := GetVersion(o);
      match res
      case Err(e) => Err(e)
      case Ok(v) =>
        var full := IsFull(o, tag, v);
        var changes := if full then o.sortId.value(o.versionKey) else Ok(v.changeIds);
        match changes
        case Err(e) => Err(e)
        case Ok(changeIds) =>
          if |changeIds| == 0 then Ok(Response(v, if full then [] else v.deleteIds, [], full))
          else
            match o.find.value(changeIds)
            case Err(e) => Err(e)
            case Ok(list) =>
              Ok(Response(v, if full then [] else Deletes(o, v, list), list, full))
  }

  /** `Build`. */
  method Build<A>(o: SyncOption<A>) returns (r: Result<Response<A>>)
    ensures r == Expected(o)
  {
    if Check(o).Some? {
      return Err(InternalServer);
    }
    var (tag, res) := GetVersion(o);
    if res.Err? {
      return Err(res.kind);
    }
    var version := res.value;
    var full := match tag
      case TagQuery => version.id != o.versionId || version.version < o.versionNumber || version.logs != version.logLen
      case TagFull => true
      case TagEqual => false;
    var deleteIds: seq<string> := [];
    var changeIds: seq<string>;
    if full {
      var all := o.sortId.value(o.versionKey);
      if all.Err? {
        return Err(all.kind);
      }
      changeIds := all.value;
    } else {
      deleteIds, changeIds := version.deleteIds, version.changeIds;
    }
    var list: seq<A> := [];
    if |changeIds| > 0 {
      var found := o.find.value(changeIds);
      if found.Err? {
        return Err(found.kind);
      }
      list := found.value;
      if !full && |changeIds| != |list| {
        var foundIds := FoundIds(list, o.id.value);
        for i := 0 to |changeIds|
          invariant deleteIds == version.deleteIds + Missing(changeIds[..i], foundIds)
        {
          assert changeIds[..i + 1][..i] == changeIds[..i];
          if changeIds[i] !in foundIds {
            deleteIds := deleteIds + [changeIds[i]];
          }
        }
        assert changeIds[..|changeIds|] == changeIds;
      }
    }
    r := Ok(Response(version, deleteIds, list, full));
  }

  // ---------------------------------------------------------------------------
  // Properties of the decision

  /** A missing piece is reported before any lookup: the answer is an internal
      error whatever the lookups would return. */
  lemma CheckedBeforeLookup<A>(o: SyncOption<A>, o': SyncOption<A>)
    requires Check(o).Some?
    requires o'.hasCtx == o.hasCtx && o'.versionKey == o.versionKey && o'.syncLimit == o.syncLimit
    requires o'.version.Some? == o.version.Some? && o'.sortId.Some? == o.sortId.Some?
    requires o'.find.Some? == o.find.Some? && o'.id.Some? == o.id.Some? && o'.hasResp == o.hasResp
    ensures Expected(o) == Err(InternalServer) && Expected(o') == Err(InternalServer)
  {
  }

  /** Without a version cache a valid version is queried from the client's
      version with the sync limit, anything else fetched whole with (0, 0). */
  lemma NoCacheQuery<A>(o: SyncOption<A>)
    requires o.version.Some? && o.cacheMaxVersion.None?
    ensures ValidVersion(o) ==> GetVersion(o).0 == TagQuery && VersionQuery(o) == Some((o.versionNumber, o.syncLimit))
    ensures !ValidVersion(o) ==> GetVersion(o).0 == TagFull && VersionQuery(o) == Some((0, 0))
    ensures GetVersion(o).1 == o.version.value(o.versionKey, VersionQuery(o).value.0, VersionQuery(o).value.1)
  {
  }

  /** With a version cache: an invalid version or another log ID gives a full
      answer on the cached log, the same version number an empty incremental
      answer without a query; only otherwise is the log queried. */
  lemma CachedDecision<A>(o: SyncOption<A>, cache: VersionLog)
    requires Check(o).None? && o.cacheMaxVersion.Some? && o.cacheMaxVersion.value(o.versionKey) == Ok(cache)
    ensures !ValidVersion(o) || o.versionId != cache.id ==>
      Expected(o).Ok? ==> Expected(o).value.full && Expected(o).value.version == cache
    ensures ValidVersion(o) && o.versionId == cache.id && o.versionNumber == cache.version ==>
      VersionQuery(o).None? && GetVersion(o) == (TagEqual, Ok(cache)) &&
      (Expected(o).Ok? ==> !Expected(o).value.full && Expected(o).value.version == cache)
    ensures VersionQuery(o).Some? <==>
      ValidVersion(o) && o.versionId == cache.id && o.versionNumber != cache.version
  {
  }

  /** A queried log gives a full answer exactly when it is another log, older
      than the client's version, or truncated. */
  lemma QueriedFullIff<A>(o: SyncOption<A>, v: VersionLog)
    requires Check(o).None? && GetVersion(o) == (TagQuery, Ok(v))
    ensures Expected(o).Ok? ==>
      (Expected(o).value.full <==> v.id != o.versionId || v.version < o.versionNumber || v.logs != v.logLen)
  {
  }

  /** A full answer lists every ID from `SortID`, found through `Find`, and
      deletes nothing. */
  lemma FullAnswer<A>(o: SyncOption<A>)
    requires Expected(o).Ok? && Expected(o).value.full
    ensures Expected(o).value.deleteIds == []
    ensures o.sortId.Some? && o.sortId.value(o.versionKey).Ok?
    ensures var ids := o.sortId.value(o.versionKey).value;
      (|ids| == 0 ==> Expected(o).value.list == []) &&
      (|ids| > 0 ==> o.find.value(ids) == Ok(Expected(o).value.list))
  {
  }

  /** In an incremental answer where `Find` returned a different number of
      elements, every changed ID it did not return is deleted, after the log's
      own deletes. */
  lemma IncrementalDeletes<A>(o: SyncOption<A>, v: VersionLog, x: string)
    requires Check(o).None? && GetVersion(o).1 == Ok(v)
    requires Expected(o).Ok? && !Expected(o).value.full
    requires |v.changeIds| != |Expected(o).value.list|
    ensures Expected(o).value.deleteIds[..|v.deleteIds|] == v.deleteIds
    ensures x in Expected(o).value.deleteIds <==>
      x in v.deleteIds || (x in v.changeIds && x !in FoundIds(Expected(o).value.list, o.id.value))
  {
  }

  /** `Find` is not consulted when there is nothing to look up: with no changed
      IDs the answer is the same whatever `Find` would return. */
  lemma NoFindWithoutChanges<A>(o: SyncOption<A>, find': seq<string> -> Result<seq<A>>)
    requires Check(o).None? && GetVersion(o).1.Ok?
    requires var v := GetVersion(o).1.value;
      if IsFull(o, GetVersion(o).0, v) then o.sortId.value(o.versionKey) == Ok([]) else v.changeIds == []
    ensures Expected(o.(find := Some(find'))) == Expected(o)
    ensures Expected(o).Ok? && Expected(o).value.list == []
  {
    var o' := o.(find := Some(find'));
    assert Check(o').None?;
    assert GetVersion(o') == GetVersion(o);
  }
}
