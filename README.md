# OpenIM server core in Dafny

A model of the decision and state-keeping core of the OpenIM instant-messaging
server (Go, with one MongoDB update pipeline), with proofs about that model.
Redis hashes, lists and sets and MongoDB collections are Dafny `map`s and
`seq`s. Anything the server delegates to a driver, an RPC or a library becomes
a parameter: a lookup, a connect attempt, a `SCAN` page, `url.Parse`, or a
key builder. Go's 32- and 64-bit integers, truncating `/` and `%`, and
`strconv` parsing are spelt out in `common.dfy` and `strs.dfy`.

The model covers:
- the friend-list conditional insert (`mongodb.js`), a function from document to document;
- seq allocation:
  - the Mongo counter (`SeqMongoStore`);
  - the Redis list of pre-allocated seqs, with `lpop`, `push` and refill (`SeqCacheModel`);
- the per-(conversation, user) seq records:
  - both Mongo stores (`SeqUserStore`, `SeqUserMgo`);
  - both caches in front of them (`SeqUserCache`, `SeqUserCacheRedis`);
  - the migration tool that copies former read-seq keys into Mongo (`ReadSeqTool`);
- online status: connection and platform hashes, subscriptions, and group-online paging (`UserStatus`);
- the push service's read-mark aggregation, recipient selection and offline-push gate (`PushHandler`);
- the full/incremental sync decision (`IncrVersion`);
- the permission and validation rules of the group service (`GroupRules`);
- auth tokens (`Auth`);
- the message service's receiver-ID rule and interceptor chain (`MsgServer`);
- notification construction (`Notification`);
- the friend stores: the older one (`FriendMgo`) and the newer one with its version log (`FriendStore`, over `FriendDocs`);
- the group-member store with its version logs (`GroupMemberStore`);
- the version logs both newer stores share, and the per-key grouping their `Create` does before logging (`VersionLog`);
- the friend cache's key lists and pre-hash string (`FriendCache`);
- the cache-key builders (`CacheKeySeq`, `CacheKeySeqUser`, `CacheKeyUserStatus`);
- the Mongo URI, connect-retry loop and index keys (`MongoUri`);
- the third-party service's API URL and object-store selection (`Third`).

Stateful stores and caches are classes:
- methods carry `modifies` clauses;
- every method is proved against a specification function over the old state;
- the source's promises are lemmas about those functions.

## Model

| member | source | states |
|---|---|---|
| Auth.UserTokenSpec | internal/rpc/auth/auth.go:63-79 | a wrong secret is refused with no-permission whatever else holds; a token is issued exactly when the secret matches, the user exists and the store creates one, and it lives `Expire` days in seconds |
| Auth.GetUserTokenSpec | internal/rpc/auth/auth.go:81-100 | a caller who is not an admin is refused, and a manager's token is never handed out; for an admin asking about anyone else the answer is exactly `UserToken`'s with the right secret, so a token is issued exactly when the user exists and the store creates one, with the same lifetime |
| Auth.ParseTokenDecision | internal/rpc/auth/auth.go:102-125 | a decoded token is accepted exactly when it is stored as normal; kicked gives token-kicked, any other stored state token-unknown, an unstored token (or none stored) token-not-exist |
| Auth.ParseToken | internal/rpc/auth/auth.go:127-140 | succeeds exactly when `parseToken` accepts, and then returns the claims' user, the platform's name and the expiry |
| CacheKeySeq.MallocKeysRoundTrip | pkg/common/cachekey/seq.go:3-14 | each key starts with its prefix, and stripping the prefix gives the conversation ID back |
| CacheKeySeq.MallocKeysInjective | pkg/common/cachekey/seq.go:8-14 | distinct conversations get distinct list keys and distinct lock keys |
| CacheKeySeq.MallocKeysDisjoint | pkg/common/cachekey/seq.go:3-14 | a seq-list key never equals a lock key, whatever the two conversations |
| CacheKeySeqUser.SeqUserKeyShape | pkg/common/cachekey/seq_user.go:10-24 | a key is its prefix followed by conversation ID, ":" and user ID |
| CacheKeySeqUser.SeqUserKeyInjective | pkg/common/cachekey/seq_user.go:10-24 | with one prefix, equal keys mean equal (conversation, user) pairs when conversation IDs hold no ':' |
| CacheKeySeqUser.SeqUserKindsDisjoint | pkg/common/cachekey/seq_user.go:3-24 | read, read-lock, max and min keys never coincide, whatever the IDs |
| CacheKeySeqUser.SeqUserKeyRekey | pkg/common/cachekey/seq_user.go:10-24 | two pairs that share a key of one kind share the keys of every kind |
| CacheKeyUserStatus.UserStatusKeysRoundTrip | pkg/common/cachekey/user_status.go:3-25 | stripping each of the four prefixes gives the user ID back |
| CacheKeyUserStatus.UserStatusKeysInjective | pkg/common/cachekey/user_status.go:10-25 | each of the four builders is injective |
| CacheKeyUserStatus.UserStatusKindsDisjoint | pkg/common/cachekey/user_status.go:3-25 | keys of different kinds never collide |
| FriendPipeline.Pipeline | pkg/common/db/table/v2/mongodb.js:5-57 | with "1000" already among the friend IDs, `friends` and `update_version` are left as they were; otherwise the version goes up by exactly one and `friends` becomes the old array followed by one new entry; the scratch field is gone and the owner ID kept |
| FriendPipeline.AppendedEntry | pkg/common/db/table/v2/mongodb.js:13-50 | the appended entry is "1000", not pinned, not deleted, created now, and carries the already incremented document version; the existing entries keep their order |
| FriendPipeline.DeletedEntryBlocks | pkg/common/db/table/v2/mongodb.js:9-45 | an entry for "1000" marked deleted still blocks re-insertion: friends and version unchanged |
| FriendPipeline.PipelineAddsFriend | pkg/common/db/table/v2/mongodb.js:7-51 | after the update "1000" is always among the friends |
| FriendPipeline.PipelineIdempotent | pkg/common/db/table/v2/mongodb.js:7-56 | running the pipeline again, at any time, gives the same document |
| FriendPipeline.UpdateMany | pkg/common/db/table/v2/mongodb.js:1-4 | documents not owned by "2000" are untouched; each of "2000"'s documents goes through the pipeline; the collection's size is kept |
| FriendPipeline.UpdateManyIdempotent | pkg/common/db/table/v2/mongodb.js:1-58 | applying the whole update twice gives the collection applying it once gives |
| SeqMongoStore.Consecutive | pkg/common/db/mgo/seq.go:49-52 | the block holds exactly `n` values, the k-th being `first + k` |
| SeqMongoStore.ConsecutiveBlocksAdjacent | pkg/common/db/mgo/seq.go:26-52 | two successive blocks join into one block without gap, and share no value |
| SeqMongoStore.SeqMongo.constructor | pkg/common/db/mgo/seq.go:12-15 | a new store holds no counter |
| SeqMongoStore.SeqMongo.MallocSeq | pkg/common/db/mgo/seq.go:21-42 | a non-positive size is refused and changes nothing; otherwise the conversation's counter (0 when missing, by the upsert) goes up by exactly `size` and the new value is returned |
| SeqMongoStore.SeqMongo.Malloc | pkg/common/db/mgo/seq.go:44-54 | the same counter update, returning the `size` consecutive seqs that end at the new counter |
| SeqCacheModel.LrangeCount | pkg/common/db/cache/seq.go:78 | `LRANGE key 0 end` never returns more than the list holds; a non-negative end inside the list gives end + 1 elements (the end is inclusive), an end past it the whole list |
| SeqCacheModel.LpopTakesOneExtra | pkg/common/db/cache/seq.go:78-88 | on a list longer than `size`, `lpop` as written takes `size + 1` seqs |
| SeqCacheModel.LpopCountIntended | pkg/common/db/cache/seq.go:76-93 | the intended pop takes at most `size` seqs and no more than the list holds, and exactly `size` when the list has enough |
| SeqCacheModel.RefillSize | pkg/common/db/cache/seq.go:97-100 | the storage request is `minNum + size` when `size > minNum`, else `minNum` |
| SeqCacheModel.SpliceAsWritten | pkg/common/db/cache/seq.go:105-112 | no seq is lost or made up: handed out plus pushed back is the popped seqs followed by the fresh block (contiguous case) or the fresh block alone (otherwise, the first `size` handed out, the rest pushed back); an out-of-range slice bound is a panic, which the contiguous case hits exactly outside `len(res) <= size <= 2*len(res)` and the other case outside `0 <= size <= len(res)` or on an empty block |
| SeqCacheModel.SpliceNeverTopsUp | pkg/common/db/cache/seq.go:105-108 | in the contiguous case with a block of at least `size`, the popped seqs come back unchanged or the slice panics: the top-up never happens |
| SeqCacheModel.SpliceIntended | pkg/common/db/cache/seq.go:105-112 | the intended splice hands out exactly `size` seqs; handed-out followed by pushed-back is the popped seqs followed by the block (contiguous) or the block alone; it succeeds whenever the sizes allow |
| SeqCacheModel.SeqCache.constructor | pkg/common/db/cache/seq.go:15-24 | the cache starts with no lists and no locks, and with no store and `minNum` 0, as written |
| SeqCacheModel.SeqCache.WithStore | pkg/common/db/cache/seq.go:26-33 | a cache wired to a store and a `minNum` starts empty and keeps the invariant that every cached seq is already reserved in storage |
| SeqCacheModel.SeqCache.Lpop | pkg/common/db/cache/seq.go:76-93 | returns the first `LrangeCount` elements of the list and trims exactly those off its head; an emptied list is deleted together with the lock key; nothing else changes |
| SeqCacheModel.SeqCache.Push | pkg/common/db/cache/seq.go:58-74 | the list is replaced by the given seqs, or deleted when there are none; pushing seqs already reserved for the list's conversation keeps every cached seq reserved |
| SeqCacheModel.SeqCache.MallocSeq | pkg/common/db/cache/seq.go:95-119 | the storage counter goes up by the refill size; the result and the cached rest are the splice of the popped seqs with the fresh block; a splice panic writes no list; every seq handed out is reserved in storage |
| SeqCacheModel.SeqCache.SpliceAndPush | pkg/common/db/cache/seq.go:105-115 | with the popped seqs and the fresh block both reserved, the result and the cached rest are their splice, a splice panic writes no list, and every seq handed out stays reserved |
| SeqCacheModel.SeqCache.Malloc | pkg/common/db/cache/seq.go:35-56 | a non-positive size is refused; a success returns exactly `size` seqs, all reserved in storage, within at most 10 attempts, the last of which ended with `size` seqs; internal-server is returned exactly when ten attempts each ended with a count other than `size` |
| SeqUserTable.FieldNameInjective | pkg/common/storage/database/mgo/seq_user.go:70-92 | the max, min and read seqs are stored under distinct names (`max_seq`, `min_seq`, `read_seq`) |
| SeqUserStore.InsertDoc | pkg/common/storage/database/mgo/seq_user.go:36-43 | the insert-only document sets the two other seq fields to 0 and leaves out the field being set |
| SeqUserStore.GetAfterSet | pkg/common/storage/database/mgo/seq_user.go:31-68 | after `setSeq` of a field, `getSeq` of that field returns the value set |
| SeqUserStore.SetLeavesOtherFields | pkg/common/storage/database/mgo/seq_user.go:36-49 | setting one field keeps the record's other two fields on an existing record, and sets them to 0 on a new one |
| SeqUserStore.SetLeavesOtherRecords | pkg/common/storage/database/mgo/seq_user.go:32-35 | records of other (user, conversation) pairs read as before |
| SeqUserStore.SetKeepsComplete | pkg/common/storage/database/mgo/seq_user.go:36-64 | upserts keep every record holding all three fields, so reads never fail to decode |
| SeqUserStore.SeqUserMongo.constructor | pkg/common/storage/database/mgo/seq_user.go:24-29 | a new store has no record |
| SeqUserStore.SeqUserMongo.SetSeq | pkg/common/storage/database/mgo/seq_user.go:31-52 | an unreachable database fails and changes nothing; otherwise the upsert sets the field, filling the other two with 0 on insert, and keeps every record complete |
| SeqUserStore.SeqUserMongo.GetSeq | pkg/common/storage/database/mgo/seq_user.go:54-68 | an unreachable database fails; otherwise a missing record reads as 0, and the read never fails to decode |
| SeqUserStore.SeqUserMongo.GetMaxSeq | pkg/common/storage/database/mgo/seq_user.go:70-72 | reads the `max_seq` field |
| SeqUserStore.SeqUserMongo.SetMaxSeq | pkg/common/storage/database/mgo/seq_user.go:74-76 | upserts the `max_seq` field |
| SeqUserStore.SeqUserMongo.GetMinSeq | pkg/common/storage/database/mgo/seq_user.go:78-80 | reads the `min_seq` field |
| SeqUserStore.SeqUserMongo.SetMinSeq | pkg/common/storage/database/mgo/seq_user.go:82-84 | upserts the `min_seq` field |
| SeqUserStore.SeqUserMongo.GetReadSeq | pkg/common/storage/database/mgo/seq_user.go:86-88 | reads the `read_seq` field |
| SeqUserStore.SeqUserMongo.SetReadSeq | pkg/common/storage/database/mgo/seq_user.go:90-92 | upserts the `read_seq` field |
| SeqUserMgo.GetAfterSet | pkg/common/db/mgo/seq_user.go:45-64 | after `setSeq` of a field, `getSeq` of that field returns the value set |
| SeqUserMgo.SetLeavesEverythingElse | pkg/common/db/mgo/seq_user.go:45-51 | a set touches its own field only: every other field of every record is present exactly when it was, and reads as before |
| SeqUserMgo.SeqUserMongo.constructor | pkg/common/db/mgo/seq_user.go:12-15 | a new store has no record |
| SeqUserMgo.SeqUserMongo.SetSeq | pkg/common/db/mgo/seq_user.go:45-51 | an unreachable database fails and changes nothing; otherwise only the named field is upserted, so a new record holds that field alone |
| SeqUserMgo.SeqUserMongo.GetSeq | pkg/common/db/mgo/seq_user.go:53-64 | an unreachable database fails; a missing record reads as 0; a record without the field is a decoding error |
| SeqUserMgo.SeqUserMongo.SetReadSeq | pkg/common/db/mgo/seq_user.go:21-23 | upserts the `read_seq` field |
| SeqUserMgo.SeqUserMongo.SetMaxSeq | pkg/common/db/mgo/seq_user.go:25-27 | upserts the `max_seq` field |
| SeqUserMgo.SeqUserMongo.SetMinSeq | pkg/common/db/mgo/seq_user.go:29-31 | upserts the `min_seq` field |
| SeqUserMgo.SeqUserMongo.GetReadSeq | pkg/common/db/mgo/seq_user.go:33-35 | reads the `read_seq` field |
| SeqUserMgo.SeqUserMongo.GetMaxSeq | pkg/common/db/mgo/seq_user.go:37-39 | reads the `max_seq` field |
| SeqUserMgo.SeqUserMongo.GetMinSeq | pkg/common/db/mgo/seq_user.go:41-43 | reads the `min_seq` field |
| SeqUserCache.HandlerState | pkg/common/db/cache/seq_user.go:135-156 | the script answers 1 exactly when there is no hash, 2 exactly when the cached seq is not older, 4 exactly when a newer seq brings `count` to a multiple of 20, and 3 otherwise |
| SeqUserCache.HandlerHash | pkg/common/db/cache/seq_user.go:141-146 | a newer seq overwrites the cached one and adds one to `count`; otherwise the hash is untouched |
| SeqUserCache.HandlerMonotone | pkg/common/db/cache/seq_user.go:141-146 | the cached seq never decreases and ends at least at the new seq; `count` rises by one exactly when the update is accepted |
| SeqUserCache.AcceptedCount | pkg/common/db/cache/seq_user.go:141-164 | strictly increasing updates on a freshly seeded hash are all accepted: `count` is one plus their number and the cached seq is the last |
| SeqUserCache.KthUpdateWrites | pkg/common/db/cache/seq_user.go:19-149 | in such a run the k-th update writes storage exactly when k + 1 is a multiple of 20 |
| SeqUserCache.StateAction | pkg/common/db/cache/seq_user.go:85-96 | state 1 seeds the cache, state 4 writes storage, and any state outside 1..4 is an error |
| SeqUserCache.SeqUserCache.constructor | pkg/common/db/cache/seq_user.go:31-40 | a new cache holds no hash and no cache-aside entry |
| SeqUserCache.SeqUserCache.SetUserMaxSeq | pkg/common/db/cache/seq_user.go:48-56 | storage is written first; the cached max seq is dropped only when that write succeeded |
| SeqUserCache.SeqUserCache.SetUserMinSeq | pkg/common/db/cache/seq_user.go:58-66 | storage is written first; the cached min seq is dropped only when that write succeeded |
| SeqUserCache.SeqUserCache.GetCached | pkg/common/db/cache/seq_user.go:68-78 | a cached entry is returned as is; a miss loads storage's field and caches it when the load succeeds |
| SeqUserCache.SeqUserCache.GetUserMaxSeq | pkg/common/db/cache/seq_user.go:68-72 | a hit returns the cached max seq and leaves the cache alone; a miss returns storage's max seq (or the store's failure) and caches it when the read succeeded |
| SeqUserCache.SeqUserCache.GetUserMinSeq | pkg/common/db/cache/seq_user.go:74-78 | as written, a miss on the min-seq entry returns storage's max seq and caches it under the min-seq key, so later hits keep returning it; a hit returns the entry and leaves the cache alone |
| SeqUserCache.SeqUserCache.GetUserMinSeqIntended | pkg/common/db/cache/seq_user.go:74-78 | the intended read: a miss returns storage's min seq and caches it under the min-seq key; a hit returns the entry and leaves the cache alone |
| SeqUserCache.SeqUserCache.HandlerReadSeq | pkg/common/db/cache/seq_user.go:135-156 | returns `HandlerState` of the hash as it was, and leaves the hash as `HandlerHash` says |
| SeqUserCache.SeqUserCache.SetReadSeq | pkg/common/db/cache/seq_user.go:158-169 | an existing hash is never overwritten; a missing one is created with the seq and `count` 1 |
| SeqUserCache.SeqUserCache.InitReadSeq | pkg/common/db/cache/seq_user.go:118-133 | with the lock entry present nothing happens; otherwise a storage error is returned and nothing changes, or the hash is seeded (unless present) with the stored read seq raised to `seq` when that is positive and newer, under a new lock entry; on success the hash exists |
| SeqUserCache.SeqUserCache.SetUserReadSeq | pkg/common/db/cache/seq_user.go:80-97 | state 1 (no hash) seeds the hash with count 1 and the read-lock entry with the larger of the stored read seq and the new one, or returns the store's error with nothing changed; states 2 and 3 return success, and state 2 changes nothing; state 4 returns exactly the storage write's outcome, leaves the lock entries alone, and is the only state that writes storage; an existing hash ends as `HandlerHash` says |
| SeqUserCache.SeqUserCache.GetUserReadSeq | pkg/common/db/cache/seq_user.go:99-116 | at most two reads; a cached seq is returned on the first; after a miss the hash is seeded and the stored read seq returned; any success is the cached seq; errors come from storage only |
| SeqUserCacheRedis.WritesThroughIffMultiple | pkg/common/storage/cache/redis/seq_user.go:19-80 | with the ratio of 100, a read seq reaches storage exactly when it is a multiple of 100 (Go's `%`, negative seqs included) |
| SeqUserCacheRedis.SeqUserCacheRedis.constructor | pkg/common/storage/cache/redis/seq_user.go:15-24 | a new cache holds no entry and uses the write ratio 100 |
| SeqUserCacheRedis.SeqUserCacheRedis.GetCached | pkg/common/storage/cache/redis/seq_user.go:47-77 | a cached entry is returned as is; a miss returns storage's field and caches it; an unreachable store fails and caches nothing |
| SeqUserCacheRedis.SeqUserCacheRedis.GetUserMaxSeq | pkg/common/storage/cache/redis/seq_user.go:47-51 | a hit returns the cached value and leaves the cache alone; a miss on a working store returns storage's max seq and caches it; a miss on a down store fails and caches nothing |
| SeqUserCacheRedis.SeqUserCacheRedis.SetUserMaxSeq | pkg/common/storage/cache/redis/seq_user.go:53-58 | storage first; the max entry is invalidated only when that write succeeded, and a failed write changes nothing |
| SeqUserCacheRedis.SeqUserCacheRedis.GetUserMinSeq | pkg/common/storage/cache/redis/seq_user.go:60-64 | a hit returns the cached value and leaves the cache alone; a miss on a working store returns storage's min seq and caches it; a miss on a down store fails and caches nothing |
| SeqUserCacheRedis.SeqUserCacheRedis.SetUserMinSeq | pkg/common/storage/cache/redis/seq_user.go:66-71 | storage first; the min entry is invalidated only when that write succeeded, and a failed write changes nothing |
| SeqUserCacheRedis.SeqUserCacheRedis.GetUserReadSeq | pkg/common/storage/cache/redis/seq_user.go:73-77 | a hit returns the cached value and leaves the cache alone; a miss on a working store returns storage's read seq and caches it; a miss on a down store fails and caches nothing |
| SeqUserCacheRedis.SeqUserCacheRedis.SetUserReadSeq | pkg/common/storage/cache/redis/seq_user.go:79-89 | storage is written exactly for multiples of the ratio; the cached read seq is set to the new seq unless that storage write failed, in which case nothing changes |
| UserStatus.Get | pkg/common/db/unrelation/user_status.go:104-129 | `HGET` finds a connection's platform exactly when the hash has a field for it, and the pair is in the hash |
| UserStatus.Del | pkg/common/db/unrelation/user_status.go:133 | `HDEL` removes the connection, keeps every other field's value, and adds nothing |
| UserStatus.Values | pkg/common/db/unrelation/user_status.go:111-152 | `HVALS` lists every field's value, in field order |
| UserStatus.CountZeroIff | pkg/common/db/unrelation/user_status.go:110-141 | the counting loop finds no match exactly when the platform is not among the values |
| UserStatus.DelUndoesAppend | pkg/common/db/unrelation/user_status.go:104-133 | adding a new connection and then removing it gives the hash back |
| UserStatus.Dedup | pkg/common/db/unrelation/user_status.go:156-162 | the dedupe keeps every value and each once |
| UserStatus.DedupStep | pkg/common/db/unrelation/user_status.go:158-165 | one step of the dedupe loop: a seen value is skipped, a new one added and, when it parses, its platform appended |
| UserStatus.ParsePlatformsMembers | pkg/common/db/unrelation/user_status.go:163-164 | a platform is collected exactly when some value parses to it |
| UserStatus.OnlineOfflineAgree | pkg/common/db/unrelation/user_status.go:100-149 | a connection that came online as the first on its platform is, going offline right after, the last one on it, and conversely |
| UserStatus.DelAllCanonical | pkg/common/db/unrelation/user_status.go:133 | removing a connection keeps every stored value in canonical decimal form |
| UserStatus.AppendAllCanonical | pkg/common/db/unrelation/user_status.go:102-104 | adding a canonical value keeps every stored value canonical |
| UserStatus.CanonicalPlatform | pkg/common/db/unrelation/user_status.go:102-164 | an int32 platform written as decimal text parses back to itself |
| UserStatus.ParsePlatformsDistinct | pkg/common/db/unrelation/user_status.go:156-165 | distinct canonical values give distinct platform IDs |
| UserStatus.OnlinePlatformsSorted | pkg/common/db/unrelation/user_status.go:167 | `GetUserOnline` returns its platforms in ascending order |
| UserStatus.OnlinePlatformsMembers | pkg/common/db/unrelation/user_status.go:151-169 | a platform is returned exactly when some connection's value parses to it |
| UserStatus.OnlinePlatformsDistinct | pkg/common/db/unrelation/user_status.go:156-167 | with canonical values each platform is returned once |
| UserStatus.Names | pkg/common/db/unrelation/user_status.go:232 | the member names of a sorted set, in rank order |
| UserStatus.ZRem | pkg/common/db/unrelation/user_status.go:200 | `ZREM` removes exactly the named member and keeps the first member when that is not the one removed |
| UserStatus.ZInsert | pkg/common/db/unrelation/user_status.go:283 | insertion at the member's rank adds exactly that name and keeps a first member that ranks before it |
| UserStatus.InitZSetShape | pkg/common/db/unrelation/user_status.go:277-289 | with a positive score the placeholder stays first, and the set holds the placeholder and exactly the given users |
| UserStatus.ZRange | pkg/common/db/unrelation/user_status.go:232 | `ZRANGE` never returns more members than the set holds |
| UserStatus.Reversed | pkg/common/db/unrelation/user_status.go:245-249 | element i of the reversal is element `n - 1 - i` of the input |
| UserStatus.ReversedInvolution | pkg/common/db/unrelation/user_status.go:245-249 | reversing twice gives the input back |
| UserStatus.Total | pkg/common/db/unrelation/user_status.go:217-223 | the reported total is the set's size less the placeholder, never negative |
| UserStatus.AscendingPageTooLong | pkg/common/db/unrelation/user_status.go:228-232 | as written, page 1 of size 1 over three online members returns two |
| UserStatus.AscendingPageIntendedTiles | pkg/common/db/unrelation/user_status.go:228-232 | with the inclusive end `start + show - 1`, page p holds exactly the members of ranks `(p-1)*show` up to `p*show` after the placeholder |
| UserStatus.DescendingPageTiles | pkg/common/db/unrelation/user_status.go:225-241 | a descending page holds the members counted back from the highest rank, reversed, without the placeholder |
| UserStatus.UserStatus.constructor | pkg/common/db/unrelation/user_status.go:18-26 | as written the new store keeps no member lookup (`getGroupMemberID` is dropped) |
| UserStatus.UserStatus.WithMemberLookup | pkg/common/db/unrelation/user_status.go:18-35 | the intended constructor keeps the member lookup it is given |
| UserStatus.UserStatus.AddSubscriptionList | pkg/common/db/unrelation/user_status.go:65-84 | every listed user is added to the subscriber's subscription set, and the subscriber to each listed user's subscribed set; no other set changes; an empty list fails in `SADD` and changes nothing |
| UserStatus.UserStatus.UnsubscriptionList | pkg/common/db/unrelation/user_status.go:86-88 | only the subscriber's subscription set loses the listed users (the subscribed sets keep the subscriber); an empty list fails in `SREM` |
| UserStatus.UserStatus.CountValues | pkg/common/db/unrelation/user_status.go:110-141 | the loop counts the values equal to the target |
| UserStatus.UserStatus.SetUserOnline | pkg/common/db/unrelation/user_status.go:100-125 | an existing connection changes nothing and gives false; a new one is appended with the platform's decimal text; the answer is true exactly when the connection is new and no other connection has that platform |
| UserStatus.UserStatus.SetUserOffline | pkg/common/db/unrelation/user_status.go:127-149 | an unknown connection changes nothing and gives false; a known one is removed, no other user's hash changes, and the answer is true exactly when no remaining connection has its platform |
| UserStatus.UserStatus.GetUserOnline | pkg/common/db/unrelation/user_status.go:151-169 | returns the parsed distinct platforms of the user's connections, sorted ascending, each once |
| UserStatus.UserStatus.Reverse | pkg/common/db/unrelation/user_status.go:245-249 | the array in place becomes its reversal |
| UserStatus.UserStatus.InitGroupOnlineRedis | pkg/common/db/unrelation/user_status.go:277-289 | the group's set is replaced by the placeholder at 0 and the given users at the score |
| UserStatus.UserStatus.GetGroupOnline | pkg/common/db/unrelation/user_status.go:212-275 | an initialised group is read as it is; otherwise the set is built from the members online now and tagged, or, with no member lookup, the call fails like a nil function; the result is the total and the page as written |
| PushHandler.Tip | internal/push/push_handler.go:196-220 | a non-positive tip is ignored; otherwise the key's read seq becomes the larger of the two (a new key starting at mark seq 0, count 0) and no other entry changes |
| PushHandler.MaxPositive | internal/push/push_handler.go:201-215 | the largest positive read seq among the tips for a key: it is one of them, and no positive tip for the key is larger |
| PushHandler.TipsKeepMaximum | internal/push/push_handler.go:196-220 | from an empty map, a key has an entry exactly when some positive tip named it, holding the largest such seq and mark seq 0 |
| PushHandler.TickFlushes | internal/push/push_handler.go:158-175 | after a tick nothing is pending, so an immediate second tick emits nothing; every pending entry is kept with its mark seq raised to its read seq and count 0 |
| PushHandler.IdleTicksCount | internal/push/push_handler.go:161-166 | each tick on an idle entry adds one to its count while the count stays within 6 |
| PushHandler.IdleEntryLifetime | internal/push/push_handler.go:161-166 | an entry that went idle survives six ticks and is gone after the seventh |
| PushHandler.ReadMarker.constructor | internal/push/push_handler.go:151 | the map starts empty |
| PushHandler.ReadMarker.OnTip | internal/push/push_handler.go:196-220 | the map becomes `Tip` of the old map |
| PushHandler.ReadMarker.OnTick | internal/push/push_handler.go:158-175 | the map becomes `Tick` of the old map, and the requests sent are exactly one per pending entry, with its read seq, none twice |
| PushHandler.MaxSeqOf | internal/push/push_handler.go:336-340 | the read seq raised to every seq of the receipt: at least each of them, and equal to the read seq or one of the seqs |
| PushHandler.HandlerConversationRead | internal/push/push_handler.go:321-352 | a tip is produced exactly for a decodable read receipt whose folded read seq is non-negative; it carries that folded seq and no seqs |
| PushHandler.ReceiptRaisesReadSeq | internal/push/push_handler.go:200-340 | applying a receipt tip leaves the key's read seq at or above every seq the receipt listed |
| PushHandler.PushUserIdsSpec | internal/push/push_handler.go:114-121 | the receiver is always pushed to; the sender too exactly when sender sync is on (or sender and receiver coincide); nobody twice |
| PushHandler.TooOldIff | internal/push/push_handler.go:103-108 | for a non-negative send time (milliseconds, truncated to seconds), a message is dropped exactly when it was sent before second `now - 10` began |
| PushHandler.OfflinePushUserIds | internal/push/push_handler.go:246-286 | an offline push to the receiver happens exactly when offline push is on, the message is no signalling notification, and no user other than the sender got it online |
| PushHandler.OfflinePushInfos | internal/push/push_handler.go:479-521 | a given title and body are used; a missing title comes from the content-type table, a missing body is the title; options come from the push info or are empty |
| PushHandler.AtTextPushedEmpty | internal/push/push_handler.go:509-511 | an `@` message without push info is pushed with an empty title and body |
| IncrVersion.Check | internal/rpc/incrversion/option.go:43-69 | no piece is reported missing exactly when the context is set, the version key is non-empty, the sync limit positive, and `Version`, `SortID`, `Find`, `ID` and `Resp` are all given |
| IncrVersion.Missing | internal/rpc/incrversion/option.go:149-156 | the IDs reported missing are exactly the requested IDs that `Find` did not return, never more than were requested |
| IncrVersion.Build | internal/rpc/incrversion/option.go:110-159 | the loop that collects the IDs `Find` did not return yields exactly the answer the decision function gives |
| IncrVersion.CheckedBeforeLookup | internal/rpc/incrversion/option.go:111-113 | a missing piece gives an internal error whatever the lookups would return |
| IncrVersion.NoCacheQuery | internal/rpc/incrversion/option.go:81-87 | without a version cache a valid client version is queried with the sync limit, anything else fetched whole with (0, 0) |
| IncrVersion.CachedDecision | internal/rpc/incrversion/option.go:88-106 | with a cache, an invalid version or another log ID answers full from the cache, the same version number answers incrementally without a query, and only otherwise is the log queried |
| IncrVersion.QueriedFullIff | internal/rpc/incrversion/option.go:121-122 | a queried log gives a full answer exactly when it is another log, older than the client's version, or truncated |
| IncrVersion.FullAnswer | internal/rpc/incrversion/option.go:135-148 | a full answer deletes nothing and lists what `Find` returns for the `SortID` IDs (nothing when there are none) |
| IncrVersion.IncrementalDeletes | internal/rpc/incrversion/option.go:141-156 | an incremental answer deletes the log's deletes first, then exactly the changed IDs `Find` did not return |
| IncrVersion.NoFindWithoutChanges | internal/rpc/incrversion/option.go:144-148 | with no IDs to look up `Find` is not consulted and the list is empty |
| MsgServer.RecvIdSpec | internal/rpc/msg/server.go:108-120 | in a one-to-one conversation between two users, asked by either, the receiver is the other one; a super group's receiver is its group; any other type has none |
| MsgServer.RunChain | internal/rpc/msg/server.go:54-62 | a run of the chain calls at most every handler, and all of them when none fails |
| MsgServer.RunChainAppend | internal/rpc/msg/server.go:50-62 | running a chain extended at the end is running the old chain, then the added handlers on its message unless it failed |
| MsgServer.RunChainStopsAtFirstError | internal/rpc/msg/server.go:55-59 | a failed run stopped at the first handler that rejected: all before it accepted, and it rejected the message they produced |
| MsgServer.ChainPrefixError | internal/rpc/msg/server.go:57-58 | once a prefix of the chain fails, the whole chain ends the same way |
| MsgServer.MsgServer.constructor | internal/rpc/msg/server.go:45 | a new server has no interceptors |
| MsgServer.MsgServer.AddInterceptorHandler | internal/rpc/msg/server.go:50-52 | the new handlers run after the existing ones |
| MsgServer.MsgServer.ExecInterceptorHandler | internal/rpc/msg/server.go:54-62 | the loop returns the error and the message of the chain run |
| Notification.SessionTypeFamilies | pkg/rpcclient/msg.go:83-127 | group broadcasts map to the super-group session type, join-request, user, friend, conversation and delete notifications to the single-chat type, types outside the table to none; no entry is a plain group or notification chat |
| Notification.OptionsConfig | pkg/rpcclient/msg.go:293-296 | the configured entry for the content type, except that a read receipt to oneself is sent unreliably |
| Notification.SetOptionsByContentType | pkg/rpcclient/msg.go:313-319 | a user-status change turns sender sync off; every other type keeps the options as they are |
| Notification.Notification | pkg/rpcclient/msg.go:309-311 | the message's session type is the table's entry for the content type, and a group broadcast is addressed to the group the receiver names |
| Notification.NotificationWithSessionTypeSpec | pkg/rpcclient/msg.go:260-300 | a system message with the sender, receiver, content, content type and session type given; the group ID is the receiver for a super group; the sender's name is looked up only when asked and a lookup is set, and only that lookup fails; options are the configured ones with sender sync off for a status change |
| GroupRules.CreateGroupSpec | internal/rpc/group/group.go:197-277 | a group is created exactly for a working group with an owner the operator may act for, whose named users (operator included) are distinct and known; the owner comes first with the owner role, then the admins, then the ordinary members, and only the first member is owner |
| GroupRules.CreateGroupCountsOperator | internal/rpc/group/group.go:207-284 | an app manager creating a group for another owner reports two members while writing one |
| GroupRules.CreateGroupIntendedCount | internal/rpc/group/group.go:263-284 | the corrected count equals the members written: the owner, the admins and the ordinary members |
| GroupRules.KickTargetsOk | internal/rpc/group/group.go:579-600 | the kick list passes exactly when every target is a member and the operator is an app manager, the owner, or an admin kicking only ordinary members |
| GroupRules.KickGroupMember | internal/rpc/group/group.go:551-614 | a missing group is not found; an empty or repeated list, or one naming the operator, is an argument error; otherwise the first failing target's error, or the members minus the kicked ones |
| GroupRules.MuteRule | internal/rpc/group/group.go:1312-1379 | for a member operator the owner is never muted, an admin only by the owner, an ordinary member by an admin or the owner; a mute ends `mutedSeconds` after now, and cancelling obeys the same rule |
| GroupRules.QuitGroupSpec | internal/rpc/group/group.go:938-957 | naming another user without access is refused, and a non-member is not found; the quit succeeds exactly for a member who passes the access check and is not the owner, who is then removed while every other member keeps their role |
| GroupRules.TransferGroupOwnerSpec | internal/rpc/group/group.go:1085-1121 | a transfer of a live group goes through exactly when the two users differ, both are members, and the operator is an app manager or the old owner holding the owner role |
| GroupRules.RoleLevels | internal/rpc/group/group.go:1418-1427 | the role-level checks pass exactly when every level set is admin or ordinary |
| GroupRules.GroupIds | internal/rpc/group/group.go:1418-1429 | the updates' groups, each once, exactly the groups named |
| GroupRules.UserIdsIn | internal/rpc/group/group.go:1430-1437 | the users the updates name in one group, exactly those |
| GroupRules.CountMembers | internal/rpc/group/group.go:1443-1453 | the members found never outnumber the IDs asked for, and equal them exactly when all are members |
| GroupRules.GroupChecks | internal/rpc/group/group.go:1429-1491 | the per-group checks pass exactly when every group named passes its own check, whatever the order |
| GroupRules.SetGroupMemberInfoSpec | internal/rpc/group/group.go:1405-1491 | an accepted edit never sets the owner role, never names a user twice in one group, and names only members (an app-manager operator aside) |
| GroupRules.SetGroupMemberInfoLimits | internal/rpc/group/group.go:1453-1480 | an ordinary member who is not an app manager edits only themself, and an admin never the owner |
| GroupRules.GroupApplicationResponseSpec | internal/rpc/group/group.go:777-822 | the response succeeds exactly when it is agree or refuse, the group and an unhandled request exist, the requesting user is known, and the operator is an owner, admin or app manager; an ordinary member carrying the request's inviter is built exactly for an agreed request of a user not yet in the group |
| GroupRules.DismissGroupSpec | internal/rpc/group/group.go:1251-1285 | only the owner or an app manager dismisses; a dismissed group can be dismissed again only to delete its members, and only a dismissal that keeps members is announced |
| FriendDocs.Set | pkg/common/db/mgo/friend.go:74 | a `$set` never changes the owner or friend of a document, and an empty one changes nothing |
| FriendDocs.WhereMembers | pkg/common/db/mgo/friend.go:180-183 | a `$match` returns exactly the documents of the collection the query matches |
| FriendDocs.Matching | pkg/common/db/mgo/friend.go:58-61 | the owner's documents for any of the friends named, exactly those, never more than the collection holds |
| FriendDocs.DeleteMany | pkg/common/db/mgo/friend.go:58-61 | the documents outside the owner-and-friends filter, exactly those |
| FriendDocs.MatchingSplit | pkg/common/db/mgo/friend.go:58-61 | every document is either matched by the filter or kept by a delete of it |
| FriendDocs.DeleteOneSpec | pkg/common/db/mgo/friend.go:57-63 | `DeleteOne` removes the first matching document when there is one and nothing else: the unmatched documents stay in order and the count drops by one exactly when something matched |
| FriendDocs.DeleteManySpec | pkg/common/db/mgo/friend.go:57-63 | a delete of every match leaves none, is idempotent, removes exactly the matches, and absorbs an earlier `DeleteOne` |
| FriendDocs.FirstMatch | pkg/common/db/mgo/friend.go:70-74 | the document an update with this filter reaches: none exactly when nothing matches, otherwise the first match |
| FriendDocs.UpdateOneSpec | pkg/common/db/mgo/friend.go:66-75 | with no document for the owner and friend the update is a not-found error and creates nothing; otherwise the first such document is updated, the rest are untouched and in order, and the count is unchanged |
| FriendDocs.SetAll | pkg/common/db/mgo/friend.go:156-159 | the update applied to each document keeps their number |
| FriendDocs.UpdateMany | pkg/common/db/mgo/friend.go:150-159 | `UpdateMany` keeps the number of documents |
| FriendDocs.UpdateManyMatched | pkg/common/db/mgo/friend.go:150-159 | the matched documents afterwards are the old matches with the update applied, in order |
| FriendDocs.UpdateManyOthers | pkg/common/db/mgo/friend.go:150-159 | the documents outside the filter are exactly as before |
| FriendMgo.PageOrderTotalPreorder | pkg/common/db/mgo/friend.go:185-199 | the sort on the added sort field (remark, else nickname), then creation time, is a total preorder |
| FriendMgo.WindowSize | pkg/common/db/mgo/friend.go:176-206 | a page is empty exactly when the skip is negative or past the end or the size not positive, and otherwise holds the size or all the rest |
| FriendMgo.WindowIn | pkg/common/db/mgo/friend.go:201-206 | a page holds only documents of what it was cut from, none more often |
| FriendMgo.WindowSorted | pkg/common/db/mgo/friend.go:195-206 | cutting a page out of a sorted sequence keeps it sorted |
| FriendMgo.AggregatePaginationNeedsPage | pkg/common/db/mgo/friend.go:169-171 | a missing pagination is an argument error |
| FriendMgo.AggregatePaginationCounts | pkg/common/db/mgo/friend.go:168-213 | the total counts every match whatever the page; the page is empty exactly when the early return applies, and otherwise holds the next page-size matches or the rest |
| FriendMgo.AggregatePaginationSorted | pkg/common/db/mgo/friend.go:195-200 | a page is in sort-field, then creation-time order |
| FriendMgo.AggregatePaginationMembers | pkg/common/db/mgo/friend.go:180-183 | every document on a page matches the query, and none appears more often than among the matches |
| FriendMgo.NthPage | pkg/common/db/mgo/friend.go:176 | page n (from 1) of a positive size skips (n - 1) times the size and is that block of the sorted matches |
| FriendMgo.BlocksPrefix | pkg/common/db/mgo/friend.go:176-206 | consecutive blocks of a positive size, one after another, are a prefix of what they are cut from |
| FriendMgo.PagesAreBlocks | pkg/common/db/mgo/friend.go:176-206 | the pages 1 to n are the blocks 1 to n of the sorted matches |
| FriendMgo.PagesTile | pkg/common/db/mgo/friend.go:168-213 | pages 1 to n of a positive size together are exactly the first n times size sorted matches: no document repeated or skipped between pages |
| FriendMgo.FriendMgo.constructor | pkg/common/db/mgo/friend.go:35-49 | a new store's collection is empty |
| FriendMgo.FriendMgo.Create | pkg/common/db/mgo/friend.go:52-54 | the friends are appended to the collection |
| FriendMgo.FriendMgo.Delete | pkg/common/db/mgo/friend.go:57-63 | one `DeleteOne` with the owner-and-friends filter |
| FriendMgo.FriendMgo.UpdateByMap | pkg/common/db/mgo/friend.go:66-75 | nothing to set is a no-op; otherwise the owner's document for the friend is updated, and a missing one is a not-found error with the collection unchanged |
| FriendMgo.FriendMgo.UpdateRemark | pkg/common/db/mgo/friend.go:78-80 | the same update with the remark alone, failing unchanged on a missing document |
| FriendMgo.FriendMgo.UpdateFriends | pkg/common/db/mgo/friend.go:143-161 | no friends is a no-op; otherwise `UpdateMany` over the owner's documents for them |
| FriendMgo.FriendMgo.FindOwnerFriends | pkg/common/db/mgo/friend.go:121-129 | answered exactly when a pagination is given, sorted, at most a page, and only the owner's documents |
| FriendMgo.FriendMgo.SearchFriend | pkg/common/db/mgo/friend.go:215-225 | answered exactly when a pagination is given, sorted, and only the owner's documents whose remark, ID or nickname the keyword matches |
| FriendMgo.UpdateRemarkSetsRemark | pkg/common/db/mgo/friend.go:78-80 | the remark update fails exactly when the owner has no document for the friend; when it succeeds that document carries the new remark and the owner's other documents are as they were |
| FriendStore.FriendOrderTotalPreorder | pkg/common/storage/database/mgo/friend.go:55-57 | pinned first, then by nickname, then by creation time is a total preorder |
| FriendStore.SearchFriendSpec | pkg/common/storage/database/mgo/friend.go:215-228 | an empty keyword finds every friend of the owner, a non-empty one only those whose remark, nickname or ID it matches; the results are the owner's documents in `friendSort` order, pinned first |
| FriendStore.FriendStore.constructor | pkg/common/storage/database/mgo/friend.go:36-53 | a new store has no friends and no log |
| FriendStore.FriendStore.Create | pkg/common/storage/database/mgo/friend.go:60-75 | the friends are inserted, then each owner among them gets exactly one log entry naming that owner's new friends in input order, and no other owner's log changes |
| FriendStore.FriendStore.Delete | pkg/common/storage/database/mgo/friend.go:78-88 | one `DeleteOne` with the owner-and-friends filter, then one log entry marking every listed friend deleted |
| FriendStore.FriendStore.DeleteIntended | pkg/common/storage/database/mgo/friend.go:78-88 | every listed friend of the owner is deleted, with the same log entry |
| FriendStore.FriendStore.UpdateByMap | pkg/common/storage/database/mgo/friend.go:91-104 | nothing to set changes nothing, log included; a missing document is a not-found error that leaves the collection and the log unchanged; otherwise the document is updated, then one log entry for the friend |
| FriendStore.FriendStore.UpdateRemark | pkg/common/storage/database/mgo/friend.go:107-109 | the same with the remark alone: an update and its log entry, or a not-found error with nothing written |
| FriendStore.FriendStore.UpdateFriends | pkg/common/storage/database/mgo/friend.go:174-194 | no friends changes nothing, log included; otherwise `UpdateMany`, then one log entry for the friends |
| FriendStore.DeleteKeepsListedFriend | pkg/common/storage/database/mgo/friend.go:83-86 | deleting two friends of an owner removes one document while the log marks both deleted |
| FriendStore.DeleteIntendedMatchesLog | pkg/common/storage/database/mgo/friend.go:79-86 | after the intended delete no document of the owner for a friend the log marks deleted is left, every other document is, and it absorbs the as-written delete |
| FriendCache.FriendCache.constructor | pkg/common/db/cache/friend.go:73-87 | a new cache carries the key builders and the configured hash size, and no keys |
| FriendCache.FriendCache.AddKeys | pkg/common/db/cache/friend.go:133 | the keys are registered after the earlier ones; the hash size stays |
| FriendCache.FriendCache.NewCache | pkg/common/db/cache/friend.go:90-97 | a fresh copy carrying the registered keys, with hash size zero |
| FriendCache.FriendCache.NewCacheIntended | pkg/common/db/cache/friend.go:90-97 | a fresh copy carrying the registered keys and the hash size |
| FriendCache.FriendCache.DelFriendIds | pkg/common/db/cache/friend.go:127-136 | a fresh cache with the earlier keys, then one friend-ID-list key per owner, in order |
| FriendCache.FriendCache.DelFriendHash | pkg/common/db/cache/friend.go:220-226 | a fresh cache with the earlier keys, then one friend-hash key per user, in order, built with this cache's hash size |
| FriendCache.FriendCache.DelFriend | pkg/common/db/cache/friend.go:229-234 | a fresh cache with the earlier keys and the one friend key |
| FriendCache.FriendCache.DelFriends | pkg/common/db/cache/friend.go:237-246 | a fresh cache with the earlier keys, then the owner's friend key for each friend, in order |
| FriendCache.FriendCache.DelOwner | pkg/common/db/cache/friend.go:248-257 | a fresh cache with the earlier keys, then each owner's friend key for the friend, in order |
| FriendCache.FriendCache.GetTwoWayFriendIds | pkg/common/db/cache/friend.go:139-155 | the loop returns what the two-way pass gives: the first failed lookup, or the list built over the owner's friends |
| FriendCache.TwoWayPrefixError | pkg/common/db/cache/friend.go:145-148 | once a lookup fails, the whole pass ends with that error |
| FriendCache.MutualFriendsSnoc | pkg/common/db/cache/friend.go:144-152 | the mutual friends of a list grown by one friend are those of the list before, followed by that friend exactly when their own list holds the owner |
| FriendCache.TwoWayOverSpec | pkg/common/db/cache/friend.go:144-152 | a successful pass looked up every friend, and its list is, element by element and in order, `Pick` of the friends whose own list holds the owner (`MutualFriends`): one element per such friend, none for the others |
| FriendCache.TwoWayYieldsOwner | pkg/common/db/cache/friend.go:149-150 | as written, every element of the two-way list is the owner's own ID, repeated once per mutual friend, so only its length carries information |
| FriendCache.TwoWayMutualPair | pkg/common/db/cache/friend.go:149-150 | for two users who are each other's only friend, the list comes back as the owner, not the friend |
| FriendCache.TwoWayIntended | pkg/common/db/cache/friend.go:144-152 | taking each friend's own ID, the list is exactly the owner's mutual friends in friend-list order |
| FriendCache.HashLines | pkg/common/db/cache/friend.go:183-193 | one line per friend |
| FriendCache.HashOrderSpec | pkg/common/db/cache/friend.go:178-180 | the friends behind the hash are those read, newest first |
| FriendCache.HashLineReadsBack | pkg/common/db/cache/friend.go:184-192 | a friend line of a friend whose text holds no separator has no ";" and splits back at "," into its seven fields |
| FriendCache.FriendHashInputReadsBack | pkg/common/db/cache/friend.go:181-194 | the hash input reads back: its first ";" piece is the total and each further piece the seven fields of the next friend, newest first |
| FriendCache.FriendHashSourceSpec | pkg/common/db/cache/friend.go:173-194 | for a positive 32-bit hash size the input covers the user's friend count and the first hash-size friends of the user (all when fewer) |
| FriendCache.ChainedHashKey | pkg/common/db/cache/friend.go:90-97 | a hash key registered on a cache a `Del*` call produced is built with hash size 0 |
| FriendCache.ChainedHashKeyIntended | pkg/common/db/cache/friend.go:90-97 | with the hash size copied, the same chain registers the hash key with the configured size |
| MongoUri.MongoUriPrecedence | pkg/common/db/unrelation/mongo.go:72-111 | a URI given whole wins, the environment's before the configured one; otherwise the built URI has the `mongodb` scheme |
| MongoUri.MongoUriReadsBack | pkg/common/db/unrelation/mongo.go:82-111 | a built URI reads back into the settings it came from: "/" separates hosts from database, "@" appears exactly when both user name and password are set, "?" separates the database from the pool size |
| MongoUri.RenderReadsBack | pkg/common/db/unrelation/mongo.go:107-111 | after the scheme the URI splits at "/" into the hosts and the database with its option |
| MongoUri.HostsReadBack | pkg/common/db/unrelation/mongo.go:107-111 | the hosts part splits at "@" into the credentials and the addresses, with no "@" without both credentials |
| MongoUri.TailReadsBack | pkg/common/db/unrelation/mongo.go:109-111 | the tail splits at "?" into the database and the pool-size option |
| MongoUri.AddressReadsBack | pkg/common/db/unrelation/mongo.go:95-99 | without an environment address the configured addresses are joined with "," and split back; an environment address takes the environment port after ":", or stands alone without one |
| MongoUri.NewMongoDb | pkg/common/db/unrelation/mongo.go:53-69 | the connect loop yields what the attempt sequence gives: the first connected try decides by its ping, and refusals are tried again up to the limit |
| MongoUri.DialSpec | pkg/common/db/unrelation/mongo.go:53-69 | at most `maxRetry + 1` tries; success exactly with a first connected try whose ping succeeds, every earlier try refused |
| MongoUri.AuthFailureRetried | pkg/common/db/unrelation/mongo.go:64-119 | a connection refused for lack of authorisation is tried `maxRetry + 1` times |
| MongoUri.DialIntendedStops | pkg/common/db/unrelation/mongo.go:64-119 | stopping when `shouldRetry` rejects, an authorisation refusal ends the loop after one try, and no try follows such a refusal |
| MongoUri.BuildIndexKeys | pkg/common/db/unrelation/mongo.go:159-170 | one entry per key, in order, each the key's name and direction |
| MongoUri.KeyEntrySpec | pkg/common/db/unrelation/mongo.go:161-167 | a key is descending exactly when it starts with "-", stored under its name with every leading "-" removed; a name with at most one leading "-" reads back |
| Third.ObjectUrlSpec | internal/rpc/third/third.go:56-66 | the URL is accepted exactly when it is non-empty and parses; it then starts with the configured URL, ends with "/object/", and is one character longer when that lacked its final "/" |
| Third.SelectObjectStoreSpec | internal/rpc/third/third.go:69-80 | exactly the names minio, cos and oss select a store, the store of that name |
| Third.Start | internal/rpc/third/third.go:56-83 | start-up succeeds exactly when the URL is accepted, the store name is known and the store opens, and then yields that URL and store; a bad URL fails first |
| ReadSeqTool.ParseKeyReadsBack | tools/readseqtomongo/internal/seq.go:75-91 | a key the former cache built, holding a 64-bit seq, reads back into its conversation, user and seq |
| ReadSeqTool.HandleKeySpec | tools/readseqtomongo/internal/seq.go:75-93 | a malformed key fails and writes nothing; a key without a value is skipped; otherwise exactly the parsed seq becomes the user's read seq there, and the user's other seqs and every other record read as before |
| ReadSeqTool.HandleKeysPrefixError | tools/readseqtomongo/internal/seq.go:64-67 | once a key fails, the page ends with that failure |
| ReadSeqTool.HandleKeysStopsAtFailure | tools/readseqtomongo/internal/seq.go:64-67 | a failed page stopped at a key that failed: the keys before it were handled and nothing after it was written |
| ReadSeqTool.ScanPagesPrefixError | tools/readseqtomongo/internal/seq.go:57-72 | once a page or a key fails, the scan ends with that failure |
| ReadSeqTool.ScanRead | tools/readseqtomongo/internal/seq.go:51-73 | the scan loop gives the result and store of the page-by-page specification |
| ReadSeqTool.HandlerKeys | tools/readseqtomongo/internal/seq.go:64-68 | the loop over one page of keys gives the result and store of handling them in order, stopping at the first failure |
| ReadSeqTool.HandlerKey | tools/readseqtomongo/internal/seq.go:75-93 | the handler gives the result and store of the per-key specification |
| GroupMemberStore.SetFields | pkg/common/storage/database/mgo/group_member.go:124 | a `$set` never changes a member's group or user, and an empty one changes nothing |
| GroupMemberStore.Removed | pkg/common/storage/database/mgo/group_member.go:93-96 | the group's documents for the listed users (all of them when none is listed), exactly those |
| GroupMemberStore.DeleteMembers | pkg/common/storage/database/mgo/group_member.go:93-98 | the documents outside the delete filter, exactly those |
| GroupMemberStore.DeleteMembersSplit | pkg/common/storage/database/mgo/group_member.go:93-98 | every document is removed or kept, and with no users listed no document of the group is kept |
| GroupMemberStore.UpdateMemberSpec | pkg/common/storage/database/mgo/group_member.go:119-124 | updating a user who is not a member is a not-found error and creates nothing; otherwise the member's first document is updated, the rest are untouched and in order, and the count is unchanged |
| GroupMemberStore.IsUpdateRoleLevel | pkg/common/storage/database/mgo/group_member.go:169-175 | true exactly when the update sets the role level |
| GroupMemberStore.MemberOrderTotalPreorder | pkg/common/storage/database/mgo/group_member.go:60-62 | role level descending, then creation time descending, is a total preorder |
| GroupMemberStore.FindMemberUserIdsSpec | pkg/common/storage/database/mgo/group_member.go:130-132 | one user ID per member document of the group, read from a permutation of those documents in descending role level and, within a level, newest first |
| VersionLog.Append | pkg/common/storage/database/mgo/group_member.go:73-100 | an entry added to a log goes at its end, and every other ID's log is unchanged |
| VersionLog.KeysOfSnoc | pkg/common/storage/database/mgo/group_member.go:68-71 | the keys of a list grown by one document are the old keys plus that document's key |
| VersionLog.KeysOfOne | pkg/common/storage/database/mgo/group_member.go:68-71 | one document has its own key only |
| VersionLog.CollectEmpty | pkg/common/storage/database/mgo/group_member.go:68-71 | a key collects nothing exactly when no document has it |
| VersionLog.CollectMembers | pkg/common/storage/database/mgo/group_member.go:68-71 | a key collects exactly the values of the documents with that key |
| VersionLog.LogGrouped | pkg/common/storage/database/mgo/group_member.go:68-88 | each key among the documents gets one entry naming its values in input order, and every other log is unchanged (the grouping of both stores' `Create`) |
| GroupMemberStore.GroupMemberMgo.constructor | pkg/common/storage/database/mgo/group_member.go:31-52 | a new store has no members and empty logs |
| GroupMemberStore.GroupMemberMgo.Create | pkg/common/storage/database/mgo/group_member.go:64-90 | the members are inserted; each group among them gets one member-log entry naming its new members, and each user one join-log entry naming the groups joined, in input order |
| GroupMemberStore.GroupMemberMgo.Delete | pkg/common/storage/database/mgo/group_member.go:92-107 | the listed members (all when none is listed) go; the member log records the deletion, twice when users are listed, and the join log is untouched |
| GroupMemberStore.GroupMemberMgo.DeleteIntended | pkg/common/storage/database/mgo/group_member.go:92-107 | the same deletion logged once in the member log, and in the join log of each user whose membership went |
| GroupMemberStore.GroupMemberMgo.Update | pkg/common/storage/database/mgo/group_member.go:119-128 | nothing to set changes nothing; a non-member is a not-found error with the collection and member log unchanged; otherwise the member is updated and the member log records the user; the join log is untouched |
| GroupMemberStore.GroupMemberMgo.UpdateRoleLevel | pkg/common/storage/database/mgo/group_member.go:109-117 | a non-member is a not-found error with nothing written and no log; otherwise the role level is updated, the member log records the user twice, and the join log records the user under the group's ID |
| GroupMemberStore.GroupMemberMgo.UpdateRoleLevelIntended | pkg/common/storage/database/mgo/group_member.go:109-117 | the same, with the join-log entry under the user, naming the group |
| GroupMemberStore.DeleteSkipsJoinLog | pkg/common/storage/database/mgo/group_member.go:99-106 | a user added to a group and then removed has the removal twice in the group's member log and never in the user's join log |
| GroupMemberStore.DeleteIntendedLogsLeaver | pkg/common/storage/database/mgo/group_member.go:99-106 | with the intended delete the removal is logged once for the group and once for the user |
| GroupMemberStore.RoleChangeLogsGroup | pkg/common/storage/database/mgo/group_member.go:115 | after "u" joins "g", a role change of "u" succeeds, writes the join log under the group's ID, and adds nothing to the user's join log beyond the join |
| GroupMemberStore.RoleChangeLogsUser | pkg/common/storage/database/mgo/group_member.go:115 | with the intended write, the same role change adds the group to the user's join log and no log is kept under the group's ID |

## Left out

- Network, processes and time:
  - Redis and MongoDB I/O, connection errors other than an abstract "store down" flag, and transactions;
  - `EXPIRE`/TTLs, `time.Sleep`, connect timeouts and clocks (expiry times, `UnixMilli`, `createTime`), which are parameters or not modelled;
  - goroutines, channels and tickers (the push service's read loop is two sequential methods, `OnTip` and `OnTick`);
  - locks, including rockscache's `getCache` and the seq cache's lock (only the lock key's deletion is modelled).
- Each Lua script and each Mongo update is one atomic transition. Concurrent interleavings are not modelled.
- Foreign semantics are parameters or abstract predicates:
  - `url.Parse`, whose error is modelled as an argument error;
  - the object-store constructors (`open`);
  - ObjectID hex parsing, which is a predicate;
  - `$regex` matching and the cache-key builders of the friend cache;
  - md5, JSON encoding and token signing.
- Error kinds are abstract labels, not OpenIM's numeric error codes. Protocol constants (session types, content types, platforms) are enumerators, and no numeric value is claimed for them.
- int64 overflow:
  - not modelled for seq counters and mute end times;
  - 32-bit wrap-around is modelled where the source converts to `int32`.
- RPC calls, webhooks and callbacks are not modelled, including:
  - the final `sendMsg` of a notification and its `clientMsgID`;
  - the `SetConversationHasReadSeq` RPC behind the read-mark flush;
  - a full read channel.
- Auth:
  - `ForceLogout` and `forceKickOff` are not modelled; they are RPC and connection I/O over the token map;
  - `Start` wiring is not modelled.
- Group service:
  - `GenGroupID`, callbacks, notifications and `PopulateGroupMember` are not modelled;
  - neither are conversation seq updates and the super-group goroutine;
  - only the permission and validation parts of each handler are modelled.
- GroupRules.SetGroupMemberInfo: visits groups in order of first appearance, while Go ranges over a map in random order. Only which error is reported can differ; acceptance does not depend on the order.
- `mongoutil.UpdateOne` is library code and is not part of this model. Its trailing `true` argument, which every friend and member update passes, is read as the library's "error when nothing matched" switch. No upsert option is passed, so these updates never create a document.
- Group-member store:
  - Go map iteration order in `Create` is not modelled: `VersionLog.LogGrouped` gives each key one log batch, whatever the order;
  - version numbers, transactions and database errors other than the not-found of `Update` are not modelled;
  - `Take`, `TakeOwner`, `FindRoleLevelUserIDs`, `SearchMember`, `FindUserJoinedGroupID`, `TakeGroupMemberNum`, `FindUserManagedGroupID` and `JoinGroupIncrVersion` are not modelled; they are single queries with no logic of their own.
- Friend stores:
  - `friendSort` sorts on `friend_nickname`, which the model reads as the friend's nickname;
  - natural order is sequence order;
  - sort stability is not modelled;
  - a `$set` of fields outside the model is ignored;
  - unique-index, database and version-log errors are not modelled; the not-found of `UpdateByMap` is;
  - `FindPage` paging is not modelled.
- Friend operations not modelled: `UpdateFriendUserInfo`, `FindOwnerFriendUserIds`, `Take`, `FindUserState`, `FindFriends`, `FindReversalFriends`, `FindInWhoseFriends`, `FindFriendUserIDs`, `FindFriendUserID`, `FindIncrVersion`. They are single queries with no decision logic.
- Friend cache: `DelTwoWayFriendIDs` and the rockscache-backed `GetFriendIDs`, `GetFriend` and `GetFriendHash` reads are not modelled. Only their key lists and the pre-hash string are.
- Online status:
  - `SetGroupOnline`, `setGroupOnline`, `setGroupOffline`, `GetAllSubscribeList` and `GetSubscribedList` are not modelled;
  - group membership comes from the lookup function;
  - groups are keyed by group ID;
  - sorted-set scores are not modelled.
- SeqCache:
  - `NewSeqCache` never sets the Mongo store or `minNum`; the plain constructor models that (a nil store means a panic);
  - `SeqCacheModel.SeqCache.WithStore` is the wired variant the other lemmas use;
  - the Lua text of `push` has an extra `)`; the model gives `push` its evident replace-the-list effect.
- SeqUserCache.SeqUserCache.GetUserReadSeq: the final error after the second attempt cannot be reached in the model, because an initialised entry is always found on the retry.
- ReadSeqTool: reads the former key layout `SEQ_USER_READ:<conversation>:<user>` with the seq in the hash field `value`. The CLI entry point is not modelled.
- IncrVersion: the panic on an undefined tag cannot be reached in the model, because every path sets the tag.
- MongoUri.NewMongoDb: the dial is a parameter giving each attempt's outcome. The sleep between attempts is not modelled.

## Findings

| source | as written | input that shows it | evidently intended | confidence | as-written member | corrected member |
|---|---|---|---|---|---|---|
| pkg/common/db/cache/seq.go:78 | `LRANGE key 0 size` has an inclusive end, so `lpop` takes `size + 1` seqs | a list of 5 seqs with `size` 2 pops 3 | take at most `size` seqs (`LRANGE key 0 size-1`) | high, not executed | SeqCacheModel.LpopTakesOneExtra | SeqCacheModel.LpopCountIntended |
| pkg/common/db/cache/seq.go:105-108 | in the contiguous branch `n := size - len(res)` is never positive, since the fresh block holds at least `size` seqs | cached `[1, 2]`, fresh block `[3, 4, 5]`, `size` 3: nothing is appended (`n` is 0), and a negative `n` panics | top the cached seqs up to `size` from the fresh block and keep the rest | high, not executed | SeqCacheModel.SpliceNeverTopsUp | SeqCacheModel.SpliceIntended |
| pkg/common/db/cache/seq_user.go:74-77 | a miss on the min-seq entry loads the stored max seq | a record with min seq 3 and max seq 9, empty cache: `GetUserMinSeq` gives 9 | load the stored min seq | high, not executed | SeqUserCache.SeqUserCache.GetUserMinSeq | SeqUserCache.SeqUserCache.GetUserMinSeqIntended |
| pkg/common/db/unrelation/user_status.go:229-230 | the ascending page's end is `start + show`, and `ZRANGE` ends are inclusive, so a page holds `show + 1` members | page 1, show 1 over `[placeholder, a, b, c]` gives `[a, b]` | `end = start + show - 1`, so consecutive pages tile the members | high, not executed | UserStatus.AscendingPageTooLong | UserStatus.AscendingPageIntendedTiles |
| pkg/common/db/unrelation/user_status.go:18-25 | `NewUserStatus` takes the group-member lookup but does not store it | any group-online initialisation: the lookup is nil | keep the lookup in the struct | high, not executed | UserStatus.UserStatus.constructor | UserStatus.UserStatus.WithMemberLookup |
| internal/rpc/group/group.go:207-284 | the operator is appended to the ID list whenever they are not in it, and that list's length becomes the member count | owner "owner", no members, operator "manager": one member is created and the count is 2 | count only the members created | medium, not executed | GroupRules.CreateGroupCountsOperator | GroupRules.CreateGroupIntendedCount |
| pkg/common/storage/database/mgo/friend.go:78-88 | `Delete` uses `DeleteOne`, but the version log marks every listed friend deleted | owner with friends `a` and `b`, delete `[a, b]`: `b` stays while the log says it was deleted | delete every listed friend | medium, not executed | FriendStore.DeleteKeepsListedFriend | FriendStore.FriendStore.DeleteIntended |
| pkg/common/db/cache/friend.go:149-150 | the two-way list appends the owner's ID instead of the friend's | `a` and `b` are mutual friends: the two-way list of `a` is `[a]` | append the friend's ID, giving `[b]` | high, not executed | FriendCache.TwoWayMutualPair | FriendCache.TwoWayIntended |
| pkg/common/db/cache/friend.go:90-96 | `NewCache` copies the keys and builders but not `hashNum` | a chain `NewCache().DelFriendHash(u)` keys the hash with size 0 | copy `hashNum` as well | medium, not executed | FriendCache.ChainedHashKey | FriendCache.ChainedHashKeyIntended |
| pkg/common/db/unrelation/mongo.go:53-69 | the retry loop ignores `shouldRetry`'s verdict and always goes on | an authentication failure (code 18) is tried `maxRetry + 1` times | stop at once when `shouldRetry` says no | high, not executed | MongoUri.AuthFailureRetried | MongoUri.DialIntendedStops |
| pkg/common/storage/database/mgo/group_member.go:99-106 | `Delete` writes the member log twice and never the join log | joining `u` to `g`, then deleting it: the member log has two deletes and the join log none | write the leaver's join log once | high, not executed | GroupMemberStore.DeleteSkipsJoinLog | GroupMemberStore.DeleteIntendedLogsLeaver |
| pkg/common/storage/database/mgo/group_member.go:115 | `UpdateRoleLevel` writes the join log under the group ID with the user's ID as the element | with `u` a member of `g`, changing `u`'s role: the join log of `g` gets `[u]`, and that of `u` nothing | write the join log of the user | medium, not executed | GroupMemberStore.RoleChangeLogsGroup | GroupMemberStore.RoleChangeLogsUser |
