/** The read-through cache of ShopServiceImpl as functions on one state value: the string
    entries and lock keys of the coordination store, the shop table, a count of shop-table
    reads, and the tasks waiting in the cache-rebuild executor. Each operation maps the
    state before a call to its result and the state after it. */
module ShopCache {
  import opened Store

  /** A row of tb_shop. Only the id and one nullable column are modelled; every column of
      the entity behaves like `name`. */
  datatype Shop = Shop(id: Option<int>, name: Option<string>)

  /** The shop Hutool builds from a JSON object none of whose properties is a Shop column:
      every field is null. */
  const BLANK_SHOP := Shop(None, None)

  /** A string value stored under CACHE_SHOP_KEY + id. */
  datatype Text =
    | Empty                                               // "", the not-found marker
    | ShopJson(shop: Shop)                                 // JSONUtil.toJsonStr(shop)
    | RedisDataJson(data: Option<Shop>, expireTime: int)   // JSONUtil.toJsonStr(redisData)

  /** The logical lifetime, in seconds, that a queued rebuild gives the entry it writes. */
  const REBUILD_EXPIRE_SECONDS := 20

  const SHOP_NOT_FOUND := "店铺不存在"
  const SHOP_ID_REQUIRED := "店铺id不能为空！"

  datatype ShopState = ShopState(
    strings: map<Key, Text>,   // string entries of the store
    locks: set<Key>,           // lock keys currently set
    shops: map<int, Shop>,     // tb_shop by primary key
    dbReads: nat,              // how many times getById has run
    rebuilds: seq<int>)        // ids of the rebuild tasks submitted and not yet run

  /** Every row is stored under its own id. */
  ghost predicate RowsKeyed(s: ShopState)
  {
    forall id :: id in s.shops ==> s.shops[id].id == Some(id)
  }

  /** Every submitted rebuild holds the lock of its shop, and no shop has two. */
  ghost predicate RebuildsHoldLocks(s: ShopState)
  {
    && (forall i :: 0 <= i < |s.rebuilds| ==> LockShop(s.rebuilds[i]) in s.locks)
    && (forall i, j :: 0 <= i < j < |s.rebuilds| ==> s.rebuilds[i] != s.rebuilds[j])
  }

  // ---------------------------------------------------------------------------------------
  // Store and table primitives

  /** opsForValue().get(CACHE_SHOP_KEY + id): null when the key is absent. */
  function Get(s: ShopState, id: int): Option<Text>
  {
    if CacheShop(id) in s.strings then Some(s.strings[CacheShop(id)]) else None
  }

  function Set(s: ShopState, id: int, t: Text): ShopState
  {
    s.(strings := s.strings[CacheShop(id) := t])
  }

  /** StrUtil.isBlank on a value this model can hold: null or "". A serialized object is
      never blank. */
  predicate IsBlank(json: Option<Text>)
  {
    json == None || json == Some(Empty)
  }

  /** JSONUtil.toBean(json, Shop.class). A RedisData object has no Shop property, so it
      decodes to the all-null shop. */
  function AsShop(t: Text): Shop
    requires t != Empty
  {
    match t
    case ShopJson(shop) => shop
    case RedisDataJson(_, _) => BLANK_SHOP
  }

  /** JSONUtil.toBean(json, RedisData.class) followed by getData() and getExpireTime(): a
      plain Shop object has neither property, so both come back null. */
  function AsRedisData(t: Text): (Option<Shop>, Option<int>)
    requires t != Empty
  {
    match t
    case ShopJson(_) => (None, None)
    case RedisDataJson(data, expireTime) => (data, Some(expireTime))
  }

  /** getById(id): the row, or null, counting one read of the table. */
  function GetById(s: ShopState, id: int): (Option<Shop>, ShopState)
  {
    (if id in s.shops then Some(s.shops[id]) else None, s.(dbReads := s.dbReads + 1))
  }

  function TryLockShop(s: ShopState, id: int): (bool, ShopState)
  {
    var (ok, locks) := TryLock(s.locks, LockShop(id));
    (ok, s.(locks := locks))
  }

  function UnLockShop(s: ShopState, id: int): ShopState
  {
    s.(locks := UnLock(s.locks, LockShop(id)))
  }

  /** updateById: an UPDATE by primary key that writes only the non-null fields. */
  function Merge(row: Shop, shop: Shop): Shop
  {
    Shop(row.id, if shop.name.Some? then shop.name else row.name)
  }

  // ---------------------------------------------------------------------------------------
  // The operations

  /** queryWithPassThrough: cache-aside with the "" marker against cache penetration. */
  function PassThrough(s: ShopState, id: int): (Option<Shop>, ShopState)
  {
    var json := Get(s, id);
    if !IsBlank(json) then (Some(AsShop(json.value)), s)
    else if json.Some? then (None, s)
    else
      var (shop, s1) := GetById(s, id);
      if shop.None? then (None, Set(s1, id, Empty))
      else (shop, Set(s1, id, ShopJson(shop.value)))
  }

  /** queryWithMutex, with the recursion bounded by `depth` frames. A failed tryLock retries
      from the top; when no frame is left the call ends as a StackOverflowError would. The
      finally block of every frame that reached the try deletes the lock key. */
  function Mutex(s: ShopState, id: int, depth: nat): (Outcome<Option<Shop>>, ShopState)
    decreases depth
  {
    var json := Get(s, id);
    if !IsBlank(json) then (Returned(Some(AsShop(json.value))), s)
    else if json.Some? then (Returned(None), s)
    else
      var (isLock, s1) := TryLockShop(s, id);
      var (r, s2) :=
        if !isLock then
          if depth == 0 then (Threw(StackOverflow), s1) else Mutex(s1, id, depth - 1)
        else
          var (shop, s3) := GetById(s1, id);
          if shop.None? then (Returned(None), Set(s3, id, Empty))
          else (Returned(shop), Set(s3, id, ShopJson(shop.value)));
      (r, UnLockShop(s2, id))
  }

  /** queryWithLogicalExpire at clock reading `now`: a blank entry is "not found"; a fresh
      one is returned; an expired one is returned stale, and a rebuild task is submitted only
      by the caller whose tryLock succeeded. */
  function LogicalExpire(s: ShopState, id: int, now: int): (Outcome<Option<Shop>>, ShopState)
  {
    var json := Get(s, id);
    if IsBlank(json) then (Returned(None), s)
    else
      var (shop, expireTime) := AsRedisData(json.value);
      if expireTime.None? then (Threw(NullPointer), s)
      else if expireTime.value > now then (Returned(shop), s)
      else
        var (isLock, s1) := TryLockShop(s, id);
        if isLock then (Returned(shop), s1.(rebuilds := s1.rebuilds + [id]))
        else (Returned(shop), s1)
  }

  /** Whether the two calls of saveShopRedis answer: both do, getById throws, or the write
      to the store throws after the row was read. */
  datatype SaveFault = NoFault | ReadFails | WriteFails

  /** saveShopRedis(id, expireSeconds) at clock reading `now`: the row (or null) wrapped
      with the logical expire time now + expireSeconds, written with no store TTL. A call
      that fails throws and writes nothing. */
  function SaveShopRedis(s: ShopState, id: int, expireSeconds: int, now: int, fault: SaveFault)
    : (Outcome<()>, ShopState)
  {
    if fault == ReadFails then (Threw(DataAccess), s)
    else
      var (shop, s1) := GetById(s, id);
      if fault == WriteFails then (Threw(DataAccess), s1)
      else (Returned(()), Set(s1, id, RedisDataJson(shop, now + expireSeconds)))
  }

  /** One task of CACHE_REBUILD_EXECUTOR, run at clock reading `now`: the oldest submitted
      rebuild calls saveShopRedis(id, 20), its catch block rethrows a failure wrapped in a
      RuntimeException, and its finally block deletes the lock. None when no task is
      pending. */
  function RunRebuild(s: ShopState, now: int, fault: SaveFault): (Option<Outcome<()>>, ShopState)
  {
    if s.rebuilds == [] then (None, s)
    else
      var id := s.rebuilds[0];
      var (saved, s1) :=
        SaveShopRedis(s.(rebuilds := s.rebuilds[1..]), id, REBUILD_EXPIRE_SECONDS, now, fault);
      (Some(if saved.Threw? then Threw(Runtime) else Returned(())), UnLockShop(s1, id))
  }

  /** update(shop): refuse a null id; otherwise update the row, then delete the cache key. */
  function Update(s: ShopState, shop: Shop): (Result<()>, ShopState)
  {
    if shop.id.None? then (Fail(SHOP_ID_REQUIRED), s)
    else
      var id := shop.id.value;
      var shops := if id in s.shops then s.shops[id := Merge(s.shops[id], shop)] else s.shops;
      (Ok(()), s.(shops := shops, strings := s.strings - {CacheShop(id)}))
  }

  /** queryById: the logical-expiration lookup, with null turned into a failure message. */
  function QueryById(s: ShopState, id: int, now: int): (Outcome<Result<Shop>>, ShopState)
  {
    var (r, s1) := LogicalExpire(s, id, now);
    match r
    case Threw(e) => (Threw(e), s1)
    case Returned(None) => (Returned(Fail(SHOP_NOT_FOUND)), s1)
    case Returned(Some(shop)) => (Returned(Ok(shop)), s1)
  }

  /** queryWithMutex as evidently intended: the finally block deletes the lock only in the
      frame whose tryLock succeeded. */
  function MutexOwned(s: ShopState, id: int, depth: nat): (Outcome<Option<Shop>>, ShopState)
    decreases depth
  {
    var json := Get(s, id);
    if !IsBlank(json) then (Returned(Some(AsShop(json.value))), s)
    else if json.Some? then (Returned(None), s)
    else
      var (isLock, s1) := TryLockShop(s, id);
      if !isLock then
        if depth == 0 then (Threw(StackOverflow), s1) else MutexOwned(s1, id, depth - 1)
      else
        var (shop, s3) := GetById(s1, id);
        if shop.None? then (Returned(None), UnLockShop(Set(s3, id, Empty), id))
        else (Returned(shop), UnLockShop(Set(s3, id, ShopJson(shop.value)), id))
  }

  // ---------------------------------------------------------------------------------------
  // Repeated calls, for the stampede and penetration bounds

  /** `n` successive queryWithPassThrough calls for the same id. */
  function PassThroughMany(s: ShopState, id: int, n: nat): ShopState
    decreases n
  {
    if n == 0 then s else PassThroughMany(PassThrough(s, id).1, id, n - 1)
  }

  /** `n` successive queryWithMutex calls for the same id. */
  function MutexMany(s: ShopState, id: int, depth: nat, n: nat): ShopState
    decreases n
  {
    if n == 0 then s else MutexMany(Mutex(s, id, depth).1, id, depth, n - 1)
  }

  /** Successive queryWithLogicalExpire calls for the same id at the clock readings `nows`. */
  function LogicalExpireMany(s: ShopState, id: int, nows: seq<int>): ShopState
    decreases |nows|
  {
    if nows == [] then s else LogicalExpireMany(LogicalExpire(s, id, nows[0]).1, id, nows[1..])
  }

  // ---------------------------------------------------------------------------------------
  // queryWithPassThrough

  /** A non-blank cached value is decoded and returned; neither the table nor the store is
      touched. */
  lemma PassThroughHit(s: ShopState, id: int)
    requires !IsBlank(Get(s, id))
    ensures PassThrough(s, id) == (Some(AsShop(Get(s, id).value)), s)
  {
  }

  /** A cached "" marker answers null without reading the table. */
  lemma PassThroughMarker(s: ShopState, id: int)
    requires Get(s, id) == Some(Empty)
    ensures PassThrough(s, id) == (None, s)
  {
  }

  /** A true miss reads the table once. An absent row leaves the "" marker behind, so the
      next call answers null without a read; a present row is returned exactly as stored and
      cached, so the next call answers it without a read. */
  lemma PassThroughMiss(s: ShopState, id: int)
    requires Get(s, id) == None
    ensures var (r, s1) := PassThrough(s, id);
            && r == (if id in s.shops then Some(s.shops[id]) else None)
            && s1 == s.(dbReads := s.dbReads + 1,
                        strings := s.strings[CacheShop(id) :=
                          if id in s.shops then ShopJson(s.shops[id]) else Empty])
            && PassThrough(s1, id) == (r, s1)
  {
  }

  /** Any call can be repeated at once: the second call gives the same answer and changes
      nothing, so the table is read at most once for the two. */
  lemma PassThroughRepeatable(s: ShopState, id: int)
    ensures var (r, s1) := PassThrough(s, id);
            && PassThrough(s1, id) == (r, s1)
            && s1.dbReads <= s.dbReads + 1
  {
  }

  /** Penetration guard: any number of lookups of one id, present or not, read the table at
      most once. */
  lemma {:induction false} PassThroughReadsOnce(s: ShopState, id: int, n: nat)
    ensures PassThroughMany(s, id, n).dbReads <= s.dbReads + 1
  {
    if n > 0 {
      var s1 := PassThrough(s, id).1;
      PassThroughStable(s1, id, n - 1);
    }
  }

  /** Once the entry is non-null, further lookups change nothing. */
  lemma {:induction false} PassThroughStable(s: ShopState, id: int, n: nat)
    requires Get(s, id).Some?
    ensures PassThroughMany(s, id, n) == s
  {
    if n > 0 {
      assert PassThrough(s, id).1 == s;
      PassThroughStable(s, id, n - 1);
    }
  }

  // ---------------------------------------------------------------------------------------
  // queryWithMutex

  /** Cache hits and marker hits return before the lock is touched. */
  lemma MutexHitLeavesLock(s: ShopState, id: int, depth: nat)
    requires Get(s, id).Some?
    ensures Mutex(s, id, depth).1 == s
    ensures Mutex(s, id, depth).0 == Returned(PassThrough(s, id).0)
  {
  }

  /** On every path that reaches the try block the lock key is gone afterwards: finally
      always deletes it, also after a failed acquisition and its retries. */
  lemma MutexLockAbsentAfter(s: ShopState, id: int, depth: nat)
    requires Get(s, id) == None
    ensures LockShop(id) !in Mutex(s, id, depth).1.locks
  {
  }

  /** With the lock free, queryWithMutex answers and caches exactly what queryWithPassThrough
      does, and the lock set ends as it began: the row or the "" marker is cached. */
  lemma MutexAgreesWithPassThrough(s: ShopState, id: int, depth: nat)
    requires LockShop(id) !in s.locks
    ensures Mutex(s, id, depth) == (Returned(PassThrough(s, id).0), PassThrough(s, id).1)
    ensures Get(s, id) == None ==>
              Get(Mutex(s, id, depth).1, id) ==
                Some(if id in s.shops then ShopJson(s.shops[id]) else Empty)
  {
  }

  /** With the lock held elsewhere and nothing else running, every retry fails again, the
      stack runs out, and the unwinding finally blocks delete the other holder's lock. The
      table is never read. */
  lemma {:induction false} MutexHeldGivesUp(s: ShopState, id: int, depth: nat)
    requires Get(s, id) == None && LockShop(id) in s.locks
    ensures Mutex(s, id, depth) == (Threw(StackOverflow), UnLockShop(s, id))
  {
    assert s.locks + {LockShop(id)} == s.locks;
    assert TryLockShop(s, id) == (false, s);
    if depth > 0 {
      MutexHeldGivesUp(s, id, depth - 1);
      assert UnLockShop(UnLockShop(s, id), id) == UnLockShop(s, id);
    }
  }

  /** Stampede bound: any number of successive queryWithMutex calls for one id read the
      table at most once. */
  lemma {:induction false} MutexReadsOnce(s: ShopState, id: int, depth: nat, n: nat)
    ensures MutexMany(s, id, depth, n).dbReads <= s.dbReads + 1
    decreases n
  {
    if n > 0 {
      var s1 := Mutex(s, id, depth).1;
      if Get(s, id).Some? {
        MutexHitLeavesLock(s, id, depth);
        MutexReadsOnce(s1, id, depth, n - 1);
      } else if LockShop(id) in s.locks {
        MutexHeldGivesUp(s, id, depth);
        MutexReadsOnce(s1, id, depth, n - 1);
      } else {
        MutexAgreesWithPassThrough(s, id, depth);
        MutexStable(s1, id, depth, n - 1);
      }
    }
  }

  /** Once the entry is non-null, further queryWithMutex calls change nothing. */
  lemma {:induction false} MutexStable(s: ShopState, id: int, depth: nat, n: nat)
    requires Get(s, id).Some?
    ensures MutexMany(s, id, depth, n) == s
  {
    if n > 0 {
      MutexHitLeavesLock(s, id, depth);
      MutexStable(s, id, depth, n - 1);
    }
  }

  /** As written, a miss while a rebuild task holds the shop's lock deletes that lock: the
      invariant that every pending rebuild holds its lock breaks. */
  lemma MutexDropsRebuildLock()
    ensures var s := ShopState(map[], {LockShop(1)}, map[], 0, [1]);
            RebuildsHoldLocks(s) && !RebuildsHoldLocks(Mutex(s, 1, 0).1)
  {
    var s := ShopState(map[], {LockShop(1)}, map[], 0, [1]);
    MutexHeldGivesUp(s, 1, 0);
    assert LockShop(Mutex(s, 1, 0).1.rebuilds[0]) !in Mutex(s, 1, 0).1.locks;
  }

  /** The intended queryWithMutex leaves a lock it did not take where it is. */
  lemma {:induction false} MutexOwnedKeepsForeignLock(s: ShopState, id: int, depth: nat)
    requires Get(s, id) == None && LockShop(id) in s.locks
    ensures MutexOwned(s, id, depth) == (Threw(StackOverflow), s)
  {
    assert s.locks + {LockShop(id)} == s.locks;
    assert TryLockShop(s, id) == (false, s);
    if depth > 0 {
      MutexOwnedKeepsForeignLock(s, id, depth - 1);
    }
  }

  /** The intended queryWithMutex behaves as the written one whenever the lock is free, and
      never disturbs the locks of pending rebuilds. */
  lemma MutexOwnedCorrect(s: ShopState, id: int, depth: nat)
    ensures LockShop(id) !in s.locks ==> MutexOwned(s, id, depth) == Mutex(s, id, depth)
    ensures RebuildsHoldLocks(s) ==> RebuildsHoldLocks(MutexOwned(s, id, depth).1)
    ensures MutexOwned(s, id, depth).1.locks == s.locks
  {
    if Get(s, id) == None && LockShop(id) in s.locks {
      MutexOwnedKeepsForeignLock(s, id, depth);
    }
  }

  // ---------------------------------------------------------------------------------------
  // queryWithLogicalExpire, the rebuild task, saveShopRedis

  /** A blank or absent entry answers null, takes no lock and submits no rebuild. */
  lemma LogicalExpireBlank(s: ShopState, id: int, now: int)
    requires IsBlank(Get(s, id))
    ensures LogicalExpire(s, id, now) == (Returned(None), s)
  {
  }

  /** An entry whose expire time is strictly after `now` is returned; no lock is taken. */
  lemma LogicalExpireFresh(s: ShopState, id: int, now: int, data: Option<Shop>, expireTime: int)
    requires Get(s, id) == Some(RedisDataJson(data, expireTime)) && expireTime > now
    ensures LogicalExpire(s, id, now) == (Returned(data), s)
  {
  }

  /** An expired entry is returned stale whether or not the lock is won; a rebuild is
      submitted, holding the lock, exactly when tryLock succeeded. */
  lemma LogicalExpireStale(s: ShopState, id: int, now: int, data: Option<Shop>, expireTime: int)
    requires Get(s, id) == Some(RedisDataJson(data, expireTime)) && expireTime <= now
    ensures LogicalExpire(s, id, now).0 == Returned(data)
    ensures LogicalExpire(s, id, now).1 ==
              if LockShop(id) in s.locks then s
              else s.(locks := s.locks + {LockShop(id)}, rebuilds := s.rebuilds + [id])
  {
  }

  /** An entry in the plain Shop format carries no expire time: isAfter is called on null. */
  lemma LogicalExpireOnShopJson(s: ShopState, id: int, now: int, shop: Shop)
    requires Get(s, id) == Some(ShopJson(shop))
    ensures LogicalExpire(s, id, now) == (Threw(NullPointer), s)
  {
  }

  /** The logical-expiration read never blocks on the table or writes the cache: only the
      lock set and the task queue can change, and a task is added only together with its
      lock. Pending rebuilds keep holding their locks. */
  lemma LogicalExpireKeepsRebuildLocks(s: ShopState, id: int, now: int)
    requires RebuildsHoldLocks(s)
    ensures var s1 := LogicalExpire(s, id, now).1;
            && RebuildsHoldLocks(s1)
            && s1.strings == s.strings && s1.shops == s.shops && s1.dbReads == s.dbReads
            && (s1.rebuilds == s.rebuilds ||
                (s1.rebuilds == s.rebuilds + [id] && LockShop(id) !in s.locks))
  {
    var s1 := LogicalExpire(s, id, now).1;
    if s1.rebuilds != s.rebuilds {
      forall i | 0 <= i < |s.rebuilds| ensures s.rebuilds[i] != id {
        assert LockShop(s.rebuilds[i]) in s.locks;
      }
    }
  }

  /** Stampede bound for logical expiration: however many reads of one id run, at whatever
      clock readings, at most one rebuild is submitted while the first is pending, and the
      table is never read. */
  lemma {:induction false} LogicalExpireQueuesOnce(s: ShopState, id: int, nows: seq<int>)
    requires RebuildsHoldLocks(s)
    ensures var s1 := LogicalExpireMany(s, id, nows);
            && RebuildsHoldLocks(s1) && s1.dbReads == s.dbReads && s1.strings == s.strings
            && (s1.rebuilds == s.rebuilds || s1.rebuilds == s.rebuilds + [id])
    decreases |nows|
  {
    if nows != [] {
      var s1 := LogicalExpire(s, id, nows[0]).1;
      LogicalExpireKeepsRebuildLocks(s, id, nows[0]);
      if s1.rebuilds == s.rebuilds {
        LogicalExpireQueuesOnce(s1, id, nows[1..]);
      } else {
        // the lock is now held, so no later read submits another task
        LogicalExpireHeldNoQueue(s1, id, nows[1..]);
      }
    }
  }

  /** While the shop's lock is held, reads submit nothing and change nothing. */
  lemma {:induction false} LogicalExpireHeldNoQueue(s: ShopState, id: int, nows: seq<int>)
    requires LockShop(id) in s.locks
    ensures LogicalExpireMany(s, id, nows) == s
  {
    if nows != [] {
      assert LogicalExpire(s, id, nows[0]).1 == s;
      LogicalExpireHeldNoQueue(s, id, nows[1..]);
    }
  }

  /** saveShopRedis writes the row (or null) with expire time now + expireSeconds under the
      shop's cache key, reading the table once and changing nothing else. */
  lemma SaveShopRedisWrites(s: ShopState, id: int, expireSeconds: int, now: int)
    ensures var (r, s1) := SaveShopRedis(s, id, expireSeconds, now, NoFault);
            && r == Returned(())
            && Get(s1, id) == Some(RedisDataJson(GetById(s, id).0, now + expireSeconds))
            && (forall k :: k != CacheShop(id) ==>
                  (k in s1.strings <==> k in s.strings) &&
                  (k in s.strings ==> s1.strings[k] == s.strings[k]))
            && s1.locks == s.locks && s1.shops == s.shops && s1.rebuilds == s.rebuilds
            && s1.dbReads == s.dbReads + 1
  {
  }

  /** A failing saveShopRedis throws and leaves the store untouched; only a read that
      completed before the write failed is counted. */
  lemma SaveShopRedisFails(s: ShopState, id: int, expireSeconds: int, now: int, fault: SaveFault)
    requires fault != NoFault
    ensures var (r, s1) := SaveShopRedis(s, id, expireSeconds, now, fault);
            && r == Threw(DataAccess)
            && s1 == s.(dbReads := s.dbReads + (if fault == WriteFails then 1 else 0))
  {
  }

  /** A rebuild task whose save succeeds writes the entry and deletes the lock in finally;
      the queue of tasks loses its head, pending rebuilds keep their locks, and the rebuilt
      entry is served fresh, without a lock, to every read in the next 20 seconds. */
  lemma RunRebuildRefreshes(s: ShopState, now: int, t: int)
    requires RebuildsHoldLocks(s) && s.rebuilds != []
    requires t < now + REBUILD_EXPIRE_SECONDS
    ensures var (r, s1) := RunRebuild(s, now, NoFault);
            var id := s.rebuilds[0];
            && r == Some(Returned(()))
            && s1 == UnLockShop(SaveShopRedis(s.(rebuilds := s.rebuilds[1..]), id,
                                              REBUILD_EXPIRE_SECONDS, now, NoFault).1, id)
            && LockShop(id) !in s1.locks
            && RebuildsHoldLocks(s1)
            && LogicalExpire(s1, id, t) == (Returned(GetById(s, id).0), s1)
  {
    RunRebuildReleases(s, now, NoFault);
  }

  /** On every path, a failing save included, the task is dequeued, its lock and only its
      lock is deleted, and the pending rebuilds keep theirs. A failure surfaces as the
      wrapping RuntimeException and leaves the string entries as they were. */
  lemma RunRebuildReleases(s: ShopState, now: int, fault: SaveFault)
    requires RebuildsHoldLocks(s) && s.rebuilds != []
    ensures var (r, s1) := RunRebuild(s, now, fault);
            var id := s.rebuilds[0];
            && r == Some(if fault == NoFault then Returned(()) else Threw(Runtime))
            && s1.rebuilds == s.rebuilds[1..]
            && s1.locks == s.locks - {LockShop(id)}
            && RebuildsHoldLocks(s1)
            && s1.shops == s.shops
            && (fault != NoFault ==> s1.strings == s.strings)
            && s1.dbReads == s.dbReads + (if fault == ReadFails then 0 else 1)
  {
    var id := s.rebuilds[0];
    var s1 := RunRebuild(s, now, fault).1;
    forall i | 0 <= i < |s1.rebuilds| ensures LockShop(s1.rebuilds[i]) in s1.locks {
      assert s1.rebuilds[i] == s.rebuilds[i + 1];
      assert s.rebuilds[i + 1] != s.rebuilds[0];
    }
  }

  /** With no task pending, the executor has nothing to run. */
  lemma RunRebuildIdle(s: ShopState, now: int, fault: SaveFault)
    requires s.rebuilds == []
    ensures RunRebuild(s, now, fault) == (None, s)
  {
  }

  // ---------------------------------------------------------------------------------------
  // update and queryById

  /** A null id is refused and nothing changes. */
  lemma UpdateNullId(s: ShopState, shop: Shop)
    requires shop.id == None
    ensures Update(s, shop) == (Fail(SHOP_ID_REQUIRED), s)
  {
  }

  /** Otherwise the row (if any) takes the non-null fields of the argument and the cache key
      is deleted, so the next pass-through lookup reads the table and answers the updated
      row. Rows stay stored under their ids. */
  lemma UpdateInvalidates(s: ShopState, shop: Shop)
    requires shop.id.Some?
    ensures var id := shop.id.value;
            var (r, s1) := Update(s, shop);
            && r == Ok(())
            && Get(s1, id) == None
            && s1.shops.Keys == s.shops.Keys
            && (id in s.shops ==> s1.shops[id] == Merge(s.shops[id], shop))
            && (forall k :: k in s.shops && k != id ==> s1.shops[k] == s.shops[k])
            && s1.locks == s.locks && s1.rebuilds == s.rebuilds && s1.dbReads == s.dbReads
            && (RowsKeyed(s) ==> RowsKeyed(s1))
            && PassThrough(s1, id) ==
                 (if id in s1.shops then Some(s1.shops[id]) else None,
                  s1.(dbReads := s1.dbReads + 1,
                      strings := s1.strings[CacheShop(id) :=
                        if id in s1.shops then ShopJson(s1.shops[id]) else Empty]))
  {
    var id := shop.id.value;
    var s1 := Update(s, shop).1;
    PassThroughMiss(s1, id);
  }

  /** queryById answers Fail("店铺不存在") exactly when the logical-expiration lookup answers
      null, Ok(shop) exactly when it answers shop, and passes exceptions through. */
  lemma QueryByIdResult(s: ShopState, id: int, now: int)
    ensures var (r, s1) := QueryById(s, id, now);
            var (l, s2) := LogicalExpire(s, id, now);
            && s1 == s2
            && (r == Returned(Fail(SHOP_NOT_FOUND)) <==> l == Returned(None))
            && (forall shop :: r == Returned(Ok(shop)) <==> l == Returned(Some(shop)))
            && (forall e :: r == Threw(e) <==> l == Threw(e))
  {
  }
}
