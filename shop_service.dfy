/** ShopServiceImpl as a class over the store and the shop table. Every method follows the
    Java statement by statement and is proved to produce the result and the new state given
    by the matching function of ShopCache. */
module ShopServiceImpl {
  import opened Store
  import opened ShopCache

  class ShopService {
    var strings: map<Key, Text>   // string entries of the store
    var locks: set<Key>           // lock keys currently set
    var shops: map<int, Shop>     // tb_shop
    ghost var dbReads: nat        // how many times getById has run
    var rebuilds: seq<int>        // tasks submitted to CACHE_REBUILD_EXECUTOR, not yet run

    ghost function State(): ShopState
      reads this
    {
      ShopState(strings, locks, shops, dbReads, rebuilds)
    }

    /** String entries live under the cache prefix and lock keys under the shop-lock
        prefix, so deleting a key of one kind never touches the other. */
    ghost predicate Valid()
      reads this
    {
      && (forall k :: k in strings ==> k.CacheShop?)
      && (forall k :: k in locks ==> k.LockShop?)
    }

    constructor (shops: map<int, Shop>)
      ensures Valid() && State() == ShopState(map[], {}, shops, 0, [])
    {
      this.strings := map[];
      this.locks := {};
      this.shops := shops;
      this.dbReads := 0;
      this.rebuilds := [];
    }

    // -------------------------------------------------------------------------------------
    // The store client and the table

    /** opsForValue().get(key). */
    method Get(key: Key) returns (v: Option<Text>)
      ensures v == (if key in strings then Some(strings[key]) else None)
    {
      v := if key in strings then Some(strings[key]) else None;
    }

    /** opsForValue().set(key, value[, ttl]). */
    method Set(key: Key, t: Text)
      requires key.CacheShop? && Valid()
      modifies this`strings
      ensures Valid() && strings == old(strings)[key := t]
    {
      strings := strings[key := t];
    }

    /** delete(key), for a string entry or a lock alike. */
    method Delete(key: Key)
      requires Valid()
      modifies this`strings, this`locks
      ensures Valid()
      ensures strings == old(strings) - {key} && locks == old(locks) - {key}
    {
      strings := strings - {key};
      locks := locks - {key};
    }

    /** opsForValue().setIfAbsent(key, "1", 10, MINUTES) on a lock key, with its boxed reply. */
    method SetIfAbsent(key: Key) returns (flag: Option<bool>)
      requires Valid() && key.LockShop?
      modifies this`locks
      ensures Valid() && (flag, locks) == Store.SetIfAbsent(old(locks), key)
    {
      flag := Some(key !in locks);
      locks := locks + {key};
    }

    /** getById(id). */
    method GetById(id: int) returns (shop: Option<Shop>)
      modifies this`dbReads
      ensures (shop, State()) == ShopCache.GetById(old(State()), id)
    {
      shop := if id in shops then Some(shops[id]) else None;
      dbReads := dbReads + 1;
    }

    // -------------------------------------------------------------------------------------
    // tryLock and unLock

    method TryLock(key: Key) returns (ok: bool)
      requires Valid() && key.LockShop?
      modifies this`locks
      ensures Valid() && (ok, locks) == Store.TryLock(old(locks), key)
    {
      var flag := SetIfAbsent(key);
      ok := IsTrue(flag);
    }

    method UnLock(key: Key)
      requires Valid() && key.LockShop?
      modifies this`strings, this`locks
      ensures Valid() && strings == old(strings) && locks == Store.UnLock(old(locks), key)
    {
      Delete(key);
      assert strings == old(strings);
    }

    // -------------------------------------------------------------------------------------
    // The lookups

    method QueryWithPassThrough(id: int) returns (shop: Option<Shop>)
      requires Valid()
      modifies this
      ensures Valid() && (shop, State()) == PassThrough(old(State()), id)
    {
      var shopJson := Get(CacheShop(id));
      if !IsBlank(shopJson) {
        return Some(AsShop(shopJson.value));
      }
      if shopJson.Some? {
        return None;
      }
      shop := GetById(id);
      if shop.None? {
        Set(CacheShop(id), Empty);
        return None;
      }
      Set(CacheShop(id), ShopJson(shop.value));
    }

    /** The retry recursion is bounded by `depth` frames (see ShopCache.Mutex). */
    method QueryWithMutex(id: int, depth: nat) returns (r: Outcome<Option<Shop>>)
      requires Valid()
      modifies this
      ensures Valid() && (r, State()) == Mutex(old(State()), id, depth)
      decreases depth
    {
      var shopJson := Get(CacheShop(id));
      if !IsBlank(shopJson) {
        return Returned(Some(AsShop(shopJson.value)));
      }
      if shopJson.Some? {
        return Returned(None);
      }
      var lockKey := LockShop(id);
      // try
      var isLock := TryLock(lockKey);
      if !isLock {
        if depth == 0 {
          r := Threw(StackOverflow);
        } else {
          r := QueryWithMutex(id, depth - 1);
        }
      } else {
        var shop := GetById(id);
        if shop.None? {
          Set(CacheShop(id), Empty);
          r := Returned(None);
        } else {
          Set(CacheShop(id), ShopJson(shop.value));
          r := Returned(shop);
        }
      }
      // finally
      UnLock(lockKey);
    }

    /** queryWithMutex with the lock released only by the frame that acquired it. */
    method QueryWithMutexOwned(id: int, depth: nat) returns (r: Outcome<Option<Shop>>)
      requires Valid()
      modifies this
      ensures Valid() && (r, State()) == MutexOwned(old(State()), id, depth)
      decreases depth
    {
      var shopJson := Get(CacheShop(id));
      if !IsBlank(shopJson) {
        return Returned(Some(AsShop(shopJson.value)));
      }
      if shopJson.Some? {
        return Returned(None);
      }
      var lockKey := LockShop(id);
      var isLock := TryLock(lockKey);
      if !isLock {
        if depth == 0 {
          return Threw(StackOverflow);
        }
        r := QueryWithMutexOwned(id, depth - 1);
        return;
      }
      // try
      var shop := GetById(id);
      if shop.None? {
        Set(CacheShop(id), Empty);
        r := Returned(None);
      } else {
        Set(CacheShop(id), ShopJson(shop.value));
        r := Returned(shop);
      }
      // finally
      UnLock(lockKey);
    }

    method QueryWithLogicalExpire(id: int, now: int) returns (r: Outcome<Option<Shop>>)
      requires Valid()
      modifies this
      ensures Valid() && (r, State()) == LogicalExpire(old(State()), id, now)
    {
      var shopJson := Get(CacheShop(id));
      if IsBlank(shopJson) {
        return Returned(None);
      }
      var (shop, expireTime) := AsRedisData(shopJson.value);
      if expireTime.None? {
        return Threw(NullPointer);
      }
      if expireTime.value > now {
        return Returned(shop);
      }
      var isLock := TryLock(LockShop(id));
      if isLock {
        rebuilds := rebuilds + [id];   // CACHE_REBUILD_EXECUTOR.submit
      }
      r := Returned(shop);
    }

    method SaveShopRedis(id: int, expireSeconds: int, now: int, fault: SaveFault)
      returns (r: Outcome<()>)
      requires Valid()
      modifies this
      ensures Valid()
      ensures (r, State()) == ShopCache.SaveShopRedis(old(State()), id, expireSeconds, now, fault)
    {
      if fault == ReadFails {
        return Threw(DataAccess);   // getById throws
      }
      var shop := GetById(id);
      if fault == WriteFails {
        return Threw(DataAccess);   // set throws
      }
      Set(CacheShop(id), RedisDataJson(shop, now + expireSeconds));
      r := Returned(());
    }

    /** The executor runs the oldest submitted rebuild task, if any. */
    method RunRebuild(now: int, fault: SaveFault) returns (r: Option<Outcome<()>>)
      requires Valid()
      modifies this
      ensures Valid() && (r, State()) == ShopCache.RunRebuild(old(State()), now, fault)
    {
      if rebuilds == [] {
        return None;
      }
      var id := rebuilds[0];
      rebuilds := rebuilds[1..];
      // try
      var saved := SaveShopRedis(id, REBUILD_EXPIRE_SECONDS, now, fault);
      // catch: rethrown as a RuntimeException
      r := Some(if saved.Threw? then Threw(Runtime) else Returned(()));
      // finally
      UnLock(LockShop(id));
    }

    method Update(shop: Shop) returns (r: Result<()>)
      requires Valid()
      modifies this
      ensures Valid() && (r, State()) == ShopCache.Update(old(State()), shop)
    {
      if shop.id.None? {
        return Fail(SHOP_ID_REQUIRED);
      }
      var id := shop.id.value;
      if id in shops {   // updateById
        shops := shops[id := Merge(shops[id], shop)];
      }
      Delete(CacheShop(id));
      assert locks == old(locks);
      r := Ok(());
    }

    method QueryById(id: int, now: int) returns (r: Outcome<Result<Shop>>)
      requires Valid()
      modifies this
      ensures Valid() && (r, State()) == ShopCache.QueryById(old(State()), id, now)
    {
      var shop := QueryWithLogicalExpire(id, now);
      match shop
      case Threw(e) => r := Threw(e);
      case Returned(None) => r := Returned(Fail(SHOP_NOT_FOUND));
      case Returned(Some(s)) => r := Returned(Ok(s));
    }
  }
}
