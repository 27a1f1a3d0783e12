/** Primitives shared by the shop cache and the voucher-order pipeline: optional values, the
    keys of the coordination store, the tagged results handed to the HTTP layer, the
    exceptions that can escape the core, and the lock discipline built on set-if-absent. */
module Store {

  datatype Option<T> = None | Some(value: T)

  /** Keys of the coordination store that the core touches. `CacheShop(id)` is the cache
      key CACHE_SHOP_KEY + id and `LockOrder(u)` is "lock:order:" + u. `LockShop(id)` stands
      both for the literal "lock:shop:" + id of queryWithMutex and for LOCK_SHOP_KEY + id of
      queryWithLogicalExpire: the model takes LOCK_SHOP_KEY to be "lock:shop:", a value
      RedisConstants would have to confirm. Distinct constructors stand for distinct
      prefixes, so two keys are equal exactly when prefix and id are. */
  datatype Key = CacheShop(shopId: int) | LockShop(shopId: int) | LockOrder(userId: int)

  /** Exceptions that can escape an operation of the core. */
  datatype Exception =
    | NullPointer     // a null reference was dereferenced
    | IllegalState    // ArrayBlockingQueue.add on a full queue ("Queue full")
    | StackOverflow   // the retry recursion of queryWithMutex ran out of stack
    | DataAccess      // the store or the database failed to answer a call
    | Runtime         // the RuntimeException the rebuild task wraps a failure in

  /** How a Java call ends: it returns a value or throws. */
  datatype Outcome<T> = Returned(value: T) | Threw(exception: Exception)

  /** com.hmdp.dto.Result as the HTTP layer receives it. */
  datatype Result<T> = Ok(data: T) | Fail(errorMsg: string)

  /** BooleanUtil.isTrue: a null Boolean reply counts as false. */
  function IsTrue(flag: Option<bool>): bool
  {
    flag == Some(true)
  }

  /** setIfAbsent on a lock key, as the store answers it: the reply is whether the key was
      absent, and afterwards the key is held either way. */
  function SetIfAbsent(locks: set<Key>, key: Key): (Option<bool>, set<Key>)
  {
    (Some(key !in locks), locks + {key})
  }

  /** tryLock: setIfAbsent, with the boxed reply passed through IsTrue. */
  function TryLock(locks: set<Key>, key: Key): (bool, set<Key>)
  {
    var (flag, locks') := SetIfAbsent(locks, key);
    (IsTrue(flag), locks')
  }

  /** unLock: delete the lock key, whoever set it. */
  function UnLock(locks: set<Key>, key: Key): set<Key>
  {
    locks - {key}
  }

  /** tryLock succeeds exactly when the key was absent; afterwards the key is held and no
      other key changed, and a failed attempt changes nothing at all. */
  lemma TryLockIffAbsent(locks: set<Key>, key: Key)
    ensures TryLock(locks, key).0 <==> key !in locks
    ensures TryLock(locks, key).1 == locks + {key}
    ensures !TryLock(locks, key).0 ==> TryLock(locks, key).1 == locks
  {
  }

  /** Once a tryLock has succeeded a second tryLock on the same key fails, and it succeeds
      again only after unLock has removed the key. */
  lemma TryLockExcludesUntilUnLock(locks: set<Key>, key: Key)
    requires TryLock(locks, key).0
    ensures var held := TryLock(locks, key).1;
            !TryLock(held, key).0 && TryLock(UnLock(held, key), key).0
  {
  }

  /** A null reply (which the store above never gives) is a failed acquisition. */
  lemma NullReplyIsFailure()
    ensures !IsTrue(None) && !IsTrue(Some(false)) && IsTrue(Some(true))
  {
  }
}
