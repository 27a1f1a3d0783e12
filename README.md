# hm-dianping shop cache and flash-sale pipeline, modelled in Dafny

This project models two services of the hm-dianping back end.

**The shop read-through cache** (`ShopServiceImpl`). It has three lookup strategies in front of the
`tb_shop` table:
- cache-aside, with an empty-string "not found" marker against cache penetration;
- cache-aside with a `setIfAbsent` mutex, retried while the lock is held;
- logical expiration, where an expired entry is served stale and the caller that wins the lock
  submits a rebuild task.

It also has `saveShopRedis`, which writes an entry with a logical expire time, and `update`, which
writes the table and then invalidates the cache.

**The flash-sale order pipeline** (`VoucherOrderServiceImpl`):
- `seckillVoucher` reads the admission script's reply and enqueues an order intent into a bounded
  FIFO queue;
- a single handler thread takes intents, one per iteration, and runs `handleVoucherOrder` under a
  per-user lock;
- `createVoucherOrder` does a duplicate check, then a `stock > 0` conditional decrement, then a save.

The coordination store is a map from keys to string values plus a set of held lock keys. The
database is a map of shop rows, a map of voucher stock and a sequence of order rows. Work that the
source hands to another thread becomes an explicit queue, drained one step at a time by its own
operation:
- the rebuild tasks given to `CACHE_REBUILD_EXECUTOR`;
- the intents that `VoucherOrderHandler` takes.

Layout:
- `store.dfy` (module `Store`): keys, `Option`/`Outcome`/`Result`, the exceptions that can escape,
  and the `tryLock`/`unLock` discipline on a lock set.
- `shop_cache.dfy` (module `ShopCache`): every cache operation as a function from one state value to
  a result and the next state, with the lemmas about those functions.
- `shop_service.dfy` (module `ShopServiceImpl`): class `ShopService`. Its fields are the store and
  the table, and its methods follow the Java statement by statement. Each method is proved to
  produce exactly the result and new state of the matching `ShopCache` function.
- `voucher_orders.dfy` (module `VoucherOrders`): the order pipeline as functions on one state value,
  with its lemmas.
- `voucher_service.dfy` (module `VoucherOrderServiceImpl`): class `VoucherOrderService`, whose
  methods are proved against `VoucherOrders`. Its `Run` method is the handler's loop, with the loop
  invariant that ties it to the function `VoucherOrders.Run`.

Inputs that the source takes from outside are parameters:
- the clock reading `now`;
- the reply of the admission script `seckill.lua`;
- the user in `UserHolder`;
- the value that MyBatis-Plus binds when it is handed the order object as a column value.

Two parameters have special forms:
- The recursion of `queryWithMutex` is bounded by a fuel parameter `depth`. Running out of fuel ends
  the call as the `StackOverflowError` an endless retry would raise, and every frame's `finally`
  still runs.
- `createVoucherOrder` is modelled in two modes, given by the `Fulfilment` datatype. `AsWritten`
  reads the user and the voucher filter as the code does. `Intended` takes both from the order.

Three facts about the code shape the model:
- The retry recursion of `queryWithMutex` (ShopServiceImpl.java lines 150-154) has no bound.
- The order lock's `tryLock()` (VoucherOrderServiceImpl.java line 84) does not wait.
- The `finally` of `queryWithMutex` (ShopServiceImpl.java lines 172-175) deletes the lock even in a
  frame whose `tryLock` failed (first finding below).

## Model

| member | source | states |
|---|---|---|
| Store.TryLockIffAbsent | src/main/java/com/hmdp/service/impl/ShopServiceImpl.java:49-55 | tryLock succeeds exactly when the key was absent; afterwards the key is held and nothing else changes; a failed attempt changes nothing |
| Store.TryLockExcludesUntilUnLock | src/main/java/com/hmdp/service/impl/ShopServiceImpl.java:49-63 | after a successful tryLock a second tryLock on the same key fails, and tryLock succeeds again once unLock has deleted the key |
| Store.NullReplyIsFailure | src/main/java/com/hmdp/service/impl/ShopServiceImpl.java:51-54 | BooleanUtil.isTrue turns a null or false reply into a failed acquisition and only true into success |
| ShopCache.PassThroughHit | src/main/java/com/hmdp/service/impl/ShopServiceImpl.java:90-96 | a non-blank cached value is decoded and returned, with no table read and no write |
| ShopCache.PassThroughMarker | src/main/java/com/hmdp/service/impl/ShopServiceImpl.java:99-102 | a cached "" marker answers null without reading the table or changing anything |
| ShopCache.PassThroughMiss | src/main/java/com/hmdp/service/impl/ShopServiceImpl.java:105-118 | on a true miss the table is read once; an absent row leaves the "" marker and a present row is cached and returned exactly as stored; an immediate second call answers the same without a read |
| ShopCache.PassThroughRepeatable | src/main/java/com/hmdp/service/impl/ShopServiceImpl.java:88-119 | any lookup repeated at once gives the same answer and changes nothing, and the two calls read the table at most once |
| ShopCache.PassThroughReadsOnce | src/main/java/com/hmdp/service/impl/ShopServiceImpl.java:99-112 | any number of successive lookups of one id, present in the table or not, read the table at most once (the penetration guard) |
| ShopCache.PassThroughStable | src/main/java/com/hmdp/service/impl/ShopServiceImpl.java:94-102 | once the cache entry exists, any number of further lookups leave the state unchanged |
| ShopCache.MutexHitLeavesLock | src/main/java/com/hmdp/service/impl/ShopServiceImpl.java:128-140 | cache hits and marker hits return what queryWithPassThrough returns, before the lock is touched, and change nothing |
| ShopCache.MutexLockAbsentAfter | src/main/java/com/hmdp/service/impl/ShopServiceImpl.java:142-175 | on every path that reaches the try block, including a failed acquisition and its retries, the key lock:shop:id is absent afterwards |
| ShopCache.MutexAgreesWithPassThrough | src/main/java/com/hmdp/service/impl/ShopServiceImpl.java:144-178 | with the lock free, queryWithMutex answers and writes exactly what queryWithPassThrough does, ending with the serialized row or the "" marker cached and the lock set as it began |
| ShopCache.MutexHeldGivesUp | src/main/java/com/hmdp/service/impl/ShopServiceImpl.java:147-154 | with the lock held elsewhere, every retry fails, the table is never read, the call ends in a stack overflow, and the only change is that the other holder's lock is deleted |
| ShopCache.MutexReadsOnce | src/main/java/com/hmdp/service/impl/ShopServiceImpl.java:126-179 | any number of successive queryWithMutex calls for one id read the table at most once |
| ShopCache.MutexStable | src/main/java/com/hmdp/service/impl/ShopServiceImpl.java:132-140 | once the cache entry exists, further queryWithMutex calls change nothing |
| ShopCache.MutexDropsRebuildLock | src/main/java/com/hmdp/service/impl/ShopServiceImpl.java:150-175 | as written, a miss while a pending rebuild holds the shop's lock deletes that lock, so the invariant that each pending rebuild holds its lock breaks |
| ShopCache.MutexOwnedKeepsForeignLock | src/main/java/com/hmdp/service/impl/ShopServiceImpl.java:147-154 | the corrected queryWithMutex leaves a lock it did not take in place and changes nothing else |
| ShopCache.MutexOwnedCorrect | src/main/java/com/hmdp/service/impl/ShopServiceImpl.java:126-179 | the corrected queryWithMutex equals the written one whenever the lock is free, never changes the lock set, and keeps every pending rebuild's lock |
| ShopCache.LogicalExpireBlank | src/main/java/com/hmdp/service/impl/ShopServiceImpl.java:189-195 | a blank or absent entry answers null, takes no lock and submits no rebuild |
| ShopCache.LogicalExpireFresh | src/main/java/com/hmdp/service/impl/ShopServiceImpl.java:199-207 | an entry whose expire time is strictly after now is answered with its data, with no lock and no change |
| ShopCache.LogicalExpireStale | src/main/java/com/hmdp/service/impl/ShopServiceImpl.java:212-229 | an expired entry is answered stale whether or not the lock is won; a rebuild is submitted, with the lock taken, exactly when the lock was free |
| ShopCache.LogicalExpireOnShopJson | src/main/java/com/hmdp/service/impl/ShopServiceImpl.java:199-204 | an entry in the plain Shop format has no expireTime, so isAfter throws a NullPointerException and nothing changes |
| ShopCache.LogicalExpireKeepsRebuildLocks | src/main/java/com/hmdp/service/impl/ShopServiceImpl.java:187-230 | the lookup never reads the table or writes the cache; it adds a rebuild only for a shop whose lock was free, together with that lock; pending rebuilds keep their locks |
| ShopCache.LogicalExpireQueuesOnce | src/main/java/com/hmdp/service/impl/ShopServiceImpl.java:212-227 | any number of lookups of one id, at any clock readings, submit at most one rebuild while the first is pending, and never read the table |
| ShopCache.LogicalExpireHeldNoQueue | src/main/java/com/hmdp/service/impl/ShopServiceImpl.java:213-227 | while the shop's lock is held, any number of lookups submit nothing and change nothing |
| ShopCache.SaveShopRedisWrites | src/main/java/com/hmdp/service/impl/ShopServiceImpl.java:237-246 | when both calls answer, saveShopRedis stores the row, or null, with expire time now + expireSeconds under the shop's cache key; it reads the table once and leaves every other key, the locks and the tasks unchanged |
| ShopCache.SaveShopRedisFails | src/main/java/com/hmdp/service/impl/ShopServiceImpl.java:239-245 | when getById or the store's set throws, saveShopRedis throws and writes nothing; only a read that finished before a failing write is counted |
| ShopCache.RunRebuildRefreshes | src/main/java/com/hmdp/service/impl/ShopServiceImpl.java:217-226 | a rebuild task whose save succeeds runs saveShopRedis(id, 20) and then deletes the lock; the other pending rebuilds keep their locks, and every lookup in the next 20 seconds is answered fresh from the rebuilt entry |
| ShopCache.RunRebuildReleases | src/main/java/com/hmdp/service/impl/ShopServiceImpl.java:217-226 | on every path, a failing save included, the task is dequeued and the finally deletes its lock and no other; the pending rebuilds keep theirs; a failure ends the task in the wrapping RuntimeException with the string entries unchanged |
| ShopCache.RunRebuildIdle | src/main/java/com/hmdp/service/impl/ShopServiceImpl.java:217 | with no submitted task the executor runs nothing and nothing changes |
| ShopCache.UpdateNullId | src/main/java/com/hmdp/service/impl/ShopServiceImpl.java:253-256 | a null id is refused with "店铺id不能为空！" and nothing changes |
| ShopCache.UpdateInvalidates | src/main/java/com/hmdp/service/impl/ShopServiceImpl.java:257-263 | otherwise the answer is ok; the row, if present, takes the non-null fields; other rows, locks and tasks are unchanged; the cache key is deleted, so the next pass-through lookup reads and returns the updated row |
| ShopCache.QueryByIdResult | src/main/java/com/hmdp/service/impl/ShopServiceImpl.java:66-81 | queryById answers Fail("店铺不存在") exactly when the logical-expiration lookup answers null, Ok(shop) exactly when it answers shop, and passes exceptions through, with the same new state |
| ShopServiceImpl.ShopService.constructor | src/main/java/com/hmdp/service/impl/ShopServiceImpl.java:34-40 | the service as Spring leaves it: an empty store, no locks, no submitted rebuild task, no table reads yet, and the given `tb_shop` rows |
| ShopServiceImpl.ShopService.Set | src/main/java/com/hmdp/service/impl/ShopServiceImpl.java:117 | opsForValue().set stores the value under the cache key and changes no other entry |
| ShopServiceImpl.ShopService.Delete | src/main/java/com/hmdp/service/impl/ShopServiceImpl.java:261 | delete removes the key, whether a cache entry or a lock, and nothing else |
| ShopServiceImpl.ShopService.SetIfAbsent | src/main/java/com/hmdp/service/impl/ShopServiceImpl.java:51 | setIfAbsent answers whether the lock key was absent and leaves it held, as Store.SetIfAbsent does |
| ShopServiceImpl.ShopService.GetById | src/main/java/com/hmdp/service/impl/ShopServiceImpl.java:105 | getById answers the row or null and counts one read of the table, as ShopCache.GetById does |
| ShopServiceImpl.ShopService.TryLock | src/main/java/com/hmdp/service/impl/ShopServiceImpl.java:49-55 | setIfAbsent and isTrue on the store's lock set produce Store.TryLock's answer and lock set |
| ShopServiceImpl.ShopService.UnLock | src/main/java/com/hmdp/service/impl/ShopServiceImpl.java:61-63 | delete removes the lock key and leaves the cache entries alone |
| ShopServiceImpl.ShopService.QueryWithPassThrough | src/main/java/com/hmdp/service/impl/ShopServiceImpl.java:88-119 | the method's answer and new state are those of ShopCache.PassThrough |
| ShopServiceImpl.ShopService.QueryWithMutex | src/main/java/com/hmdp/service/impl/ShopServiceImpl.java:126-179 | the recursive method with try/finally gives the answer and new state of ShopCache.Mutex |
| ShopServiceImpl.ShopService.QueryWithMutexOwned | src/main/java/com/hmdp/service/impl/ShopServiceImpl.java:126-179 | the corrected method gives the answer and new state of ShopCache.MutexOwned |
| ShopServiceImpl.ShopService.QueryWithLogicalExpire | src/main/java/com/hmdp/service/impl/ShopServiceImpl.java:187-230 | the method's answer and new state, the submitted task included, are those of ShopCache.LogicalExpire |
| ShopServiceImpl.ShopService.SaveShopRedis | src/main/java/com/hmdp/service/impl/ShopServiceImpl.java:237-246 | the outcome and the new state, on the failing paths too, are those of ShopCache.SaveShopRedis |
| ShopServiceImpl.ShopService.RunRebuild | src/main/java/com/hmdp/service/impl/ShopServiceImpl.java:217-226 | running the oldest submitted task, with its try, catch and finally, gives the outcome and the new state of ShopCache.RunRebuild |
| ShopServiceImpl.ShopService.Update | src/main/java/com/hmdp/service/impl/ShopServiceImpl.java:251-264 | the answer and new state are those of ShopCache.Update |
| ShopServiceImpl.ShopService.QueryById | src/main/java/com/hmdp/service/impl/ShopServiceImpl.java:66-81 | the answer and new state are those of ShopCache.QueryById |
| VoucherOrders.IntValueInRange | src/main/java/com/hmdp/service/impl/VoucherOrderServiceImpl.java:111 | Long.intValue leaves a reply that fits in 32 bits unchanged |
| VoucherOrders.SeckillRefused | src/main/java/com/hmdp/service/impl/VoucherOrderServiceImpl.java:111-114 | a nonzero script code is refused with "库存不足！" for 1 and "不能重复下单！" for every other code, and nothing is enqueued or allocated |
| VoucherOrders.SeckillAdmitted | src/main/java/com/hmdp/service/impl/VoucherOrderServiceImpl.java:115-124 | code 0 appends exactly one intent at the queue's tail, carrying a fresh id distinct from every queued and saved id, the user and the voucher, and answers Ok of that same id |
| VoucherOrders.SeckillQueueFull | src/main/java/com/hmdp/service/impl/VoucherOrderServiceImpl.java:116-120 | on a queue holding 1024*1024 intents add throws, after the id supply has already handed out an id, and nothing is enqueued |
| VoucherOrders.SeckillNullReply | src/main/java/com/hmdp/service/impl/VoucherOrderServiceImpl.java:103-111 | a null reply from the script makes intValue throw a NullPointerException before any id is allocated, and nothing changes |
| VoucherOrders.SeckillKeepsValid | src/main/java/com/hmdp/service/impl/VoucherOrderServiceImpl.java:100-125 | admission keeps the queue within capacity and in increasing id order, and stock non-negative |
| VoucherOrders.CountAppend | src/main/java/com/hmdp/service/impl/VoucherOrderServiceImpl.java:132 | appending an order raises the duplicate count by one exactly when it matches both columns |
| VoucherOrders.CountPositive | src/main/java/com/hmdp/service/impl/VoucherOrderServiceImpl.java:132-133 | the duplicate query counts something exactly when some order matches both user and voucher |
| VoucherOrders.CreateWithoutHolder | src/main/java/com/hmdp/service/impl/VoucherOrderServiceImpl.java:130 | without a user in UserHolder createVoucherOrder throws before touching either table |
| VoucherOrders.CreateDuplicate | src/main/java/com/hmdp/service/impl/VoucherOrderServiceImpl.java:132-136 | an existing matching order ends the call with no decrement and no save |
| VoucherOrders.CreateGuardsStock | src/main/java/com/hmdp/service/impl/VoucherOrderServiceImpl.java:139-150 | the decrement happens only on positive stock, so stock never goes negative; a failed decrement saves nothing; success takes exactly one unit and adds exactly the order; every other outcome changes nothing |
| VoucherOrders.HandleLockBusy | src/main/java/com/hmdp/service/impl/VoucherOrderServiceImpl.java:82-89 | when the per-user lock is held, no order is created and nothing changes |
| VoucherOrders.HandleReleasesLock | src/main/java/com/hmdp/service/impl/VoucherOrderServiceImpl.java:90-94 | otherwise createVoucherOrder runs; its effect is all that remains, and the lock is released on every exit, the exceptional one included |
| VoucherOrders.HandleFrame | src/main/java/com/hmdp/service/impl/VoucherOrderServiceImpl.java:78-95 | handling leaves the queue, the id supply and the lock set as they were, keeps stock non-negative, and adds the order exactly when it was saved |
| VoucherOrders.WorkerStepTakesHead | src/main/java/com/hmdp/service/impl/VoucherOrderServiceImpl.java:67-70 | one iteration handles the head of the queue and leaves its tail; the loop goes on exactly when no exception escaped |
| VoucherOrders.WorkerStepFrame | src/main/java/com/hmdp/service/impl/VoucherOrderServiceImpl.java:64-76 | one iteration leaves locks and ids unchanged, changes nothing when there is no step to take, and otherwise adds exactly the saved intent |
| VoucherOrders.RunIsFifo | src/main/java/com/hmdp/service/impl/VoucherOrderServiceImpl.java:64-76 | the intents the loop handles are a prefix of the queue, in queue order, and the queue keeps the rest |
| VoucherOrders.RunSavesInOrder | src/main/java/com/hmdp/service/impl/VoucherOrderServiceImpl.java:64-95 | the order table grows by exactly the saved intents, in handling order, and locks and ids end as they began |
| VoucherOrders.RunKeepsValid | src/main/java/com/hmdp/service/impl/VoucherOrderServiceImpl.java:64-151 | the handler loop keeps the pipeline invariant, in particular non-negative stock |
| VoucherOrders.HolderlessWorkerStops | src/main/java/com/hmdp/service/impl/VoucherOrderServiceImpl.java:128-130 | as written, on the handler thread UserHolder is empty, so the first intent whose lock is free is consumed, throws, has its lock released, and ends the loop |
| VoucherOrders.HolderlessWorkerPersistsNothing | src/main/java/com/hmdp/service/impl/VoucherOrderServiceImpl.java:127-136 | as written, the handler never saves an order or changes stock, however long it runs |
| VoucherOrders.ObjectFilterSavesTwice | src/main/java/com/hmdp/service/impl/VoucherOrderServiceImpl.java:132-142 | with line 130 corrected to find user 5, but lines 132 and 141 as written and the order object bound to voucher_id 0, two distinct intents (ids 1 and 2) of user 5 for voucher 7 are both saved, voucher 0 pays for both, and one user ends with two orders for one voucher |
| VoucherOrders.IntendedRedeliveryIsDuplicate | src/main/java/com/hmdp/service/impl/VoucherOrderServiceImpl.java:128-136 | as intended, handling an intent that was just saved once more is discarded as a duplicate and changes nothing |
| VoucherOrders.IntendedHandleAccounts | src/main/java/com/hmdp/service/impl/VoucherOrderServiceImpl.java:78-151 | as intended, handling keeps at most one order per user and voucher, and each voucher's stock plus its order count stays constant |
| VoucherOrders.IntendedRunAccounts | src/main/java/com/hmdp/service/impl/VoucherOrderServiceImpl.java:64-151 | as intended, the whole handler loop keeps both of these properties |
| VoucherOrders.IntendedSavesHead | src/main/java/com/hmdp/service/impl/VoucherOrderServiceImpl.java:67-150 | as intended, a head intent whose lock is free, with no matching order and positive stock, is saved: the step answers Done(Saved), takes exactly one unit of its voucher, appends the order, and leaves the queue's tail |
| VoucherOrders.IntendedRunKeepsRunning | src/main/java/com/hmdp/service/impl/VoucherOrderServiceImpl.java:64-76 | as intended, a running handler loop is still running after any number of iterations: no exception escapes handleVoucherOrder |
| VoucherOrders.OneUnitTwoBuyers | src/main/java/com/hmdp/service/impl/VoucherOrderServiceImpl.java:139-150 | with one unit and two queued buyers, the first is saved, the second finds no stock, and exactly one order row exists |
| VoucherOrderServiceImpl.VoucherOrderService.constructor | src/main/java/com/hmdp/service/impl/VoucherOrderServiceImpl.java:56-62 | the service starts with an empty queue, no locks, no orders, the given stock, and the handler submitted and running; with no negative stock count that state is valid |
| VoucherOrderServiceImpl.VoucherOrderService.TryLock | src/main/java/com/hmdp/service/impl/VoucherOrderServiceImpl.java:82-84 | lock.tryLock() on lock:order:userId gives Store.TryLock's answer and lock set |
| VoucherOrderServiceImpl.VoucherOrderService.UnLock | src/main/java/com/hmdp/service/impl/VoucherOrderServiceImpl.java:93 | lock.unlock() removes the order lock and nothing else |
| VoucherOrderServiceImpl.VoucherOrderService.NextId | src/main/java/com/hmdp/service/impl/VoucherOrderServiceImpl.java:116 | the id supply hands out an id larger than every earlier one |
| VoucherOrderServiceImpl.VoucherOrderService.DecrementStock | src/main/java/com/hmdp/service/impl/VoucherOrderServiceImpl.java:139-142 | the conditional update succeeds exactly when the voucher's stock is positive, and then takes exactly one unit |
| VoucherOrderServiceImpl.VoucherOrderService.SeckillVoucher | src/main/java/com/hmdp/service/impl/VoucherOrderServiceImpl.java:100-125 | the answer and new state are those of VoucherOrders.Seckill, and the pipeline invariant is kept |
| VoucherOrderServiceImpl.VoucherOrderService.CreateVoucherOrder | src/main/java/com/hmdp/service/impl/VoucherOrderServiceImpl.java:127-151 | the answer and new state are those of VoucherOrders.Create |
| VoucherOrderServiceImpl.VoucherOrderService.HandleVoucherOrder | src/main/java/com/hmdp/service/impl/VoucherOrderServiceImpl.java:78-95 | the answer and new state are those of VoucherOrders.Handle |
| VoucherOrderServiceImpl.VoucherOrderService.WorkerStep | src/main/java/com/hmdp/service/impl/VoucherOrderServiceImpl.java:67-73 | one loop iteration gives the answer and new state of VoucherOrders.WorkerStep |
| VoucherOrderServiceImpl.VoucherOrderService.Run | src/main/java/com/hmdp/service/impl/VoucherOrderServiceImpl.java:64-76 | the while loop gives the trace and new state of VoucherOrders.Run over the same number of iterations, and keeps the pipeline invariant |

## Left out

- Concurrency. The two executors and the servlet threads are not modelled as interleavings. Each
  operation is one sequential step over the shared state. Submitted rebuilds and queued intents
  are explicit queues, run one step at a time by `RunRebuild` and `WorkerStep`.
- Failures of the store and the database are modelled only where the rebuild task meets them:
  `saveShopRedis` takes a `SaveFault` saying whether `getById` or `set` throws. Every other get,
  set, delete, setIfAbsent and getById call answers, and so does the admission script. An
  exception escaping the lookups, `update` or the order pipeline from those calls is not covered.
- `Thread.sleep`, the blocking `take` and `InterruptedException` are left out. `take` on an empty
  queue is a step that does not happen.
- Store TTLs are not modelled: `CACHE_NULL_TTL`, `CACHE_SHOP_TTL` and the 10-minute lock TTL. Keys
  never expire by themselves; only the logical expire time is compared with `now`.
- Keys are a datatype, one constructor per prefix, instead of strings. `RedisConstants` is not part
  of this model, so the prefixes' text is not either.
- Hutool JSON serialisation is abstract. A cache value is the "" marker, a serialized `Shop` or a
  serialized `RedisData`. Reading one format as the other gives all-null fields, as Hutool does for
  absent properties. Other strings a user could put in the store are not modelled.
- `Shop` has its id and one nullable column, which stands for all the others. `updateById` writes
  its non-null fields.
- The store never answers `setIfAbsent` with null, so `tryLock`'s null reply is covered only by
  `Store.NullReplyIsFailure`.
- `seckill.lua` is not part of this model. Its reply is an input, and its own stock and buyer
  bookkeeping in the store is not modelled.
- The shop lock key: `Store.LockShop` stands for both the literal `"lock:shop:" + id` of `queryWithMutex` and
  `LOCK_SHOP_KEY + id` of `queryWithLogicalExpire`. `RedisConstants` is not part of this model, so
  it is an assumption that `LOCK_SHOP_KEY` is `"lock:shop:"`. `ShopCache.MutexDropsRebuildLock`
  depends on it.
- Order-id uniqueness is not modelled. The order table is a sequence, and `save` does not refuse a
  row whose id is already present. Nor does `@Transactional` roll back the decrement when an insert
  fails. The admitted ids are distinct anyway (`VoucherOrders.SeckillAdmitted`).
- `RedisIdWorker` is not part of this model. It becomes a counter that hands out `lastId + 1`.
- Redisson's `RLock` becomes a set of lock keys. Its reentrancy, watchdog and lease times are not
  modelled, because the single handler thread never holds two locks.
- `@Transactional`, `AopContext.currentProxy()` and the race on the `proxy` field are left out.
  The handler calls `createVoucherOrder` directly.
- Logging (`log.error`) and the debug `System.out.println` in `update` are left out.
- The shop service and the order service touch disjoint key prefixes, so each has its own copy of
  the store.
- `LoginInterceptor` is not part of this model. It is why a request thread always has a user in
  `UserHolder`, so `seckillVoucher` takes the user id as a parameter.
- ShopCache.Mutex: bounded by `depth` recursive frames. The Java recursion has no bound. A held lock
  that never frees therefore ends in the model's StackOverflow outcome, where the JVM would overflow
  at a depth the model does not fix.
- VoucherOrders.Fulfilment: the `AsWritten` mode takes what MyBatis-Plus binds for the order object
  as an arbitrary function `bind`. The conversion itself is not modelled.

## Findings

| source | as written | input that shows it | evidently intended | confidence | as-written member | corrected member |
|---|---|---|---|---|---|---|
| src/main/java/com/hmdp/service/impl/ShopServiceImpl.java:147-154, 172-175 | a frame whose `tryLock` failed still runs `unLock` in `finally`, deleting a lock that another caller or a pending rebuild holds | cache miss for shop 1 while `lock:shop:1` is held by a pending rebuild of shop 1 | only the frame that acquired the lock deletes it | not executed | ShopCache.MutexDropsRebuildLock | ShopCache.MutexOwnedKeepsForeignLock |
| src/main/java/com/hmdp/service/impl/VoucherOrderServiceImpl.java:130 | `createVoucherOrder` reads the user from `UserHolder`, which is empty on the handler thread; the NullPointerException escapes `run` and the handler loop ends with no order saved | any admitted intent whose lock is free reaches the handler | the user id is taken from the order (`voucherOrder.getUserId()`) | not executed | VoucherOrders.HolderlessWorkerPersistsNothing | VoucherOrders.IntendedSavesHead, VoucherOrders.IntendedRunKeepsRunning |
| src/main/java/com/hmdp/service/impl/VoucherOrderServiceImpl.java:132-142 | the duplicate query and the stock decrement compare `voucher_id` with the order object instead of its voucher id | with line 130 corrected so that user 5 is found: intents (1, user 5, voucher 7) and (2, user 5, voucher 7) handled in turn, the object bound to voucher_id 0, two units under voucher 0 | both conditions use `voucherOrder.getVoucherId()` | not executed | VoucherOrders.ObjectFilterSavesTwice | VoucherOrders.IntendedRedeliveryIsDuplicate |
