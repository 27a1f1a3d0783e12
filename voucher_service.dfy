/** VoucherOrderServiceImpl as a class: the intake queue orderTask, the per-user order locks,
    the stock table, the order table, the id supply and the liveness of the handler loop are
    fields, and every method follows the Java statement by statement and is proved to give
    the result and the new state of the matching function of VoucherOrders. */
module VoucherOrderServiceImpl {
  import opened Store
  import opened VoucherOrders

  class VoucherOrderService {
    var orderTask: seq<VoucherOrder>   // the ArrayBlockingQueue, head first
    var locks: set<Key>                // "lock:order:" + userId locks currently held
    var stock: map<int, int>           // tb_seckill_voucher.stock by voucher_id
    var orders: seq<VoucherOrder>      // tb_voucher_order, in insertion order
    var lastId: int                    // the last id handed out by redisIdWorker
    var running: bool                  // VoucherOrderHandler.run has not ended

    ghost function State(): OrderState
      reads this
    {
      OrderState(orderTask, locks, stock, orders, lastId, running)
    }

    /** The service as @PostConstruct leaves it: an empty queue, no locks, no orders, and the
        handler submitted to the single-thread executor. A stock table with no negative
        count starts the pipeline in a valid state. */
    constructor (stock: map<int, int>)
      ensures State() == OrderState([], {}, stock, [], 0, true)
      ensures StockNonNegative(stock) ==> VoucherOrders.Valid(State())
    {
      this.orderTask := [];
      this.locks := {};
      this.stock := stock;
      this.orders := [];
      this.lastId := 0;
      this.running := true;
    }

    // -------------------------------------------------------------------------------------
    // Collaborators

    /** redisIdWorker.nextId("order"): a fresh id, larger than every earlier one. */
    method NextId() returns (id: int)
      modifies this`lastId
      ensures id == old(lastId) + 1 && lastId == id
    {
      lastId := lastId + 1;
      id := lastId;
    }

    /** lock.tryLock() on an order lock. */
    method TryLock(key: Key) returns (ok: bool)
      modifies this`locks
      ensures (ok, locks) == Store.TryLock(old(locks), key)
    {
      ok := key !in locks;
      locks := locks + {key};
    }

    /** lock.unlock(). */
    method UnLock(key: Key)
      modifies this`locks
      ensures locks == Store.UnLock(old(locks), key)
    {
      locks := locks - {key};
    }

    /** UPDATE tb_seckill_voucher SET stock = stock - 1 WHERE voucher_id = v AND stock > 0,
        answering whether a row was updated. */
    method DecrementStock(v: int) returns (success: bool)
      modifies this`stock
      ensures success <==> v in old(stock) && old(stock)[v] > 0
      ensures stock == if success then old(stock)[v := old(stock)[v] - 1] else old(stock)
    {
      success := v in stock && stock[v] > 0;
      if success {
        stock := stock[v := stock[v] - 1];
      }
    }

    // -------------------------------------------------------------------------------------
    // The pipeline

    /** seckillVoucher(voucherId) for `userId`, given the boxed reply of the admission script. */
    method SeckillVoucher(voucherId: int, userId: int, scriptResult: Option<int>)
      returns (r: Outcome<Result<int>>)
      modifies this
      ensures (r, State()) == Seckill(old(State()), voucherId, userId, scriptResult)
      ensures VoucherOrders.Valid(old(State())) ==> VoucherOrders.Valid(State())
    {
      if VoucherOrders.Valid(State()) {
        SeckillKeepsValid(State(), voucherId, userId, scriptResult);
      }
      if scriptResult.None? {
        return Threw(NullPointer);   // result.intValue() on null
      }
      var res := IntValue(scriptResult.value);
      if res != 0 {
        return Returned(Fail(if res == 1 then SOLD_OUT else DUPLICATE_ORDER));
      }
      var orderId := NextId();
      var order := VoucherOrder(orderId, userId, voucherId);
      if |orderTask| >= QUEUE_CAPACITY {
        return Threw(IllegalState);   // add on a full queue
      }
      orderTask := orderTask + [order];
      r := Returned(Ok(orderId));
    }

    /** createVoucherOrder(order), with the user id and the voucher_id value it filters on. */
    method CreateVoucherOrder(order: VoucherOrder, user: Option<int>, voucherFilter: int)
      returns (r: Outcome<Created>)
      modifies this`stock, this`orders
      ensures (r, State()) == Create(old(State()), order, user, voucherFilter)
    {
      if user.None? {
        return Threw(NullPointer);
      }
      var count := Count(orders, user.value, voucherFilter);
      if count > 0 {
        return Returned(Duplicate);
      }
      var success := DecrementStock(voucherFilter);
      if !success {
        return Returned(SoldOut);
      }
      orders := orders + [order];   // save
      r := Returned(Saved);
    }

    method HandleVoucherOrder(order: VoucherOrder, mode: Fulfilment) returns (h: Handled)
      modifies this`locks, this`stock, this`orders
      ensures (h, State()) == Handle(old(State()), mode, order)
    {
      var key := LockOrder(order.userId);
      var isLock := TryLock(key);
      if !isLock {
        assert locks == old(locks);
        return LockBusy;
      }
      // try
      var c := CreateVoucherOrder(order, UserOf(mode, order), VoucherFilter(mode, order));
      h := match c case Returned(x) => Done(x) case Threw(e) => Failed(e);
      // finally
      UnLock(key);
    }

    /** One iteration of the handler loop: take, then handleVoucherOrder; an exception that
        escapes ends the loop. */
    method WorkerStep(mode: Fulfilment) returns (p: Option<Processed>)
      modifies this
      ensures (p, State()) == VoucherOrders.WorkerStep(old(State()), mode)
    {
      if !running || orderTask == [] {
        return None;
      }
      var order := orderTask[0];   // take
      orderTask := orderTask[1..];
      var h := HandleVoucherOrder(order, mode);
      if h.Failed? {
        running := false;
      }
      p := Some(Processed(order, h));
    }

    /** VoucherOrderHandler.run for up to `steps` iterations, returning what each handled. */
    method Run(mode: Fulfilment, steps: nat) returns (trace: seq<Processed>)
      modifies this
      ensures (trace, State()) == VoucherOrders.Run(old(State()), mode, steps)
      ensures VoucherOrders.Valid(old(State())) ==> VoucherOrders.Valid(State())
    {
      ghost var s0 := State();
      if VoucherOrders.Valid(s0) {
        RunKeepsValid(s0, mode, steps);
      }
      trace := [];
      var i := 0;
      assert trace + VoucherOrders.Run(s0, mode, steps).0 == VoucherOrders.Run(s0, mode, steps).0;
      while i < steps
        invariant 0 <= i <= steps
        invariant VoucherOrders.Run(s0, mode, steps) ==
                    (trace + VoucherOrders.Run(State(), mode, steps - i).0,
                     VoucherOrders.Run(State(), mode, steps - i).1)
        decreases steps - i
      {
        RunStep(s0, mode, steps, trace, State(), steps - i);
        var p := WorkerStep(mode);
        if p.None? {
          return;
        }
        trace := trace + [p.value];
        i := i + 1;
      }
      assert trace + [] == trace;
    }
  }
}
