/** The flash-sale pipeline of VoucherOrderServiceImpl as functions on one state value: the
    in-process intake queue, the per-user locks, the voucher stock table, the order table,
    the id supply and whether the handler loop is still alive. The admission script is an
    input: its reply is a parameter of Seckill. */
module VoucherOrders {
  import opened Store

  /** A row of tb_voucher_order and the order intent that precedes it. */
  datatype VoucherOrder = VoucherOrder(id: int, userId: int, voucherId: int)

  /** new ArrayBlockingQueue<>(1024 * 1024). */
  const QUEUE_CAPACITY: nat := 1024 * 1024

  const SOLD_OUT := "库存不足！"
  const DUPLICATE_ORDER := "不能重复下单！"

  datatype OrderState = OrderState(
    queue: seq<VoucherOrder>,    // orderTask, head first
    locks: set<Key>,             // "lock:order:" + userId locks currently held
    stock: map<int, int>,        // tb_seckill_voucher.stock by voucher_id
    orders: seq<VoucherOrder>,   // tb_voucher_order, in insertion order
    lastId: int,                 // the last id handed out by the id supply
    running: bool)               // VoucherOrderHandler.run has not ended

  /** What createVoucherOrder takes from outside the order it is given. As written it reads
      the user id from UserHolder on the thread it runs on (`holder`, null on the handler
      thread, which no login interceptor serves) and compares voucher_id with the order
      object itself (`bind`: the value the database ends up comparing with, which the source
      does not determine). As intended both come from the order. */
  datatype Fulfilment =
    | AsWritten(holder: Option<int>, bind: VoucherOrder -> int)
    | Intended

  function UserOf(mode: Fulfilment, order: VoucherOrder): Option<int>
  {
    match mode
    case AsWritten(holder, _) => holder
    case Intended => Some(order.userId)
  }

  function VoucherFilter(mode: Fulfilment, order: VoucherOrder): int
  {
    match mode
    case AsWritten(_, bind) => bind(order)
    case Intended => order.voucherId
  }

  /** Stock is never negative, the queue never exceeds its capacity, every id in the system
      was handed out by the id supply, and the queue holds intents in increasing id order. */
  ghost predicate Valid(s: OrderState)
  {
    && |s.queue| <= QUEUE_CAPACITY
    && StockNonNegative(s.stock)
    && (forall i :: 0 <= i < |s.queue| ==> s.queue[i].id <= s.lastId)
    && (forall i :: 0 <= i < |s.orders| ==> s.orders[i].id <= s.lastId)
    && (forall i, j :: 0 <= i < j < |s.queue| ==> s.queue[i].id < s.queue[j].id)
  }

  ghost predicate StockNonNegative(stock: map<int, int>)
  {
    forall v :: v in stock ==> stock[v] >= 0
  }

  /** No user has two orders for the same voucher. */
  ghost predicate OnePerUserAndVoucher(orders: seq<VoucherOrder>)
  {
    forall i, j :: 0 <= i < j < |orders| ==>
      !(orders[i].userId == orders[j].userId && orders[i].voucherId == orders[j].voucherId)
  }

  // ---------------------------------------------------------------------------------------
  // Admission

  /** Long.intValue(): the low 32 bits, read as a two's-complement int. */
  function IntValue(x: int): int
  {
    var low := x % 0x1_0000_0000;
    if low < 0x8000_0000 then low else low - 0x1_0000_0000
  }

  /** seckillVoucher(voucherId) for the logged-in `userId`, given the (boxed) reply of the
      admission script. A null reply throws on intValue; a nonzero code is refused with its
      message; zero allocates an id and appends the intent, and add on a full queue throws
      after the id is taken. */
  function Seckill(s: OrderState, voucherId: int, userId: int, scriptResult: Option<int>)
    : (Outcome<Result<int>>, OrderState)
  {
    if scriptResult.None? then (Threw(NullPointer), s)
    else
      var r := IntValue(scriptResult.value);
      if r != 0 then (Returned(Fail(if r == 1 then SOLD_OUT else DUPLICATE_ORDER)), s)
      else
        var orderId := s.lastId + 1;
        var s1 := s.(lastId := orderId);
        var order := VoucherOrder(orderId, userId, voucherId);
        if |s1.queue| >= QUEUE_CAPACITY then (Threw(IllegalState), s1)
        else (Returned(Ok(orderId)), s1.(queue := s1.queue + [order]))
  }

  // ---------------------------------------------------------------------------------------
  // Fulfilment

  /** SELECT COUNT(*) FROM tb_voucher_order WHERE user_id = userId AND voucher_id = voucherId. */
  function Count(orders: seq<VoucherOrder>, userId: int, voucherId: int): nat
  {
    if orders == [] then 0
    else
      var last := orders[|orders| - 1];
      Count(orders[..|orders| - 1], userId, voucherId)
        + (if last.userId == userId && last.voucherId == voucherId then 1 else 0)
  }

  /** How many orders are for voucher `voucherId`. */
  function VoucherCount(orders: seq<VoucherOrder>, voucherId: int): nat
  {
    if orders == [] then 0
    else
      VoucherCount(orders[..|orders| - 1], voucherId)
        + (if orders[|orders| - 1].voucherId == voucherId then 1 else 0)
  }

  datatype Created = Duplicate | SoldOut | Saved

  /** createVoucherOrder(order) with the user id `user` and the voucher_id predicate value
      `voucherFilter`: a null user throws, an existing matching order ends the call, then
      UPDATE ... SET stock = stock - 1 WHERE voucher_id = voucherFilter AND stock > 0, and
      only when that updated a row, save(order). */
  function Create(s: OrderState, order: VoucherOrder, user: Option<int>, voucherFilter: int)
    : (Outcome<Created>, OrderState)
  {
    if user.None? then (Threw(NullPointer), s)
    else if Count(s.orders, user.value, voucherFilter) > 0 then (Returned(Duplicate), s)
    else if voucherFilter !in s.stock || s.stock[voucherFilter] <= 0 then (Returned(SoldOut), s)
    else
      (Returned(Saved), s.(stock := s.stock[voucherFilter := s.stock[voucherFilter] - 1],
                           orders := s.orders + [order]))
  }

  datatype Handled = LockBusy | Done(created: Created) | Failed(exception: Exception)

  /** handleVoucherOrder(order): tryLock on "lock:order:" + userId; when it fails, nothing
      happens; otherwise createVoucherOrder runs and finally unlock releases the lock. */
  function Handle(s: OrderState, mode: Fulfilment, order: VoucherOrder): (Handled, OrderState)
  {
    var key := LockOrder(order.userId);
    var (isLock, locks) := TryLock(s.locks, key);
    if !isLock then (LockBusy, s)
    else
      var (c, s1) := Create(s.(locks := locks), order, UserOf(mode, order), VoucherFilter(mode, order));
      var h := match c case Returned(x) => Done(x) case Threw(e) => Failed(e);
      (h, s1.(locks := UnLock(s1.locks, key)))
  }

  datatype Processed = Processed(order: VoucherOrder, handled: Handled)

  /** One iteration of VoucherOrderHandler.run: take the head of the queue and handle it. An
      exception other than InterruptedException leaves the loop, and the handler ends. With
      the loop ended or the queue empty there is no step to take (take would block). */
  function WorkerStep(s: OrderState, mode: Fulfilment): (Option<Processed>, OrderState)
  {
    if !s.running || s.queue == [] then (None, s)
    else
      var order := s.queue[0];
      var (h, s1) := Handle(s.(queue := s.queue[1..]), mode, order);
      (Some(Processed(order, h)), if h.Failed? then s1.(running := false) else s1)
  }

  /** Up to `steps` iterations of the handler loop, stopping when there is no step to take. */
  function Run(s: OrderState, mode: Fulfilment, steps: nat): (seq<Processed>, OrderState)
    decreases steps
  {
    if steps == 0 then ([], s)
    else
      var (p, s1) := WorkerStep(s, mode);
      if p.None? then ([], s1)
      else
        var (rest, s2) := Run(s1, mode, steps - 1);
        ([p.value] + rest, s2)
  }

  /** The intents of a trace, in the order they were handled. */
  function IntentsOf(trace: seq<Processed>): (r: seq<VoucherOrder>)
    ensures |r| == |trace|
    ensures forall i :: 0 <= i < |trace| ==> r[i] == trace[i].order
  {
    if trace == [] then [] else [trace[0].order] + IntentsOf(trace[1..])
  }

  /** The intents of a trace that were saved, in the order they were handled. */
  function SavedOf(trace: seq<Processed>): seq<VoucherOrder>
  {
    if trace == [] then []
    else (if trace[0].handled == Done(Saved) then [trace[0].order] else []) + SavedOf(trace[1..])
  }

  // ---------------------------------------------------------------------------------------
  // Admission

  /** A reply that fits in an int is read unchanged. */
  lemma IntValueInRange(x: int)
    requires -0x8000_0000 <= x < 0x8000_0000
    ensures IntValue(x) == x
  {
  }

  /** A nonzero script code is refused and nothing is enqueued or allocated: code 1 means
      "sold out", every other nonzero code "duplicate order". */
  lemma SeckillRefused(s: OrderState, voucherId: int, userId: int, scriptResult: Option<int>)
    requires scriptResult.Some? && IntValue(scriptResult.value) != 0
    ensures Seckill(s, voucherId, userId, scriptResult) ==
              (Returned(Fail(if IntValue(scriptResult.value) == 1 then SOLD_OUT else DUPLICATE_ORDER)), s)
  {
  }

  /** Code 0 appends exactly one intent at the tail of the queue, carrying a fresh id, the
      user and the voucher, and answers Ok of that same id. */
  lemma SeckillAdmitted(s: OrderState, voucherId: int, userId: int, scriptResult: Option<int>)
    requires Valid(s) && scriptResult.Some? && IntValue(scriptResult.value) == 0 && |s.queue| < QUEUE_CAPACITY
    ensures var (r, s1) := Seckill(s, voucherId, userId, scriptResult);
            var id := s.lastId + 1;
            && r == Returned(Ok(id))
            && s1 == s.(lastId := id, queue := s.queue + [VoucherOrder(id, userId, voucherId)])
            && (forall i :: 0 <= i < |s.queue| ==> s.queue[i].id != id)
            && (forall i :: 0 <= i < |s.orders| ==> s.orders[i].id != id)
            && Valid(s1)
  {
  }

  /** On a full queue add throws, after the id supply has already handed out an id. */
  lemma SeckillQueueFull(s: OrderState, voucherId: int, userId: int, scriptResult: Option<int>)
    requires scriptResult.Some? && IntValue(scriptResult.value) == 0 && |s.queue| >= QUEUE_CAPACITY
    ensures Seckill(s, voucherId, userId, scriptResult) ==
              (Threw(IllegalState), s.(lastId := s.lastId + 1))
  {
  }

  /** A null reply from the script throws on intValue before anything is allocated. */
  lemma SeckillNullReply(s: OrderState, voucherId: int, userId: int)
    ensures Seckill(s, voucherId, userId, None) == (Threw(NullPointer), s)
  {
  }

  /** Admission keeps the pipeline invariant on every path. */
  lemma SeckillKeepsValid(s: OrderState, voucherId: int, userId: int, scriptResult: Option<int>)
    requires Valid(s)
    ensures Valid(Seckill(s, voucherId, userId, scriptResult).1)
  {
  }

  // ---------------------------------------------------------------------------------------
  // Counting orders

  lemma CountAppend(orders: seq<VoucherOrder>, o: VoucherOrder, userId: int, voucherId: int)
    ensures Count(orders + [o], userId, voucherId) ==
              Count(orders, userId, voucherId) + (if o.userId == userId && o.voucherId == voucherId then 1 else 0)
    ensures VoucherCount(orders + [o], voucherId) ==
              VoucherCount(orders, voucherId) + (if o.voucherId == voucherId then 1 else 0)
  {
    assert (orders + [o])[..|orders|] == orders;
  }

  /** The duplicate query counts something exactly when some order matches both columns. */
  lemma {:induction false} CountPositive(orders: seq<VoucherOrder>, userId: int, voucherId: int)
    ensures Count(orders, userId, voucherId) > 0 <==>
              exists i :: 0 <= i < |orders| && orders[i].userId == userId && orders[i].voucherId == voucherId
  {
    if orders != [] {
      var init := orders[..|orders| - 1];
      CountPositive(init, userId, voucherId);
      assert forall i :: 0 <= i < |init| ==> init[i] == orders[i];
      if Count(orders, userId, voucherId) > 0 && Count(init, userId, voucherId) == 0 {
        assert orders[|orders| - 1].userId == userId && orders[|orders| - 1].voucherId == voucherId;
      }
    }
  }

  // ---------------------------------------------------------------------------------------
  // createVoucherOrder

  /** Without a user in UserHolder the call throws before touching the tables. */
  lemma CreateWithoutHolder(s: OrderState, order: VoucherOrder, voucherFilter: int)
    ensures Create(s, order, None, voucherFilter) == (Threw(NullPointer), s)
  {
  }

  /** An existing matching order means no decrement and no save. */
  lemma CreateDuplicate(s: OrderState, order: VoucherOrder, userId: int, voucherFilter: int)
    requires exists i :: 0 <= i < |s.orders| && s.orders[i].userId == userId && s.orders[i].voucherId == voucherFilter
    ensures Create(s, order, Some(userId), voucherFilter) == (Returned(Duplicate), s)
  {
    CountPositive(s.orders, userId, voucherFilter);
  }

  /** The decrement happens only where stock is positive, so stock never goes negative; a
      failed decrement means no save; success takes exactly one unit and adds exactly one
      row, the order itself; anything but success changes nothing. */
  lemma CreateGuardsStock(s: OrderState, order: VoucherOrder, user: Option<int>, voucherFilter: int)
    ensures var (r, s1) := Create(s, order, user, voucherFilter);
            && (StockNonNegative(s.stock) ==> StockNonNegative(s1.stock))
            && (r == Returned(Saved) <==> s1.orders != s.orders)
            && (r == Returned(Saved) <==> s1.stock != s.stock)
            && (r == Returned(Saved) ==>
                  && voucherFilter in s.stock && s.stock[voucherFilter] > 0
                  && s1 == s.(stock := s.stock[voucherFilter := s.stock[voucherFilter] - 1],
                              orders := s.orders + [order]))
            && (r != Returned(Saved) ==> s1 == s)
            && (r == Returned(SoldOut) <==>
                  user.Some? && Count(s.orders, user.value, voucherFilter) == 0 &&
                  (voucherFilter !in s.stock || s.stock[voucherFilter] <= 0))
  {
    var (r, s1) := Create(s, order, user, voucherFilter);
    if r == Returned(Saved) {
      assert s1.stock[voucherFilter] != s.stock[voucherFilter];
      assert |s1.orders| == |s.orders| + 1;
    }
  }

  // ---------------------------------------------------------------------------------------
  // handleVoucherOrder and the handler loop

  /** A held per-user lock means no order is created and nothing changes. */
  lemma HandleLockBusy(s: OrderState, mode: Fulfilment, order: VoucherOrder)
    requires LockOrder(order.userId) in s.locks
    ensures Handle(s, mode, order) == (LockBusy, s)
  {
  }

  /** Otherwise createVoucherOrder runs, and its effect is all that remains: the lock is
      released on every exit, the exceptional one included. */
  lemma HandleReleasesLock(s: OrderState, mode: Fulfilment, order: VoucherOrder)
    requires LockOrder(order.userId) !in s.locks
    ensures var (h, s1) := Handle(s, mode, order);
            var (c, s2) := Create(s, order, UserOf(mode, order), VoucherFilter(mode, order));
            && s1 == s2
            && h == (match c case Returned(x) => Done(x) case Threw(e) => Failed(e))
  {
    var key := LockOrder(order.userId);
    assert (s.locks + {key}) - {key} == s.locks;
  }

  /** A step handles the head of the queue and leaves its tail; an exception ends the loop. */
  lemma WorkerStepTakesHead(s: OrderState, mode: Fulfilment)
    requires s.running && s.queue != []
    ensures var (p, s1) := WorkerStep(s, mode);
            && p.Some? && p.value.order == s.queue[0]
            && s1.queue == s.queue[1..]
            && (s1.running <==> !p.value.handled.Failed?)
  {
  }

  /** Handling changes neither the queue, nor the id supply, nor the lock set. */
  lemma HandleFrame(s: OrderState, mode: Fulfilment, order: VoucherOrder)
    ensures var s1 := Handle(s, mode, order).1;
            && s1.queue == s.queue && s1.lastId == s.lastId && s1.running == s.running
            && s1.locks == s.locks
            && (StockNonNegative(s.stock) ==> StockNonNegative(s1.stock))
            && s1.orders == s.orders + (if Handle(s, mode, order).0 == Done(Saved) then [order] else [])
  {
    if LockOrder(order.userId) !in s.locks {
      HandleReleasesLock(s, mode, order);
      CreateGuardsStock(s, order, UserOf(mode, order), VoucherFilter(mode, order));
    }
  }

  /** The handler loop is FIFO: the intents it handles are a prefix of the queue, in queue
      order, and the queue keeps the rest. */
  lemma {:induction false} RunIsFifo(s: OrderState, mode: Fulfilment, steps: nat)
    ensures var (trace, s1) := Run(s, mode, steps);
            && |trace| <= |s.queue|
            && IntentsOf(trace) == s.queue[..|trace|]
            && s1.queue == s.queue[|trace|..]
    decreases steps
  {
    if steps > 0 {
      var (p, s1) := WorkerStep(s, mode);
      if p.Some? {
        HandleFrame(s.(queue := s.queue[1..]), mode, s.queue[0]);
        assert s1.queue == s.queue[1..];
        RunIsFifo(s1, mode, steps - 1);
        var (rest, s2) := Run(s1, mode, steps - 1);
        var trace := [p.value] + rest;
        assert trace[1..] == rest;
        assert IntentsOf(trace) == [s.queue[0]] + IntentsOf(rest);
        assert s.queue[..|trace|] == [s.queue[0]] + s1.queue[..|rest|];
        assert s.queue[|trace|..] == s1.queue[|rest|..];
      }
    }
  }

  /** The order table grows by exactly the saved intents, in the order they were handled,
      and the lock set and the id supply end as they began. */
  lemma {:induction false} RunSavesInOrder(s: OrderState, mode: Fulfilment, steps: nat)
    ensures var (trace, s1) := Run(s, mode, steps);
            && s1.orders == s.orders + SavedOf(trace)
            && s1.locks == s.locks && s1.lastId == s.lastId
    decreases steps
  {
    if steps > 0 {
      var (p, s1) := WorkerStep(s, mode);
      WorkerStepFrame(s, mode);
      if p.Some? {
        RunSavesInOrder(s1, mode, steps - 1);
        var (rest, s2) := Run(s1, mode, steps - 1);
        var trace := [p.value] + rest;
        assert Run(s, mode, steps) == (trace, s2);
        assert trace[1..] == rest;
        var head := if p.value.handled == Done(Saved) then [p.value.order] else [];
        assert SavedOf(trace) == head + SavedOf(rest);
        assert s2.orders == s.orders + head + SavedOf(rest);
      }
    }
  }

  /** A run that has produced `trace` and has `n` iterations left continues with one step:
      either it stops there, or it has produced that step as well and has `n - 1` left. */
  lemma RunStep(s0: OrderState, mode: Fulfilment, steps: nat, trace: seq<Processed>,
                s: OrderState, n: nat)
    requires n > 0
    requires Run(s0, mode, steps) == (trace + Run(s, mode, n).0, Run(s, mode, n).1)
    ensures var (p, s1) := WorkerStep(s, mode);
            if p.None? then Run(s0, mode, steps) == (trace, s1)
            else Run(s0, mode, steps) ==
                   ((trace + [p.value]) + Run(s1, mode, n - 1).0, Run(s1, mode, n - 1).1)
  {
    var (p, s1) := WorkerStep(s, mode);
    if p.None? {
      assert trace + [] == trace;
    } else {
      var rest := Run(s1, mode, n - 1).0;
      assert trace + ([p.value] + rest) == (trace + [p.value]) + rest;
    }
  }

  /** What one step does to the order table, the lock set and the id supply. */
  lemma WorkerStepFrame(s: OrderState, mode: Fulfilment)
    ensures var (p, s1) := WorkerStep(s, mode);
            && s1.locks == s.locks && s1.lastId == s.lastId
            && (p.None? ==> s1 == s)
            && (p.Some? ==>
                  s1.orders == s.orders +
                    (if p.value.handled == Done(Saved) then [p.value.order] else []))
  {
    if s.running && s.queue != [] {
      HandleFrame(s.(queue := s.queue[1..]), mode, s.queue[0]);
    }
  }

  /** The handler loop keeps the invariant: in particular stock never goes negative. */
  lemma {:induction false} RunKeepsValid(s: OrderState, mode: Fulfilment, steps: nat)
    requires Valid(s)
    ensures Valid(Run(s, mode, steps).1)
    decreases steps
  {
    if steps > 0 {
      var (p, s1) := WorkerStep(s, mode);
      if p.Some? {
        HandleFrame(s.(queue := s.queue[1..]), mode, s.queue[0]);
        assert Valid(s1);
        RunKeepsValid(s1, mode, steps - 1);
      }
    }
  }

  // ---------------------------------------------------------------------------------------
  // createVoucherOrder as written against createVoucherOrder as intended

  /** As written, on the handler thread UserHolder holds no user: the first intent whose lock
      is free is taken off the queue, createVoucherOrder throws, the lock is released and the
      handler loop ends. */
  lemma HolderlessWorkerStops(s: OrderState, bind: VoucherOrder -> int)
    requires s.running && s.queue != [] && LockOrder(s.queue[0].userId) !in s.locks
    ensures WorkerStep(s, AsWritten(None, bind)) ==
              (Some(Processed(s.queue[0], Failed(NullPointer))),
               s.(queue := s.queue[1..], running := false))
  {
    HandleReleasesLock(s.(queue := s.queue[1..]), AsWritten(None, bind), s.queue[0]);
  }

  /** Hence, as written, the handler never persists an order nor touches stock, however
      long it runs. */
  lemma {:induction false} HolderlessWorkerPersistsNothing(s: OrderState, bind: VoucherOrder -> int, steps: nat)
    ensures var (trace, s1) := Run(s, AsWritten(None, bind), steps);
            s1.orders == s.orders && s1.stock == s.stock && SavedOf(trace) == []
    decreases steps
  {
    var mode := AsWritten(None, bind);
    if steps > 0 {
      var (p, s1) := WorkerStep(s, mode);
      if p.Some? {
        var t := s.(queue := s.queue[1..]);
        if LockOrder(s.queue[0].userId) !in s.locks {
          HandleReleasesLock(t, mode, s.queue[0]);
        }
        HolderlessWorkerPersistsNothing(s1, bind, steps - 1);
      }
    }
  }

  /** One binding of the order object to a voucher_id value, used as an example below. */
  function BindsToZero(order: VoucherOrder): int
  {
    0
  }

  /** As written, voucher_id is compared with the order object. Whatever that binds to, if
      it is not the order's voucher, a second intent of the same user for the same voucher is
      not recognised as a duplicate. The example takes user 5 as the user that line 130
      would have to find (on the handler thread it finds none, see HolderlessWorkerStops),
      binds the object to voucher_id 0, and puts two units under voucher 0: two distinct
      intents of user 5 for voucher 7 are both saved, and voucher 0 pays for both. */
  lemma ObjectFilterSavesTwice()
    ensures var a := VoucherOrder(1, 5, 7);
            var b := VoucherOrder(2, 5, 7);
            var mode := AsWritten(Some(5), BindsToZero);
            var s := OrderState([], {}, map[0 := 2, 7 := 5], [], 2, true);
            var s1 := OrderState([], {}, map[0 := 1, 7 := 5], [a], 2, true);
            var s2 := OrderState([], {}, map[0 := 0, 7 := 5], [a, b], 2, true);
            && Handle(s, mode, a) == (Done(Saved), s1)
            && Handle(s1, mode, b) == (Done(Saved), s2)
            && !OnePerUserAndVoucher(s2.orders)
  {
    var a := VoucherOrder(1, 5, 7);
    var b := VoucherOrder(2, 5, 7);
    var mode := AsWritten(Some(5), BindsToZero);
    var s := OrderState([], {}, map[0 := 2, 7 := 5], [], 2, true);
    var s1 := OrderState([], {}, map[0 := 1, 7 := 5], [a], 2, true);
    var s2 := OrderState([], {}, map[0 := 0, 7 := 5], [a, b], 2, true);
    ObjectFilterStep(s, mode, a, s1);
    ObjectFilterStep(s1, mode, b, s2);
    assert s2.orders[0].userId == s2.orders[1].userId;
  }

  /** One step of the example above: user 5 has no order for voucher 0 and voucher 0 has
      stock, so the order is saved against voucher 0. */
  lemma ObjectFilterStep(s: OrderState, mode: Fulfilment, o: VoucherOrder, s1: OrderState)
    requires mode == AsWritten(Some(5), BindsToZero) && o.userId == 5 && o.voucherId == 7
    requires s.locks == {} && 0 in s.stock && s.stock[0] > 0
    requires forall i :: 0 <= i < |s.orders| ==> s.orders[i].voucherId == 7
    requires s1 == s.(stock := s.stock[0 := s.stock[0] - 1], orders := s.orders + [o])
    ensures Handle(s, mode, o) == (Done(Saved), s1)
  {
    assert VoucherFilter(mode, o) == 0 && UserOf(mode, o) == Some(5);
    CountPositive(s.orders, 5, 0);
    HandleReleasesLock(s, mode, o);
  }

  /** As intended, redelivering an intent that was just saved is discarded as a duplicate:
      exactly one order persists. */
  lemma IntendedRedeliveryIsDuplicate(s: OrderState, order: VoucherOrder)
    requires LockOrder(order.userId) !in s.locks
    ensures var (h1, s1) := Handle(s, Intended, order);
            h1 == Done(Saved) ==> Handle(s1, Intended, order) == (Done(Duplicate), s1)
  {
    var (h1, s1) := Handle(s, Intended, order);
    HandleReleasesLock(s, Intended, order);
    if h1 == Done(Saved) {
      CreateGuardsStock(s, order, Some(order.userId), order.voucherId);
      assert s1.orders[|s1.orders| - 1] == order;
      CountPositive(s1.orders, order.userId, order.voucherId);
      HandleReleasesLock(s1, Intended, order);
    }
  }

  /** As intended, handling keeps at most one order per user and voucher, and every unit of
      stock that leaves a voucher becomes exactly one order for it. */
  lemma IntendedHandleAccounts(s: OrderState, order: VoucherOrder)
    requires OnePerUserAndVoucher(s.orders)
    ensures var s1 := Handle(s, Intended, order).1;
            && OnePerUserAndVoucher(s1.orders)
            && s1.stock.Keys == s.stock.Keys
            && (forall v :: v in s.stock ==>
                  s1.stock[v] + VoucherCount(s1.orders, v) == s.stock[v] + VoucherCount(s.orders, v))
  {
    var (h, s1) := Handle(s, Intended, order);
    if LockOrder(order.userId) !in s.locks {
      HandleReleasesLock(s, Intended, order);
      CreateGuardsStock(s, order, Some(order.userId), order.voucherId);
      if h == Done(Saved) {
        CountPositive(s.orders, order.userId, order.voucherId);
        forall v | v in s.stock
          ensures s1.stock[v] + VoucherCount(s1.orders, v) == s.stock[v] + VoucherCount(s.orders, v)
        {
          CountAppend(s.orders, order, order.userId, v);
        }
      }
    }
  }

  /** As intended, the whole handler loop keeps both properties. */
  lemma {:induction false} IntendedRunAccounts(s: OrderState, steps: nat)
    requires OnePerUserAndVoucher(s.orders)
    ensures var s1 := Run(s, Intended, steps).1;
            && OnePerUserAndVoucher(s1.orders)
            && s1.stock.Keys == s.stock.Keys
            && (forall v :: v in s.stock ==>
                  s1.stock[v] + VoucherCount(s1.orders, v) == s.stock[v] + VoucherCount(s.orders, v))
    decreases steps
  {
    if steps > 0 {
      var (p, s1) := WorkerStep(s, Intended);
      if p.Some? {
        IntendedHandleAccounts(s.(queue := s.queue[1..]), s.queue[0]);
        IntendedRunAccounts(s1, steps - 1);
      }
    }
  }

  /** As intended, an intent whose lock is free, with no matching order and stock left, is
      saved: exactly one unit leaves its voucher and the order is appended, and the handler
      loop goes on. */
  lemma IntendedSavesHead(s: OrderState)
    requires s.running && s.queue != []
    requires var o := s.queue[0];
             && LockOrder(o.userId) !in s.locks
             && Count(s.orders, o.userId, o.voucherId) == 0
             && o.voucherId in s.stock && s.stock[o.voucherId] > 0
    ensures var o := s.queue[0];
            var (p, s1) := WorkerStep(s, Intended);
            && p == Some(Processed(o, Done(Saved)))
            && s1 == s.(queue := s.queue[1..],
                        stock := s.stock[o.voucherId := s.stock[o.voucherId] - 1],
                        orders := s.orders + [o])
  {
    var o := s.queue[0];
    HandleReleasesLock(s.(queue := s.queue[1..]), Intended, o);
  }

  /** As intended, no exception escapes handleVoucherOrder, so the handler loop never ends,
      however many intents it handles. */
  lemma {:induction false} IntendedRunKeepsRunning(s: OrderState, steps: nat)
    requires s.running
    ensures Run(s, Intended, steps).1.running
    decreases steps
  {
    if steps > 0 {
      var (p, s1) := WorkerStep(s, Intended);
      if p.Some? {
        var t := s.(queue := s.queue[1..]);
        if LockOrder(s.queue[0].userId) !in s.locks {
          HandleReleasesLock(t, Intended, s.queue[0]);
        }
        assert s1.running;
        IntendedRunKeepsRunning(s1, steps - 1);
      }
    }
  }

  /** One unit, two buyers: after the loop drains, the first intent is saved, the second
      finds no stock, and exactly one order row exists. */
  lemma OneUnitTwoBuyers()
    ensures var a := VoucherOrder(1, 10, 7);
            var b := VoucherOrder(2, 20, 7);
            var s := OrderState([a, b], {}, map[7 := 1], [], 2, true);
            var (trace, s1) := Run(s, Intended, 2);
            && trace == [Processed(a, Done(Saved)), Processed(b, Done(SoldOut))]
            && s1.orders == [a] && s1.stock == map[7 := 0] && s1.queue == []
  {
    var a := VoucherOrder(1, 10, 7);
    var b := VoucherOrder(2, 20, 7);
    var s := OrderState([a, b], {}, map[7 := 1], [], 2, true);
    var s1 := WorkerStep(s, Intended).1;
    assert s1 == OrderState([b], {}, map[7 := 0], [a], 2, true);
    assert Count([a], 20, 7) == 0;
    var s2 := WorkerStep(s1, Intended).1;
    assert s2 == OrderState([], {}, map[7 := 0], [a], 2, true);
  }
}
