/**
 From the price of an order to the amount that was paid, with everything running at once: orders being
 placed and changed, prepay requests, callbacks, and every other payment update.
 */
module PaymentChain {
  import opened Wrappers
  import opened CacheAside
  import opened OptimisticLock
  import opened LockSafety
  import opened LockTheorems
  import opened TradeState
  import opened OrderServices
  import opened PaymentServices
  import opened PaymentFlow
  import opened OrderEvents
  import opened StayPricing
  import PaymentState

  type PayState = PaymentState.PayState
  type PayMove = PaymentState.PayMove

  /** A prepay request, waiting for the order it asked for. */
  datatype Prepay = Pricing(orderSn: string, call: nat) | Recorded(orderSn: string)

  /** A callback: reading the payment, or changing it. */
  datatype Handler = Looking(n: Notification, call: nat) | Settling(n: Notification, call: nat)

  /** What a customer asked for, the homestay it was asked of, and the serial the order got. */
  datatype Placement = Placement(sn: string, req: CreateReq, homestay: Homestay)

  /** `placed` records what was asked for, for statements only. */
  datatype System = System(
    placed: seq<Placement>,
    orders: OrderState,
    payments: PayState,
    prepays: map<nat, Prepay>,
    handlers: map<nat, Handler>)

  datatype SysMove =
    | Place(sn: string, req: CreateReq, homestay: Homestay)
    | OtherOrder(orderMove: OrderMove)
    | OtherPayment(payMove: PayMove)
    | StartPrepay(w: nat, orderSn: string, call: nat)
    | RecordPayment(w: nat, userId: int, sn: string)
    | StartCallback(w: nat, n: Notification, call: nat)
    | ContinueCallback(w: nat, call: nat)

  function Initial(): System {
    System([], Empty(), Empty(), map[], map[])
  }

  /** Only the callback ever asks for success; any other request may come from anywhere. */
  predicate AsksForSuccess(job: Job<PayReq>) {
    job.UpdateJob? && job.req.payStatus == PaymentState.SUCCESS
  }

  ghost function OrderStep(sys: System, move: OrderMove): System {
    sys.(orders := Next(OrderDecide, sys.orders, move))
  }

  ghost function PayStep(sys: System, move: PayMove): System {
    sys.(payments := Next(PaymentState.PayDecide, sys.payments, move))
  }

  ghost function SysNext(sys: System, move: SysMove): System {
    match move
    case Place(sn, req, homestay) =>
      OrderStep(sys, Create({sn}, BuildOrder(req, homestay))).(placed := sys.placed + [Placement(sn, req, homestay)])
    case OtherOrder(m) => if m.Create? then sys else OrderStep(sys, m)
    case OtherPayment(m) =>
      if m.Create? || (m.Spawn? && AsksForSuccess(m.job)) then sys else PayStep(sys, m)
    case StartPrepay(w, orderSn, c) =>
      if w in sys.prepays || c in sys.orders.calls then sys
      else OrderStep(sys, Spawn(c, orderSn, ReadJob)).(prepays := sys.prepays[w := Pricing(orderSn, c)])
    case RecordPayment(w, userId, sn) =>
      if w in sys.prepays && sys.prepays[w].Pricing? then RecordStep(sys, w, sys.prepays[w], userId, sn) else sys
    case StartCallback(w, n, c) =>
      if w in sys.handlers || c in sys.payments.calls then sys
      else PayStep(sys, Spawn(c, n.outTradeNo, ReadJob)).(handlers := sys.handlers[w := Looking(n, c)])
    case ContinueCallback(w, c) =>
      if w in sys.handlers && sys.handlers[w].Looking? && c !in sys.payments.calls then
        SettleStep(sys, w, sys.handlers[w], c)
      else
        sys
  }

  /** What a call has read, once it has returned. */
  function ReadRow<B, R>(st: State<string, B, R>, c: nat): Option<Row<string, B>> {
    if c in st.calls && st.calls[c].phase.Returned? && st.calls[c].phase.outcome.Read? then
      st.calls[c].phase.outcome.found
    else
      None
  }

  /** The order was found: record a payment of its total. */
  ghost function RecordStep(sys: System, w: nat, prepay: Prepay, userId: int, sn: string): System
    requires prepay.Pricing?
  {
    var detail := DetailOf(ReadRow(sys.orders, prepay.call));
    if detail.id == 0 then sys
    else
      PayStep(sys, Create({sn}, NewPayment(userId, WECHAT_PAY, detail.orderTotalPrice, prepay.orderSn)))
        .(prepays := sys.prepays[w := Recorded(prepay.orderSn)])
  }

  /** The payment was found, unpaid and of the notified amount: ask for success. */
  ghost function SettleStep(sys: System, w: nat, handler: Handler, c: nat): System {
    if Judge(handler.n, PaymentDetailOf(ReadRow(sys.payments, handler.call))).Accept? then
      PayStep(sys, Spawn(c, handler.n.outTradeNo, UpdateJob(RequestOf(handler.n))))
        .(handlers := sys.handlers[w := Settling(handler.n, c)])
    else
      sys
  }

  ghost function SysRun(moves: seq<SysMove>): System {
    if moves == [] then Initial() else SysNext(SysRun(moves[..|moves| - 1]), moves[|moves| - 1])
  }

  // ----- the terms of an order -----

  /** The order is as it was built from this placement, but for its state. */
  ghost predicate Builds(p: Placement, row: OrderRow) {
    row.keys == {p.sn} && row.body.(tradeState := WAIT_PAY) == BuildOrder(p.req, p.homestay)
  }

  ghost predicate IsPlaced(placed: seq<Placement>, row: OrderRow) {
    exists i :: 0 <= i < |placed| && Builds(placed[i], row)
  }

  /** There is an order with this serial and this total, and it is as it was asked for. */
  ghost predicate Priced(st: OrderState, placed: seq<Placement>, orderSn: string, total: int) {
    exists id :: HoldsKey(st.store.table, id, orderSn) && PricedAt(placed, st.store.table[id], total)
  }

  ghost predicate PricedAt(placed: seq<Placement>, row: OrderRow, total: int) {
    row.body.orderTotalPrice == total && IsPlaced(placed, row)
  }

  ghost predicate OrdersPlaced(st: OrderState, placed: seq<Placement>) {
    OrdersInv(st) && forall id <- st.store.table.Keys :: IsPlaced(placed, st.store.table[id])
  }

  lemma StaysPlaced(placed: seq<Placement>, placed': seq<Placement>, row: OrderRow, row': OrderRow)
    requires IsPlaced(placed, row) && placed <= placed'
    requires row'.keys == row.keys && row'.body == row.body.(tradeState := row'.body.tradeState)
    ensures IsPlaced(placed', row')
  {
    var i :| 0 <= i < |placed| && Builds(placed[i], row);
    assert Builds(placed'[i], row');
  }

  /** What an order of this kind costs: the room for each day, and the food for each day and person. */
  function PriceOf(req: CreateReq, homestay: Homestay): int {
    OrderTotal(homestay.homestayPrice, req.isFood, homestay.foodPrice, req.livePeopleNum, LiveDays(req.liveStart, req.liveEnd))
  }

  /** A move leaves the terms of the orders there were, and adds only the order it creates. */
  lemma OrderMoveKeepsTerms(st: OrderState, move: OrderMove, id: int)
    requires OrdersInv(st)
    ensures var table, table' := st.store.table, Next(OrderDecide, st, move).store.table;
      if id in table then
        && id in table'
        && table'[id].keys == table[id].keys && table'[id].delState == table[id].delState
        && table'[id].body == table[id].body.(tradeState := table'[id].body.tradeState)
      else if id in table' then
        move.Create? && table'[id].keys == move.keys && table'[id].body == move.body
      else
        true
  {
    if id in st.store.table {
      EveryStepFollowsRule(OrderDecide, st, move, id);
    } else if id in Next(OrderDecide, st, move).store.table {
      BornWithVersionZero(OrderDecide, st, move, id);
    }
  }

  lemma OrderMoveKeepsOrdersPlaced(st: OrderState, move: OrderMove, placed: seq<Placement>, placed': seq<Placement>)
    requires OrdersPlaced(st, placed) && placed <= placed'
    requires move.Create? ==> placed' != [] && CreatesLast(move, placed')
    ensures OrdersPlaced(Next(OrderDecide, st, move), placed')
  {
    NextKeepsOrdersInv(st, move);
    var table' := Next(OrderDecide, st, move).store.table;
    forall id <- table'.Keys ensures IsPlaced(placed', table'[id]) {
      OrderMoveKeepsTerms(st, move, id);
      if id in st.store.table {
        StaysPlaced(placed, placed', st.store.table[id], table'[id]);
      } else {
        assert Builds(placed'[|placed'| - 1], table'[id]);
      }
    }
  }

  /** The move creates the order that was placed last. */
  ghost predicate CreatesLast(move: OrderMove, placed: seq<Placement>)
    requires move.Create? && placed != []
  {
    var p := placed[|placed| - 1];
    move.keys == {p.sn} && move.body == BuildOrder(p.req, p.homestay)
  }

  lemma OrderMoveKeepsPriced(st: OrderState, move: OrderMove, placed: seq<Placement>, placed': seq<Placement>, orderSn: string, total: int)
    requires OrdersInv(st) && Priced(st, placed, orderSn, total) && placed <= placed'
    ensures Priced(Next(OrderDecide, st, move), placed', orderSn, total)
  {
    var id :| HoldsKey(st.store.table, id, orderSn) && PricedAt(placed, st.store.table[id], total);
    var table' := Next(OrderDecide, st, move).store.table;
    OrderMoveKeepsTerms(st, move, id);
    StaysPlaced(placed, placed', st.store.table[id], table'[id]);
    assert HoldsKey(table', id, orderSn) && PricedAt(placed', table'[id], total);
  }

  /** Every version of an order carries the terms of the first. */
  lemma {:induction false} OrderTermsFixed(st: OrderState, id: int, v: nat)
    requires OrdersInv(st) && id in st.trail && v < |st.trail[id]|
    ensures st.trail[id][v].body.(tradeState := WAIT_PAY) == st.trail[id][0].body
    decreases v
  {
    if v == 0 {
    } else {
      OrderTermsFixed(st, id, v - 1);
      assert Moved(OrderDecide, st.commits[id][v - 1].job, st.trail[id][v - 1], st.trail[id][v - 1 + 1]);
    }
  }

  lemma ReadIsRecorded<B, R>(decide: (R, B) -> Decision<B>, st: State<string, B, R>, c: nat)
    requires Inv(decide, st) && c in st.calls && ReadRow(st, c).Some?
    ensures LockSafety.Recorded(st, ReadRow(st, c).value) && st.calls[c].key in ReadRow(st, c).value.keys
  {
    assert CallInv(decide, st, c, st.calls[c]);
  }

  lemma RecordedOrderIsPriced(st: OrderState, placed: seq<Placement>, row: OrderRow, orderSn: string)
    requires OrdersPlaced(st, placed) && LockSafety.Recorded(st, row) && orderSn in row.keys
    ensures Priced(st, placed, orderSn, row.body.orderTotalPrice)
  {
    OrderTermsFixed(st, row.id, row.version);
    OrderTermsFixed(st, row.id, |st.trail[row.id]| - 1);
    assert HoldsKey(st.store.table, row.id, orderSn);
    assert PricedAt(placed, st.store.table[row.id], row.body.orderTotalPrice);
  }

  // ----- the amount of a payment -----

  /** The payment with the notified serial is of the notified amount. */
  ghost predicate AmountMatches(st: PayState, n: Notification) {
    exists id :: HoldsKey(st.store.table, id, n.outTradeNo) && st.store.table[id].body.payTotal == n.payerTotal
  }

  lemma PayMoveKeepsAmount(st: PayState, move: PayMove, n: Notification)
    requires PaymentState.PaymentsInv(st) && AmountMatches(st, n)
    ensures AmountMatches(Next(PaymentState.PayDecide, st, move), n)
  {
    var id :| HoldsKey(st.store.table, id, n.outTradeNo) && st.store.table[id].body.payTotal == n.payerTotal;
    EveryStepFollowsRule(PaymentState.PayDecide, st, move, id);
    assert HoldsKey(Next(PaymentState.PayDecide, st, move).store.table, id, n.outTradeNo);
  }

  lemma RecordedAmountMatches(st: PayState, row: PayRow, n: Notification)
    requires PaymentState.PaymentsInv(st) && LockSafety.Recorded(st, row)
    requires n.outTradeNo in row.keys && row.body.payTotal == n.payerTotal
    ensures AmountMatches(st, n)
  {
    PaymentState.PaymentTermsFixed(st, row.id, row.version);
    PaymentState.PaymentTermsFixed(st, row.id, |st.trail[row.id]| - 1);
    assert HoldsKey(st.store.table, row.id, n.outTradeNo);
  }

  // ----- what every move keeps -----

  ghost predicate PrepayInv(st: OrderState, prepay: Prepay) {
    prepay.Pricing? ==> prepay.call in st.calls && st.calls[prepay.call].key == prepay.orderSn
  }

  ghost predicate HandlerInv(st: PayState, handler: Handler) {
    && handler.call in st.calls
    && st.calls[handler.call].key == handler.n.outTradeNo
    && (handler.Settling? ==> AmountMatches(st, handler.n))
  }

  /** A call that asks for success was made by a callback, with that callback's request. */
  ghost predicate OwnedIfSuccess(handlers: map<nat, Handler>, c: nat, job: Job<PayReq>) {
    AsksForSuccess(job) ==>
      exists w :: w in handlers && handlers[w] == Settling(handlers[w].n, c) && job.req == RequestOf(handlers[w].n)
  }

  ghost predicate SysInv(sys: System) {
    && OrdersPlaced(sys.orders, sys.placed)
    && PaymentState.PaymentsInv(sys.payments)
    && PaymentsPriced(sys.orders, sys.placed, sys.payments)
    && (forall w <- sys.prepays.Keys :: PrepayInv(sys.orders, sys.prepays[w]))
    && (forall w <- sys.handlers.Keys :: HandlerInv(sys.payments, sys.handlers[w]))
    && SuccessIsOwned(sys.handlers, sys.payments)
  }

  ghost predicate PaymentsPriced(orders: OrderState, placed: seq<Placement>, payments: PayState) {
    forall id <- payments.store.table.Keys ::
      Priced(orders, placed, payments.store.table[id].body.orderSn, payments.store.table[id].body.payTotal)
  }

  lemma OrderMoveKeepsPrepays(st: OrderState, move: OrderMove, prepays: map<nat, Prepay>)
    requires forall w <- prepays.Keys :: PrepayInv(st, prepays[w])
    ensures forall w <- prepays.Keys :: PrepayInv(Next(OrderDecide, st, move), prepays[w])
  {
    forall w <- prepays.Keys ensures PrepayInv(Next(OrderDecide, st, move), prepays[w]) {
      if prepays[w].Pricing? {
        CallsKeepTheirTerms(OrderDecide, st, move, prepays[w].call);
      }
    }
  }

  lemma OrderStepKeepsInv(sys: System, move: OrderMove, placed: seq<Placement>)
    requires SysInv(sys) && sys.placed <= placed
    requires move.Create? ==> placed != [] && CreatesLast(move, placed)
    ensures SysInv(OrderStep(sys, move).(placed := placed))
  {
    OrderMoveKeepsOrdersPlaced(sys.orders, move, sys.placed, placed);
    OrderMoveKeepsPrepays(sys.orders, move, sys.prepays);
    var table := sys.payments.store.table;
    var orders' := Next(OrderDecide, sys.orders, move);
    forall id <- table.Keys ensures Priced(orders', placed, table[id].body.orderSn, table[id].body.payTotal) {
      OrderMoveKeepsPriced(sys.orders, move, sys.placed, placed, table[id].body.orderSn, table[id].body.payTotal);
    }
  }

  lemma PayMoveKeepsPriced(orders: OrderState, placed: seq<Placement>, st: PayState, move: PayMove)
    requires PaymentState.PaymentsInv(st) && PaymentsPriced(orders, placed, st)
    requires move.Create? ==> Priced(orders, placed, move.body.orderSn, move.body.payTotal)
    ensures PaymentsPriced(orders, placed, Next(PaymentState.PayDecide, st, move))
  {
    var table' := Next(PaymentState.PayDecide, st, move).store.table;
    forall id <- table'.Keys ensures Priced(orders, placed, table'[id].body.orderSn, table'[id].body.payTotal) {
      if id in st.store.table {
        EveryStepFollowsRule(PaymentState.PayDecide, st, move, id);
      } else {
        BornWithVersionZero(PaymentState.PayDecide, st, move, id);
      }
    }
  }

  ghost predicate SuccessIsOwned(handlers: map<nat, Handler>, st: PayState) {
    forall c <- st.calls.Keys :: OwnedIfSuccess(handlers, c, st.calls[c].job)
  }

  lemma PayMoveKeepsOwners(before: map<nat, Handler>, handlers: map<nat, Handler>, st: PayState, move: PayMove)
    requires SuccessIsOwned(before, st)
    requires forall w <- before.Keys :: before[w].Settling? ==> w in handlers && handlers[w] == before[w]
    requires move.Spawn? && move.call !in st.calls ==> OwnedIfSuccess(handlers, move.call, move.job)
    ensures SuccessIsOwned(handlers, Next(PaymentState.PayDecide, st, move))
  {
    var calls' := Next(PaymentState.PayDecide, st, move).calls;
    forall c <- calls'.Keys ensures OwnedIfSuccess(handlers, c, calls'[c].job) {
      CallsKeepTheirTerms(PaymentState.PayDecide, st, move, c);
      if c in st.calls {
        assert OwnedIfSuccess(before, c, st.calls[c].job);
      }
    }
  }

  /** A payment move that creates only a priced payment, and asks for success only for a handler. */
  lemma PayStepKeepsInv(sys: System, move: PayMove, handlers: map<nat, Handler>)
    requires SysInv(sys)
    requires move.Create? ==> move.body.payStatus == PaymentState.WAIT && Priced(sys.orders, sys.placed, move.body.orderSn, move.body.payTotal)
    requires forall w <- sys.handlers.Keys :: sys.handlers[w].Settling? ==> w in handlers && handlers[w] == sys.handlers[w]
    requires forall w <- handlers.Keys :: HandlerInv(PayStep(sys, move).payments, handlers[w])
    requires move.Spawn? && move.call !in sys.payments.calls ==> OwnedIfSuccess(handlers, move.call, move.job)
    ensures SysInv(PayStep(sys, move).(handlers := handlers))
  {
    PaymentState.NextKeepsPaymentsInv(sys.payments, move);
    PayMoveKeepsPriced(sys.orders, sys.placed, sys.payments, move);
    PayMoveKeepsOwners(sys.handlers, handlers, sys.payments, move);
  }

  lemma HandlerStaysValid(st: PayState, move: PayMove, handler: Handler)
    requires PaymentState.PaymentsInv(st) && HandlerInv(st, handler)
    ensures HandlerInv(Next(PaymentState.PayDecide, st, move), handler)
  {
    CallsKeepTheirTerms(PaymentState.PayDecide, st, move, handler.call);
    if handler.Settling? {
      PayMoveKeepsAmount(st, move, handler.n);
    }
  }

  lemma HandlersStayValid(sys: System, move: PayMove)
    requires SysInv(sys)
    ensures forall w <- sys.handlers.Keys :: HandlerInv(PayStep(sys, move).payments, sys.handlers[w])
  {
    forall w <- sys.handlers.Keys ensures HandlerInv(PayStep(sys, move).payments, sys.handlers[w]) {
      HandlerStaysValid(sys.payments, move, sys.handlers[w]);
    }
  }

  lemma OneMoreHandler(sys: System, move: PayMove, w: nat, handler: Handler)
    requires SysInv(sys) && HandlerInv(PayStep(sys, move).payments, handler)
    ensures var handlers := sys.handlers[w := handler];
      forall v <- handlers.Keys :: HandlerInv(PayStep(sys, move).payments, handlers[v])
  {
    var handlers := sys.handlers[w := handler];
    forall v <- handlers.Keys ensures HandlerInv(PayStep(sys, move).payments, handlers[v]) {
      if v != w {
        HandlerStaysValid(sys.payments, move, sys.handlers[v]);
      }
    }
  }

  lemma OtherPaymentKeepsInv(sys: System, move: PayMove)
    requires SysInv(sys) && !move.Create? && !(move.Spawn? && AsksForSuccess(move.job))
    ensures SysInv(PayStep(sys, move))
  {
    HandlersStayValid(sys, move);
    PayStepKeepsInv(sys, move, sys.handlers);
    assert PayStep(sys, move).(handlers := sys.handlers) == PayStep(sys, move);
  }

  lemma CreatePricedKeepsInv(sys: System, sn: string, body: PayBody)
    requires SysInv(sys) && body.payStatus == PaymentState.WAIT && Priced(sys.orders, sys.placed, body.orderSn, body.payTotal)
    ensures SysInv(PayStep(sys, Create({sn}, body)))
  {
    HandlersStayValid(sys, Create({sn}, body));
    PayStepKeepsInv(sys, Create({sn}, body), sys.handlers);
    assert PayStep(sys, Create({sn}, body)).(handlers := sys.handlers) == PayStep(sys, Create({sn}, body));
  }

  lemma ReadOrderIsPriced(sys: System, prepay: Prepay)
    requires SysInv(sys) && prepay.Pricing? && PrepayInv(sys.orders, prepay) && ReadRow(sys.orders, prepay.call).Some?
    ensures Priced(sys.orders, sys.placed, prepay.orderSn, ReadRow(sys.orders, prepay.call).value.body.orderTotalPrice)
  {
    ReadIsRecorded(OrderDecide, sys.orders, prepay.call);
    RecordedOrderIsPriced(sys.orders, sys.placed, ReadRow(sys.orders, prepay.call).value, prepay.orderSn);
  }

  lemma RecordedKeepsInv(sys: System, w: nat, orderSn: string)
    requires SysInv(sys)
    ensures SysInv(sys.(prepays := sys.prepays[w := Recorded(orderSn)]))
  {
  }

  lemma RecordStepKeepsInv(sys: System, w: nat, prepay: Prepay, userId: int, sn: string)
    requires SysInv(sys) && prepay.Pricing? && PrepayInv(sys.orders, prepay)
    ensures SysInv(RecordStep(sys, w, prepay, userId, sn))
  {
    var detail := DetailOf(ReadRow(sys.orders, prepay.call));
    if detail.id != 0 {
      ReadOrderIsPriced(sys, prepay);
      var body := NewPayment(userId, WECHAT_PAY, detail.orderTotalPrice, prepay.orderSn);
      CreatePricedKeepsInv(sys, sn, body);
      RecordedKeepsInv(PayStep(sys, Create({sn}, body)), w, prepay.orderSn);
    }
  }

  lemma StartCallbackKeepsInv(sys: System, w: nat, n: Notification, c: nat)
    requires SysInv(sys) && w !in sys.handlers && c !in sys.payments.calls
    ensures SysInv(PayStep(sys, Spawn(c, n.outTradeNo, ReadJob)).(handlers := sys.handlers[w := Looking(n, c)]))
  {
    OneMoreHandler(sys, Spawn(c, n.outTradeNo, ReadJob), w, Looking(n, c));
    PayStepKeepsInv(sys, Spawn(c, n.outTradeNo, ReadJob), sys.handlers[w := Looking(n, c)]);
  }

  lemma NewOwner(handlers: map<nat, Handler>, w: nat, n: Notification, c: nat)
    ensures OwnedIfSuccess(handlers[w := Settling(n, c)], c, UpdateJob(RequestOf(n)))
  {
    var handlers' := handlers[w := Settling(n, c)];
    assert w in handlers' && handlers'[w] == Settling(handlers'[w].n, c);
  }

  lemma NewSettlingIsValid(st: PayState, n: Notification, c: nat, job: Job<PayReq>)
    requires PaymentState.PaymentsInv(st) && AmountMatches(st, n) && c !in st.calls
    ensures HandlerInv(Next(PaymentState.PayDecide, st, Spawn(c, n.outTradeNo, job)), Settling(n, c))
  {
    PayMoveKeepsAmount(st, Spawn(c, n.outTradeNo, job), n);
  }

  /** Asking for success is safe once the amount was found to match. */
  lemma AskKeepsInv(sys: System, move: PayMove, handlers: map<nat, Handler>, w: nat, n: Notification)
    requires SysInv(sys) && AmountMatches(sys.payments, n)
    requires move.Spawn? && move.key == n.outTradeNo && move.call !in sys.payments.calls
    requires w in sys.handlers && sys.handlers[w].Looking? && handlers == sys.handlers[w := Settling(n, move.call)]
    requires OwnedIfSuccess(handlers, move.call, move.job)
    ensures SysInv(PayStep(sys, move).(handlers := handlers))
  {
    NewSettlingIsValid(sys.payments, n, move.call, move.job);
    OneMoreHandler(sys, move, w, Settling(n, move.call));
    PayStepKeepsInv(sys, move, handlers);
  }

  lemma SettleStepKeepsInv(sys: System, w: nat, c: nat)
    requires SysInv(sys) && w in sys.handlers && sys.handlers[w].Looking? && c !in sys.payments.calls
    ensures SysInv(SettleStep(sys, w, sys.handlers[w], c))
  {
    var n, call := sys.handlers[w].n, sys.handlers[w].call;
    assert HandlerInv(sys.payments, sys.handlers[w]);
    if Judge(n, PaymentDetailOf(ReadRow(sys.payments, call))).Accept? {
      ReadIsRecorded(PaymentState.PayDecide, sys.payments, call);
      RecordedAmountMatches(sys.payments, ReadRow(sys.payments, call).value, n);
      NewOwner(sys.handlers, w, n, c);
      AskKeepsInv(sys, Spawn(c, n.outTradeNo, UpdateJob(RequestOf(n))), sys.handlers[w := Settling(n, c)], w, n);
    }
  }

  lemma OtherOrderKeepsInv(sys: System, move: OrderMove)
    requires SysInv(sys) && !move.Create?
    ensures SysInv(OrderStep(sys, move))
  {
    OrderStepKeepsInv(sys, move, sys.placed);
    assert OrderStep(sys, move).(placed := sys.placed) == OrderStep(sys, move);
  }

  lemma StartPrepayKeepsInv(sys: System, w: nat, orderSn: string, c: nat)
    requires SysInv(sys) && w !in sys.prepays && c !in sys.orders.calls
    ensures SysInv(OrderStep(sys, Spawn(c, orderSn, ReadJob)).(prepays := sys.prepays[w := Pricing(orderSn, c)]))
  {
    OtherOrderKeepsInv(sys, Spawn(c, orderSn, ReadJob));
  }

  lemma PlaceKeepsInv(sys: System, p: Placement)
    requires SysInv(sys)
    ensures SysInv(OrderStep(sys, Create({p.sn}, BuildOrder(p.req, p.homestay))).(placed := sys.placed + [p]))
  {
    OrderStepKeepsInv(sys, Create({p.sn}, BuildOrder(p.req, p.homestay)), sys.placed + [p]);
  }

  lemma SysNextKeepsInv(sys: System, move: SysMove)
    requires SysInv(sys)
    ensures SysInv(SysNext(sys, move))
  {
    match move
    case Place(sn, req, homestay) => PlaceKeepsInv(sys, Placement(sn, req, homestay));
    case OtherOrder(m) => if !m.Create? { OtherOrderKeepsInv(sys, m); }
    case OtherPayment(m) =>
      if !m.Create? && !(m.Spawn? && AsksForSuccess(m.job)) { OtherPaymentKeepsInv(sys, m); }
    case StartPrepay(w, orderSn, c) =>
      if w !in sys.prepays && c !in sys.orders.calls { StartPrepayKeepsInv(sys, w, orderSn, c); }
    case RecordPayment(w, userId, sn) =>
      if w in sys.prepays && sys.prepays[w].Pricing? { RecordStepKeepsInv(sys, w, sys.prepays[w], userId, sn); }
    case StartCallback(w, n, c) =>
      if w !in sys.handlers && c !in sys.payments.calls { StartCallbackKeepsInv(sys, w, n, c); }
    case ContinueCallback(w, c) =>
      if w in sys.handlers && sys.handlers[w].Looking? && c !in sys.payments.calls { SettleStepKeepsInv(sys, w, c); }
  }

  lemma InitialInv()
    ensures SysInv(Initial())
  {
  }

  lemma {:induction false} SysRunKeepsInv(moves: seq<SysMove>)
    ensures SysInv(SysRun(moves))
    decreases |moves|
  {
    if moves == [] {
      InitialInv();
    } else {
      SysRunKeepsInv(moves[..|moves| - 1]);
      SysNextKeepsInv(SysRun(moves[..|moves| - 1]), moves[|moves| - 1]);
    }
  }

  // ----- the chain -----

  /** Some callback was told that exactly this amount was paid for the payment stored in `row`. */
  ghost predicate PaidInFull(sys: System, row: PayRow) {
    exists w :: w in sys.handlers && Settles(sys.handlers[w].n, row.body.payTotal) && sys.handlers[w].n.outTradeNo in row.keys
  }

  /** The call that committed version `v` of a payment asked for the status it has, under one of its keys. */
  lemma CommitterAskedFor(st: PayState, id: int, v: nat) returns (c: nat)
    requires PaymentState.PaymentsInv(st) && id in st.trail && 0 < v < |st.trail[id]|
    ensures c in st.calls && st.calls[c].key in st.trail[id][v].keys
    ensures st.calls[c].job.UpdateJob? && st.calls[c].job.req.payStatus == st.trail[id][v].body.payStatus
  {
    PaymentState.PaymentStep(st, id, v);
    c := st.commits[id][v - 1].call;
    assert CommittedRow(st.calls[c].phase) == Some(st.trail[id][v - 1 + 1]);
    assert CallInv(PaymentState.PayDecide, st, c, st.calls[c]);
  }

  lemma TrailRowTerms(st: PayState, id: int, v: nat)
    requires PaymentState.PaymentsInv(st) && id in st.trail && v < |st.trail[id]|
    ensures var row := st.trail[id][v];
      && LiveRow(st.store.table, id).Some?
      && st.store.table[id].keys == row.keys
      && st.store.table[id].body.payTotal == row.body.payTotal
      && st.store.table[id].body.orderSn == row.body.orderSn
  {
    PaymentState.PaymentTermsFixed(st, id, v);
    PaymentState.PaymentTermsFixed(st, id, |st.trail[id]| - 1);
  }

  /** A callback that asked for success was told the amount of the payment whose serial it named. */
  lemma OwnerWasToldTheAmount(sys: System, w: nat, id: int, row: PayRow)
    requires SysInv(sys) && w in sys.handlers && sys.handlers[w].Settling?
    requires MapWxTradeState(sys.handlers[w].n.tradeState) == PaymentState.SUCCESS
    requires HoldsKey(sys.payments.store.table, id, sys.handlers[w].n.outTradeNo)
    requires sys.payments.store.table[id].keys == row.keys && sys.payments.store.table[id].body.payTotal == row.body.payTotal
    ensures PaidInFull(sys, row)
  {
    var n := sys.handlers[w].n;
    assert HandlerInv(sys.payments, sys.handlers[w]);
    var table := sys.payments.store.table;
    var other :| HoldsKey(table, other, n.outTradeNo) && table[other].body.payTotal == n.payerTotal;
    KeyHolderIsUnique(sys.payments.store, id, n.outTradeNo);
    KeyHolderIsUnique(sys.payments.store, other, n.outTradeNo);
    assert Settles(n, row.body.payTotal);
  }

  /** Some customer placed the order with this serial, and this is what it costs. */
  ghost predicate IsPriceOfPlaced(moves: seq<SysMove>, orderSn: string, total: int) {
    exists k :: 0 <= k < |moves| && moves[k].Place? && moves[k].sn == orderSn && total == PriceOf(moves[k].req, moves[k].homestay)
  }

  ghost predicate WasPlaced(moves: seq<SysMove>, p: Placement) {
    exists k :: 0 <= k < |moves| && moves[k] == Place(p.sn, p.req, p.homestay)
  }

  lemma StepPlaces(sys: System, move: SysMove)
    ensures SysNext(sys, move).placed
         == if move.Place? then sys.placed + [Placement(move.sn, move.req, move.homestay)] else sys.placed
  {
  }

  lemma {:induction false} PlacementsWereMade(moves: seq<SysMove>, i: nat)
    requires i < |SysRun(moves).placed|
    ensures WasPlaced(moves, SysRun(moves).placed[i])
    decreases |moves|
  {
    var last := |moves| - 1;
    var before := SysRun(moves[..last]).placed;
    StepPlaces(SysRun(moves[..last]), moves[last]);
    if i < |before| {
      PlacementsWereMade(moves[..last], i);
      var k :| 0 <= k < last && moves[..last][k] == Place(before[i].sn, before[i].req, before[i].homestay);
      assert moves[k] == Place(before[i].sn, before[i].req, before[i].homestay);
    } else {
      var p := SysRun(moves).placed[i];
      assert moves[last] == Place(p.sn, p.req, p.homestay);
    }
  }

  lemma BuiltTotal(p: Placement, row: OrderRow)
    requires Builds(p, row)
    ensures row.body.orderTotalPrice == PriceOf(p.req, p.homestay)
  {
    assert row.body.orderTotalPrice == BuildOrder(p.req, p.homestay).orderTotalPrice;
  }

  lemma PlacedIsPriced(moves: seq<SysMove>, p: Placement, total: int)
    requires WasPlaced(moves, p) && total == PriceOf(p.req, p.homestay)
    ensures IsPriceOfPlaced(moves, p.sn, total)
  {
    var k :| 0 <= k < |moves| && moves[k] == Place(p.sn, p.req, p.homestay);
    assert moves[k].Place? && moves[k].sn == p.sn;
  }

  lemma PricedIsPriceOfPlaced(moves: seq<SysMove>, orderSn: string, total: int)
    requires Priced(SysRun(moves).orders, SysRun(moves).placed, orderSn, total)
    ensures IsPriceOfPlaced(moves, orderSn, total)
  {
    var sys := SysRun(moves);
    var table := sys.orders.store.table;
    var id :| HoldsKey(table, id, orderSn) && PricedAt(sys.placed, table[id], total);
    var i :| 0 <= i < |sys.placed| && Builds(sys.placed[i], table[id]);
    PlacementsWereMade(moves, i);
    BuiltTotal(sys.placed[i], table[id]);
    PlacedIsPriced(moves, sys.placed[i], total);
  }

  /** In every run, every stored order is, but for its state, what some customer's request asked for. */
  lemma EveryOrderIsAsRequested(moves: seq<SysMove>, id: int) returns (k: nat)
    requires id in SysRun(moves).orders.store.table
    ensures k < |moves| && moves[k].Place?
    ensures var row := SysRun(moves).orders.store.table[id];
      row.keys == {moves[k].sn} && IsAsRequested(row.body.(tradeState := 0), moves[k].req, moves[k].homestay)
  {
    SysRunKeepsInv(moves);
    var sys := SysRun(moves);
    var row := sys.orders.store.table[id];
    assert IsPlaced(sys.placed, row);
    var i :| 0 <= i < |sys.placed| && Builds(sys.placed[i], row);
    PlacementsWereMade(moves, i);
    var p := sys.placed[i];
    BuiltAsRequested(p.req, p.homestay);
    k :| 0 <= k < |moves| && moves[k] == Place(p.sn, p.req, p.homestay);
  }

  /**
   In every run, every payment that was ever successful was notified with exactly its own total; that total
   is stored with the order it names, and is what that order, as it was placed, costs.
   */
  lemma SuccessWasPaidInFull(moves: seq<SysMove>, id: int, v: nat)
    requires var trail := SysRun(moves).payments.trail;
      id in trail && v < |trail[id]| && trail[id][v].body.payStatus == PaymentState.SUCCESS
    ensures var sys := SysRun(moves);
      var row := sys.payments.trail[id][v];
      && PaidInFull(sys, row)
      && Priced(sys.orders, sys.placed, row.body.orderSn, row.body.payTotal)
      && IsPriceOfPlaced(moves, row.body.orderSn, row.body.payTotal)
  {
    SysRunKeepsInv(moves);
    SuccessIsPaidInFull(SysRun(moves), id, v);
    var row := SysRun(moves).payments.trail[id][v];
    PricedIsPriceOfPlaced(moves, row.body.orderSn, row.body.payTotal);
  }

  lemma SuccessIsPaidInFull(sys: System, id: int, v: nat)
    requires SysInv(sys)
    requires id in sys.payments.trail && v < |sys.payments.trail[id]|
    requires sys.payments.trail[id][v].body.payStatus == PaymentState.SUCCESS
    ensures var row := sys.payments.trail[id][v];
      && PaidInFull(sys, row)
      && Priced(sys.orders, sys.placed, row.body.orderSn, row.body.payTotal)
  {
    var st := sys.payments;
    var c := CommitterAskedFor(st, id, v);
    TrailRowTerms(st, id, v);
    assert OwnedIfSuccess(sys.handlers, c, st.calls[c].job);
    var w :| w in sys.handlers && sys.handlers[w] == Settling(sys.handlers[w].n, c)
      && st.calls[c].job.req == RequestOf(sys.handlers[w].n);
    assert HandlerInv(st, sys.handlers[w]);
    OwnerWasToldTheAmount(sys, w, id, st.trail[id][v]);
  }
}
