/**
 What callbacks do to a payment, however often they come, and what the published message does to the
 order that was paid.
 */
module PaymentFlow {
  import opened Wrappers
  import opened CacheAside
  import opened CacheCoherence
  import opened OptimisticLock
  import opened SequentialCall
  import opened TradeState
  import opened OrderServices
  import opened OrderEvents
  import opened PaymentServices
  import PaymentState

  // ----- repeated callbacks -----

  /** The notification reports success, for the right amount. */
  predicate Settles(n: Notification, payTotal: int) {
    n.tradeState == "SUCCESS" && n.payerTotal == payTotal
  }

  function PaidBody(n: Notification, body: PayBody): PayBody {
    body.(tradeState := n.tradeState, transactionId := n.transactionId, tradeType := n.tradeType,
          tradeStateDesc := n.tradeStateDesc, payStatus := PaymentState.SUCCESS, payTime := 0)
  }

  /**
   A callback succeeds if and only if the amount is right, and changes the payment if and only if it also
   reports success and the payment is still unpaid; the change makes it successful and publishes one message.
   */
  lemma CallbackSettlesIff(s: Store<string, PayBody>, n: Notification, id: int)
    requires KeyExact(s) && HoldsKey(s.table, id, n.outTradeNo)
    ensures var row := s.table[id];
      var (s', ok, sent) := Callback(s, n);
      && KeyExact(s')
      && (ok <==> n.payerTotal == row.body.payTotal)
      && if Settles(n, row.body.payTotal) && row.body.payStatus == PaymentState.WAIT then
           && s'.table == s.table[id := row.(version := row.version + 1, body := PaidBody(n, row.body))]
           && sent == [Message(n.outTradeNo, PaymentState.SUCCESS)]
         else
           s'.table == s.table && sent == []
  {
    var (s1, found) := FindByKey(s, n.outTradeNo);
    FindByKeyIsExactIff(s, n.outTradeNo);
    KeyHolderIsUnique(s, id, n.outTradeNo);
    ApplyKeepsKeyExact(s, OpFindByKey(n.outTradeNo));
    assert found == Some(s.table[id]) && s1.table == s.table;
    if Judge(n, PaymentDetailOf(found)).Accept? {
      ExactCallAppliesRule(PaymentState.PayDecide, s1, n.outTradeNo, RequestOf(n), id);
    }
  }

  /** A notification about no payment is rejected, and does nothing. */
  lemma CallbackWithoutPayment(s: Store<string, PayBody>, n: Notification)
    requires KeyExact(s) && LiveRowByKey(s.table, n.outTradeNo) == None
    ensures var (s', ok, sent) := Callback(s, n);
      KeyExact(s') && s'.table == s.table && !ok && sent == []
  {
    FindByKeyIsExactIff(s, n.outTradeNo);
    ApplyKeepsKeyExact(s, OpFindByKey(n.outTradeNo));
  }

  /**
   What one status update stores, answers and publishes, from the table alone. A repeated success or failure is
   taken as done, an early refund and an unknown status are errors.
   */
  lemma StatusUpdateIsAnswered(s: Store<string, PayBody>, sn: string, req: PayReq, id: int)
    requires KeyExact(s) && HoldsKey(s.table, id, sn)
    ensures var row := s.table[id];
      var (s', outcome) := UpdateCall(PaymentState.PayDecide, s, sn, req);
      var settles := req.payStatus == 1 || req.payStatus == -1;
      if (settles && row.body.payStatus == 0) || (req.payStatus == 2 && row.body.payStatus == 1) then
        && s'.table == s.table[id := row.(version := row.version + 1, body := PaymentState.Reported(req, row.body))]
        && AnswerPayment(outcome, req) == Ok(()) && Announced(outcome, sn, req.payStatus) == [Message(sn, req.payStatus)]
      else
        && s'.table == s.table && Announced(outcome, sn, req.payStatus) == []
        && AnswerPayment(outcome, req)
           == if settles then Ok(()) else if req.payStatus == 2 then Err(RefundNeedsSuccess) else Err(StatusNotSupported)
  {
    PaymentState.PayDecideIff(req, s.table[id].body);
    ExactCallAppliesRule(PaymentState.PayDecide, s, sn, req, id);
  }

  /** Callbacks one after another: the store they leave and all they publish. */
  ghost function CallbackAll(s: Store<string, PayBody>, ns: seq<Notification>): (Store<string, PayBody>, seq<Message>)
    decreases |ns|
  {
    if ns == [] then (s, [])
    else
      var (s1, _, sent) := Callback(s, ns[0]);
      var (s2, rest) := CallbackAll(s1, ns[1..]);
      (s2, sent + rest)
  }

  /**
   However many notifications arrive for a payment, and in whatever order, it is paid exactly when one of
   them reports success for the right amount, and then exactly one message is published.
   */
  lemma {:induction false} ManyCallbacksSettleOnce(s: Store<string, PayBody>, ns: seq<Notification>, sn: string, id: int)
    requires KeyExact(s) && HoldsKey(s.table, id, sn)
    requires forall n <- ns :: n.outTradeNo == sn
    ensures var row := s.table[id];
      var (s', sent) := CallbackAll(s, ns);
      var paid := exists n <- ns :: Settles(n, row.body.payTotal);
      && HoldsKey(s'.table, id, sn)
      && s'.table[id].body.payTotal == row.body.payTotal
      && if paid && row.body.payStatus == PaymentState.WAIT then
           s'.table[id].body.payStatus == PaymentState.SUCCESS && sent == [Message(sn, PaymentState.SUCCESS)]
         else
           s'.table == s.table && sent == []
    decreases |ns|
  {
    if ns == [] {
    } else {
      assert ns[0] in ns;
      var s1 := Callback(s, ns[0]).0;
      CallbackSettlesIff(s, ns[0], id);
      assert forall n <- ns[1..] :: n in ns;
      ManyCallbacksSettleOnce(s1, ns[1..], sn, id);
      assert forall n <- ns :: n == ns[0] || n in ns[1..];
    }
  }

  // ----- the message and the order -----

  /** A success message moves an order that waits for payment if and only if it names that order's serial. */
  lemma SuccessMovesOrderIff(s: Store<string, OrderBody>, message: Message, id: int)
    requires KeyExact(s) && id in s.table && s.table[id].IsLive()
    requires message.payStatus == PaymentState.SUCCESS && s.table[id].body.tradeState == WAIT_PAY
    ensures var s' := Deliver(s, message).0;
      && id in s'.table
      && s'.table[id].body.tradeState == if message.orderSn in s.table[id].keys then WAIT_USE else WAIT_PAY
  {
    if exists other :: HoldsKey(s.table, other, message.orderSn) {
      var other :| HoldsKey(s.table, other, message.orderSn);
      HandlerAppliesEvent(s, message.orderSn, Paid(message.payStatus), other);
      if message.orderSn in s.table[id].keys {
        assert HoldsKey(s.table, id, message.orderSn);
        KeyHolderIsUnique(s, id, message.orderSn);
        KeyHolderIsUnique(s, other, message.orderSn);
      }
    } else {
      CallWithoutHolder(OrderDecide, s, message.orderSn, WAIT_USE);
      assert !HoldsKey(s.table, id, message.orderSn);
    }
  }

  /**
   The service publishes the payment's serial where the consumer expects the order's. So an order can be
   paid in full, its message delivered, and the close job still cancels it: the message is refused because
   no order has that serial.
   */
  lemma PaidOrderIsStillCancelled(orders: Store<string, OrderBody>, payments: Store<string, PayBody>,
                                  orderSn: string, orderId: int, n: Notification, payId: int)
    requires KeyExact(orders) && HoldsKey(orders.table, orderId, orderSn)
    requires orders.table[orderId].body.tradeState == WAIT_PAY
    requires KeyExact(payments) && HoldsKey(payments.table, payId, n.outTradeNo)
    requires payments.table[payId].body.orderSn == orderSn && payments.table[payId].body.payStatus == PaymentState.WAIT
    requires Settles(n, payments.table[payId].body.payTotal)
    requires LiveRowByKey(orders.table, n.outTradeNo) == None
    ensures var (payments', ok, sent) := Callback(payments, n);
      && ok && payments'.table[payId].body.payStatus == PaymentState.SUCCESS
      && sent == [Message(n.outTradeNo, PaymentState.SUCCESS)]
      && var (orders1, consumed) := Deliver(orders, sent[0]);
         var (orders2, done) := CloseTask(orders1, orderSn);
         && !consumed && orders1.table == orders.table
         && done && orderId in orders2.table && orders2.table[orderId].body.tradeState == CANCEL
  {
    CallbackSettlesIff(payments, n, payId);
    CallWithoutHolder(OrderDecide, orders, n.outTradeNo, WAIT_USE);
    var orders1 := Deliver(orders, Message(n.outTradeNo, PaymentState.SUCCESS)).0;
    HandlerAppliesEvent(orders1, orderSn, Close, orderId);
  }
}
