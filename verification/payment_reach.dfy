/**
 The partner of the amount chain: for every order there is a run in which it is placed, priced, notified and
 paid. So the chain speaks of payments that do happen.
 */
module PaymentReach {
  import opened Wrappers
  import opened CacheAside
  import opened CacheCoherence
  import opened OptimisticLock
  import opened LockSafety
  import opened SequentialCall
  import opened TradeState
  import opened OrderServices
  import opened PaymentServices
  import opened PaymentFlow
  import opened PaymentChain
  import PaymentState

  // ----- letting one call run -----

  lemma RunAppends(moves: seq<SysMove>, move: SysMove)
    ensures SysRun(moves + [move]) == SysNext(SysRun(moves), move)
  {
    assert (moves + [move])[..|moves|] == moves;
  }

  /** The move places this order, records this payment, or lets what was started go on. */
  predicate Concerns(move: SysMove, sn: string, paySn: string) {
    match move
    case Place(s, _, _) => s == sn
    case RecordPayment(_, _, s) => s == paySn
    case OtherOrder(m) => m.Advance?
    case OtherPayment(m) => m.Advance?
    case _ => true
  }

  ghost predicate AllConcern(moves: seq<SysMove>, sn: string, paySn: string) {
    forall k | 0 <= k < |moves| :: Concerns(moves[k], sn, paySn)
  }

  /** Extends a run by the moves of one order call. */
  lemma {:induction false} OrderCallRuns(before: seq<SysMove>, c: nat, states: seq<OrderState>, sn: string, paySn: string) returns (moves: seq<SysMove>)
    requires SoloFrom(OrderDecide, c, states, SysRun(before).orders) && AllConcern(before, sn, paySn)
    ensures AllConcern(moves, sn, paySn)
    ensures SysRun(moves) == SysRun(before).(orders := Last(states))
    decreases |states|
  {
    var last := |states| - 1;
    if last == 0 {
      moves := before;
    } else {
      assert states[last - 1 + 1] == Next(OrderDecide, states[last - 1], Advance(c));
      moves := OrderCallRuns(before, c, states[..last], sn, paySn);
      RunAppends(moves, OtherOrder(Advance(c)));
      moves := moves + [OtherOrder(Advance(c))];
    }
  }

  /** Extends a run by the moves of one payment call. */
  lemma {:induction false} PaymentCallRuns(before: seq<SysMove>, c: nat, states: seq<PayState>, sn: string, paySn: string) returns (moves: seq<SysMove>)
    requires SoloFrom(PaymentState.PayDecide, c, states, SysRun(before).payments) && AllConcern(before, sn, paySn)
    ensures AllConcern(moves, sn, paySn)
    ensures SysRun(moves) == SysRun(before).(payments := Last(states))
    decreases |states|
  {
    var last := |states| - 1;
    if last == 0 {
      moves := before;
    } else {
      assert states[last - 1 + 1] == Next(PaymentState.PayDecide, states[last - 1], Advance(c));
      moves := PaymentCallRuns(before, c, states[..last], sn, paySn);
      RunAppends(moves, OtherPayment(Advance(c)));
      moves := moves + [OtherPayment(Advance(c))];
    }
  }

  /** A read, left alone where lookups by key are exact, returns the holder of its key. */
  lemma SoloReadFinds<B, R>(decide: (R, B) -> Decision<B>, st: State<string, B, R>, c: nat, key: string, id: int) returns (states: seq<State<string, B, R>>)
    requires KeyExact(st.store) && HoldsKey(st.store.table, id, key)
    requires c in st.calls && st.calls[c] == Call(key, ReadJob, Loading(AtKey(key)))
    ensures SoloFrom(decide, c, states, st)
    ensures var st' := Last(states);
      && KeyExact(st'.store) && st'.store.table == st.store.table
      && st'.calls.Keys == st.calls.Keys && st'.outbox == st.outbox
      && ReadRow(st', c) == Some(st.store.table[id])
  {
    states := SoloReadReturns(decide, st, c, key);
    FindByKeyIsExactIff(st.store, key);
    KeyHolderIsUnique(st.store, id, key);
    ApplyKeepsKeyExact(st.store, OpFindByKey(key));
  }

  // ----- the four stages -----

  /** Only this order is stored, with its lookups by serial exact. */
  ghost predicate IsOnlyOrder(st: OrderState, sn: string, body: OrderBody) {
    && KeyExact(st.store) && st.store.table == map[1 := Row(1, DEL_STATE_NO, 0, {sn}, body)]
    && st.calls.Keys == {0}
  }

  /** The order is stored, and its prepay request has read it. */
  ghost predicate IsPricedStage(sys: System, sn: string, body: OrderBody) {
    && sys.payments == Empty()
    && sys.handlers == map[]
    && 0 in sys.prepays && sys.prepays[0] == Pricing(sn, 0)
    && IsOnlyOrder(sys.orders, sn, body)
    && ReadRow(sys.orders, 0) == LiveRow(sys.orders.store.table, 1)
  }

  lemma PriceStage(sn: string, paySn: string, req: CreateReq, homestay: Homestay) returns (moves: seq<SysMove>)
    ensures IsPricedStage(SysRun(moves), sn, BuildOrder(req, homestay)) && AllConcern(moves, sn, paySn)
  {
    var start := [Place(sn, req, homestay)];
    RunAppends([], Place(sn, req, homestay));
    assert [] + [Place(sn, req, homestay)] == start;
    RunAppends(start, StartPrepay(0, sn, 0));
    moves := start + [StartPrepay(0, sn, 0)];
    var sys := SysRun(moves);
    var row := Row(1, DEL_STATE_NO, 0, {sn}, BuildOrder(req, homestay));
    assert sys.orders.store == Store(map[1 := row], map[], map[], 2);
    assert HoldsKey(sys.orders.store.table, 1, sn);
    var states := SoloReadFinds(OrderDecide, sys.orders, 0, sn, 1);
    moves := OrderCallRuns(moves, 0, states, sn, paySn);
  }

  /** The payment is stored with the order's total, and a callback about it has started. */
  ghost predicate IsRecordedStage(sys: System, payment: PayBody, n: Notification) {
    && sys.payments.store == Store(map[1 := Row(1, DEL_STATE_NO, 0, {n.outTradeNo}, payment)], map[], map[], 2)
    && sys.payments.calls == map[0 := Call(n.outTradeNo, ReadJob, Loading(AtKey(n.outTradeNo)))]
    && sys.payments.outbox == []
    && sys.handlers == map[0 := Looking(n, 0)]
    && payment.payStatus == PaymentState.WAIT
  }

  lemma RecordPaymentStep(sys: System, sn: string, body: OrderBody, userId: int, paySn: string)
    requires IsPricedStage(sys, sn, body)
    ensures var sys' := SysNext(sys, RecordPayment(0, userId, paySn));
      var payment := NewPayment(userId, WECHAT_PAY, body.orderTotalPrice, sn);
      && sys'.orders == sys.orders && sys'.handlers == map[]
      && sys'.payments.store == Store(map[1 := Row(1, DEL_STATE_NO, 0, {paySn}, payment)], map[], map[], 2)
      && sys'.payments.calls == map[] && sys'.payments.outbox == []
  {
  }

  lemma RecordStage(before: seq<SysMove>, sn: string, body: OrderBody, userId: int, n: Notification) returns (moves: seq<SysMove>)
    requires IsPricedStage(SysRun(before), sn, body) && AllConcern(before, sn, n.outTradeNo)
    ensures IsRecordedStage(SysRun(moves), NewPayment(userId, WECHAT_PAY, body.orderTotalPrice, sn), n)
    ensures SysRun(moves).orders == SysRun(before).orders && AllConcern(moves, sn, n.outTradeNo)
  {
    RecordPaymentStep(SysRun(before), sn, body, userId, n.outTradeNo);
    RunAppends(before, RecordPayment(0, userId, n.outTradeNo));
    moves := before + [RecordPayment(0, userId, n.outTradeNo)];
    RunAppends(moves, StartCallback(0, n, 0));
    moves := moves + [StartCallback(0, n, 0)];
  }

  /** The callback has read the payment. */
  ghost predicate IsReadStage(sys: System, payment: PayBody, n: Notification) {
    && KeyExact(sys.payments.store)
    && sys.payments.store.table == map[1 := Row(1, DEL_STATE_NO, 0, {n.outTradeNo}, payment)]
    && sys.payments.calls.Keys == {0}
    && sys.payments.outbox == []
    && ReadRow(sys.payments, 0) == Some(Row(1, DEL_STATE_NO, 0, {n.outTradeNo}, payment))
    && sys.handlers == map[0 := Looking(n, 0)]
    && payment.payStatus == PaymentState.WAIT
  }

  lemma ReadStage(before: seq<SysMove>, sn: string, payment: PayBody, n: Notification) returns (moves: seq<SysMove>)
    requires IsRecordedStage(SysRun(before), payment, n) && AllConcern(before, sn, n.outTradeNo)
    ensures SysRun(moves).orders == SysRun(before).orders && IsReadStage(SysRun(moves), payment, n)
    ensures AllConcern(moves, sn, n.outTradeNo)
  {
    var st := SysRun(before).payments;
    assert HoldsKey(st.store.table, 1, n.outTradeNo);
    var states := SoloReadFinds(PaymentState.PayDecide, st, 0, n.outTradeNo, 1);
    moves := PaymentCallRuns(before, 0, states, sn, n.outTradeNo);
  }

  lemma PaymentsKeepInv(moves: seq<SysMove>)
    ensures Inv(PaymentState.PayDecide, SysRun(moves).payments)
  {
    SysRunKeepsInv(moves);
  }

  /** The callback has accepted the amount and asked for success. */
  ghost predicate IsAskedStage(st: PayState, payment: PayBody, n: Notification) {
    && KeyExact(st.store)
    && st.store.table == map[1 := Row(1, DEL_STATE_NO, 0, {n.outTradeNo}, payment)]
    && 1 in st.calls && st.calls[1] == Call(n.outTradeNo, UpdateJob(RequestOf(n)), Loading(AtKey(n.outTradeNo)))
    && st.outbox == []
    && payment.payStatus == PaymentState.WAIT
  }

  lemma AcceptStep(sys: System, payment: PayBody, n: Notification)
    requires IsReadStage(sys, payment, n) && Settles(n, payment.payTotal)
    ensures SysNext(sys, ContinueCallback(0, 1)).orders == sys.orders
    ensures IsAskedStage(SysNext(sys, ContinueCallback(0, 1)).payments, payment, n)
  {
  }

  /** The payment is stored as paid, and the one message about it is out. */
  ghost predicate IsPaidStage(st: PayState, payment: PayBody, n: Notification) {
    && LiveRow(st.store.table, 1) == Some(Row(1, DEL_STATE_NO, 1, {n.outTradeNo}, PaidBody(n, payment)))
    && st.outbox == [Notice(1, st.store.table[1])]
    && 1 in st.calls && st.calls[1].key == n.outTradeNo
  }

  lemma AskedCallCommits(st: PayState, payment: PayBody, n: Notification)
    requires IsAskedStage(st, payment, n) && n.tradeState == "SUCCESS"
    ensures var row := Row(1, DEL_STATE_NO, 1, {n.outTradeNo}, PaidBody(n, payment));
      var (s, outcome) := UpdateCall(PaymentState.PayDecide, st.store, n.outTradeNo, RequestOf(n));
      outcome == Committed(row) && LiveRow(s.table, 1) == Some(row)
    ensures Announces(PaymentState.PayDecide, RequestOf(n), FindByKey(st.store, n.outTradeNo).1)
  {
    assert HoldsKey(st.store.table, 1, n.outTradeNo);
    KeyHolderIsUnique(st.store, 1, n.outTradeNo);
    FindByKeyIsExactIff(st.store, n.outTradeNo);
    ExactCallAppliesRule(PaymentState.PayDecide, st.store, n.outTradeNo, RequestOf(n), 1);
  }

  lemma FinishStage(before: seq<SysMove>, sn: string, n: Notification, payment: PayBody) returns (moves: seq<SysMove>)
    requires IsAskedStage(SysRun(before).payments, payment, n) && n.tradeState == "SUCCESS"
    requires AllConcern(before, sn, n.outTradeNo)
    ensures SysRun(moves).orders == SysRun(before).orders && AllConcern(moves, sn, n.outTradeNo)
    ensures IsPaidStage(SysRun(moves).payments, payment, n)
  {
    var st := SysRun(before).payments;
    PaymentsKeepInv(before);
    AskedCallCommits(st, payment, n);
    var states := SoloCallIsUpdateCall(PaymentState.PayDecide, st, 1, n.outTradeNo, RequestOf(n));
    moves := PaymentCallRuns(before, 1, states, sn, n.outTradeNo);
  }

  /** The callback accepts the amount, asks for success, and is left to finish. */
  lemma SettleStage(before: seq<SysMove>, sn: string, payment: PayBody, n: Notification) returns (moves: seq<SysMove>)
    requires IsReadStage(SysRun(before), payment, n) && Settles(n, payment.payTotal) && AllConcern(before, sn, n.outTradeNo)
    ensures SysRun(moves).orders == SysRun(before).orders && AllConcern(moves, sn, n.outTradeNo)
    ensures IsPaidStage(SysRun(moves).payments, payment, n)
  {
    RunAppends(before, ContinueCallback(0, 1));
    AcceptStep(SysRun(before), payment, n);
    moves := FinishStage(before + [ContinueCallback(0, 1)], sn, n, payment);
  }

  /** A notification of success for the whole total. */
  function PaidNotice(paySn: string, total: int): Notification {
    Notification(paySn, total, "SUCCESS", "", "", "")
  }

  lemma PayWholeOrder(sn: string, req: CreateReq, homestay: Homestay, userId: int, paySn: string) returns (moves: seq<SysMove>)
    ensures AllConcern(moves, sn, paySn)
    ensures IsOnlyOrder(SysRun(moves).orders, sn, BuildOrder(req, homestay))
    ensures var total := BuildOrder(req, homestay).orderTotalPrice;
      IsPaidStage(SysRun(moves).payments, NewPayment(userId, WECHAT_PAY, total, sn), PaidNotice(paySn, total))
  {
    var body := BuildOrder(req, homestay);
    var n := PaidNotice(paySn, body.orderTotalPrice);
    var payment := NewPayment(userId, WECHAT_PAY, body.orderTotalPrice, sn);
    var priced := PriceStage(sn, paySn, req, homestay);
    var recorded := RecordStage(priced, sn, body, userId, n);
    var read := ReadStage(recorded, sn, payment, n);
    moves := SettleStage(read, sn, payment, n);
  }

  /** Every order, of any price, can be placed and then paid in full, and the payment is published. */
  lemma EveryOrderCanBePaid(sn: string, req: CreateReq, homestay: Homestay, userId: int, paySn: string) returns (moves: seq<SysMove>)
    ensures var sys := SysRun(moves);
      && LiveRow(sys.orders.store.table, 1).Some?
      && IsAsRequested(sys.orders.store.table[1].body, req, homestay) && sys.orders.store.table[1].keys == {sn}
      && LiveRow(sys.payments.store.table, 1).Some?
      && var payment := sys.payments.store.table[1].body;
         && payment.orderSn == sn && payment.userId == userId && payment.payMode == "WECHAT_PAY"
         && payment.serviceType == "homestayOrder" && payment.payStatus == 1
         && payment.payTotal == sys.orders.store.table[1].body.orderTotalPrice
         && sys.payments.outbox == [Notice(1, sys.payments.store.table[1])]
  {
    moves := PayWholeOrder(sn, req, homestay, userId, paySn);
    BuiltAsRequested(req, homestay);
  }
}
