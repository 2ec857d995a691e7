/**
 The worst case of the mismatched serials, as a run of the whole system: for every order there is a run in which
 it is paid in full, its message is published and consumed in vain, and the close job cancels it.
 */
module FateReach {
  import opened Wrappers
  import opened CacheAside
  import opened CacheCoherence
  import opened OptimisticLock
  import opened LockSafety
  import opened SequentialCall
  import opened TradeState
  import opened OrderServices
  import opened PaymentServices
  import opened PaymentFlow
  import opened PaymentChain
  import opened OrderFate
  import PaymentReach
  import PaymentState

  lemma FateAppends(moves: seq<FateMove>, move: FateMove)
    ensures FateRun(moves + [move]) == FateNext(FateRun(moves), move)
  {
    assert (moves + [move])[..|moves|] == moves;
  }

  /** A run of orders and payments under proper serials is a run of the whole system. */
  lemma {:induction false} ChainRuns(chain: seq<SysMove>, sn: string, paySn: string) returns (moves: seq<FateMove>)
    requires IsOrderSn(sn) && IsPaymentSn(paySn) && PaymentReach.AllConcern(chain, sn, paySn)
    ensures FateRun(moves) == Fate(SysRun(chain), map[])
    decreases |chain|
  {
    if chain == [] {
      moves := [];
    } else {
      var last := |chain| - 1;
      assert PaymentReach.Concerns(chain[last], sn, paySn);
      var before := ChainRuns(chain[..last], sn, paySn);
      FateAppends(before, Chain(chain[last]));
      moves := before + [Chain(chain[last])];
    }
  }

  /** Extends a run by the moves of one order call. */
  lemma {:induction false} OrderCallRuns(before: seq<FateMove>, c: nat, states: seq<OrderState>) returns (moves: seq<FateMove>)
    requires SoloFrom(OrderDecide, c, states, FateRun(before).chain.orders)
    ensures FateRun(moves) == FateRun(before).(chain := FateRun(before).chain.(orders := Last(states)))
    decreases |states|
  {
    var last := |states| - 1;
    if last == 0 {
      moves := before;
    } else {
      assert states[last - 1 + 1] == Next(OrderDecide, states[last - 1], Advance(c));
      moves := OrderCallRuns(before, c, states[..last]);
      FateAppends(moves, Chain(OtherOrder(Advance(c))));
      moves := moves + [Chain(OtherOrder(Advance(c)))];
    }
  }

  lemma OrdersKeepInv(moves: seq<FateMove>)
    ensures Inv(OrderDecide, FateRun(moves).chain.orders)
  {
    FateRunKeepsInv(moves);
  }

  /** The one order is stored as it was placed, and the one payment message is out. */
  ghost predicate IsPaid(fate: Fate, sn: string, body: OrderBody, paySn: string) {
    var st := fate.chain.payments;
    && PaymentReach.IsOnlyOrder(fate.chain.orders, sn, body)
    && |st.outbox| == 1 && st.outbox[0].call in st.calls
    && MessageOf(st, st.outbox[0]) == Message(paySn, PaymentState.SUCCESS)
    && fate.closers == map[]
  }

  /** The consumer has asked the order service about the serial in the message, and there is no such order. */
  ghost predicate IsConsumed(fate: Fate, sn: string, body: OrderBody) {
    var st := fate.chain.orders;
    && KeyExact(st.store) && st.store.table == map[1 := Row(1, DEL_STATE_NO, 0, {sn}, body)]
    && st.calls.Keys == {0, 1} && st.calls[1].phase == Returned(Missing) && st.calls[1].job == UpdateJob(WAIT_USE)
    && fate.closers == map[]
  }

  lemma StartConsuming(fate: Fate, sn: string, body: OrderBody, paySn: string)
    requires IsPaid(fate, sn, body, paySn)
    ensures var fate' := FateNext(fate, Consume(0, 1));
      && fate'.closers == map[] && fate'.chain.payments == fate.chain.payments
      && fate'.chain.orders == SetCall(fate.chain.orders, 1, Call(paySn, UpdateJob(WAIT_USE), Loading(AtKey(paySn))))
  {
  }

  lemma ConsumeStage(before: seq<FateMove>, sn: string, body: OrderBody, paySn: string) returns (moves: seq<FateMove>)
    requires IsPaid(FateRun(before), sn, body, paySn) && IsOrderSn(sn) && IsPaymentSn(paySn)
    ensures IsConsumed(FateRun(moves), sn, body) && FateRun(moves).chain.payments == FateRun(before).chain.payments
  {
    StartConsuming(FateRun(before), sn, body, paySn);
    FateAppends(before, Consume(0, 1));
    var asked := before + [Consume(0, 1)];
    var st := FateRun(asked).chain.orders;
    OrdersKeepInv(asked);
    SerialsDiffer(sn);
    CallWithoutHolder(OrderDecide, st.store, paySn, WAIT_USE);
    var states := SoloCallIsUpdateCall(OrderDecide, st, 1, paySn, WAIT_USE);
    moves := OrderCallRuns(asked, 1, states);
  }

  /** The close job has read the order, which still waits. */
  ghost predicate IsClosing(fate: Fate, sn: string, body: OrderBody) {
    var st := fate.chain.orders;
    && KeyExact(st.store) && st.store.table == map[1 := Row(1, DEL_STATE_NO, 0, {sn}, body)]
    && st.calls.Keys == {0, 1, 2} && st.calls[1].phase == Returned(Missing) && st.calls[1].job == UpdateJob(WAIT_USE)
    && fate.closers == map[0 := Closing(sn, 2)]
    && ReadRow(st, 2) == Some(st.store.table[1])
  }

  lemma CloseStage(before: seq<FateMove>, sn: string, body: OrderBody) returns (moves: seq<FateMove>)
    requires IsConsumed(FateRun(before), sn, body)
    ensures IsClosing(FateRun(moves), sn, body) && FateRun(moves).chain.payments == FateRun(before).chain.payments
  {
    FateAppends(before, StartClose(0, sn, 2));
    var started := before + [StartClose(0, sn, 2)];
    var st := FateRun(started).chain.orders;
    assert HoldsKey(st.store.table, 1, sn);
    FindByKeyIsExactIff(st.store, sn);
    KeyHolderIsUnique(st.store, 1, sn);
    ApplyKeepsKeyExact(st.store, OpFindByKey(sn));
    var states := SoloReadReturns(OrderDecide, st, 2, sn);
    moves := OrderCallRuns(started, 2, states);
  }

  lemma StartCancelling(fate: Fate, sn: string, body: OrderBody)
    requires IsClosing(fate, sn, body) && body.tradeState == WAIT_PAY
    ensures var fate' := FateNext(fate, ContinueClose(0, 3));
      && fate'.chain.payments == fate.chain.payments
      && fate'.chain.orders == SetCall(fate.chain.orders, 3, Call(sn, UpdateJob(CANCEL), Loading(AtKey(sn))))
  {
  }

  lemma OnlyOrderIsCancelled(s: Store<string, OrderBody>, sn: string, body: OrderBody)
    requires KeyExact(s) && s.table == map[1 := Row(1, DEL_STATE_NO, 0, {sn}, body)] && body.tradeState == WAIT_PAY
    ensures UpdateCall(OrderDecide, s, sn, CANCEL).0.table == map[1 := Row(1, DEL_STATE_NO, 1, {sn}, body.(tradeState := CANCEL))]
  {
    assert HoldsKey(s.table, 1, sn);
    ExactCallAppliesRule(OrderDecide, s, sn, CANCEL, 1);
  }

  lemma CancelStage(before: seq<FateMove>, sn: string, body: OrderBody) returns (moves: seq<FateMove>)
    requires IsClosing(FateRun(before), sn, body) && body.tradeState == WAIT_PAY
    ensures FateRun(moves).chain.payments == FateRun(before).chain.payments
    ensures var st := FateRun(moves).chain.orders;
      && st.store.table == map[1 := Row(1, DEL_STATE_NO, 1, {sn}, body.(tradeState := CANCEL))]
      && 1 in st.calls && st.calls[1].phase == Returned(Missing) && st.calls[1].job == UpdateJob(WAIT_USE)
  {
    StartCancelling(FateRun(before), sn, body);
    FateAppends(before, ContinueClose(0, 3));
    var asked := before + [ContinueClose(0, 3)];
    var st := FateRun(asked).chain.orders;
    OrdersKeepInv(asked);
    OnlyOrderIsCancelled(st.store, sn, body);
    var states := SoloCallIsUpdateCall(OrderDecide, st, 3, sn, CANCEL);
    moves := OrderCallRuns(asked, 3, states);
  }

  lemma PayStage(sn: string, req: CreateReq, homestay: Homestay, userId: int, paySn: string) returns (moves: seq<FateMove>)
    requires IsOrderSn(sn) && IsPaymentSn(paySn)
    ensures IsPaid(FateRun(moves), sn, BuildOrder(req, homestay), paySn)
    ensures var total := BuildOrder(req, homestay).orderTotalPrice;
      PaymentReach.IsPaidStage(FateRun(moves).chain.payments, NewPayment(userId, WECHAT_PAY, total, sn),
                               PaymentReach.PaidNotice(paySn, total))
  {
    var chain := PaymentReach.PayWholeOrder(sn, req, homestay, userId, paySn);
    moves := ChainRuns(chain, sn, paySn);
  }

  /**
   Every order, of any price, can be paid in full and then be cancelled: the consumer asks for it under the
   payment's serial, finds no such order, and the close job finds it still waiting.
   */
  lemma EveryOrderCanBePaidAndCancelled(sn: string, req: CreateReq, homestay: Homestay, userId: int, paySn: string) returns (moves: seq<FateMove>)
    requires IsOrderSn(sn) && IsPaymentSn(paySn)
    ensures var chain := FateRun(moves).chain;
      && LiveRow(chain.payments.store.table, 1).Some?
      && chain.payments.store.table[1].body.orderSn == sn && chain.payments.store.table[1].body.payStatus == 1
      && chain.payments.outbox == [Notice(1, chain.payments.store.table[1])]
      && 1 in chain.orders.calls && chain.orders.calls[1].phase == Returned(Missing) && chain.orders.calls[1].job == UpdateJob(1)
      && LiveRow(chain.orders.store.table, 1).Some?
      && chain.orders.store.table[1].keys == {sn} && chain.orders.store.table[1].body.tradeState == -1
      && chain.orders.store.table[1].body.orderTotalPrice == chain.payments.store.table[1].body.payTotal
  {
    var body := BuildOrder(req, homestay);
    var paid := PayStage(sn, req, homestay, userId, paySn);
    var consumed := ConsumeStage(paid, sn, body, paySn);
    var closing := CloseStage(consumed, sn, body);
    moves := CancelStage(closing, sn, body);
  }
}
