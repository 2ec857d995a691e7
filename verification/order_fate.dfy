/**
 What the published messages ever do to orders. The system of PaymentChain, with the consumer of payment
 messages and the close job added, and with order and payment serials drawn as they are generated: under
 different prefixes. Messages may be delivered at any time, any number of times, in any order.
 */
module OrderFate {
  import opened Wrappers
  import opened CacheAside
  import opened OptimisticLock
  import opened LockSafety
  import opened LockTheorems
  import opened TradeState
  import opened OrderServices
  import opened PaymentServices
  import opened PaymentChain
  import PaymentState

  predicate IsOrderSn(sn: string) {
    "HSO" <= sn
  }

  predicate IsPaymentSn(sn: string) {
    "PMT" <= sn
  }

  lemma SerialsDiffer(sn: string)
    requires IsOrderSn(sn)
    ensures !IsPaymentSn(sn)
  {
    assert sn[0] == 'H';
  }

  /** A close job that waits for the order it reads, or has asked for the cancellation. */
  datatype Closer = Closing(sn: string, call: nat) | Asked(sn: string)

  datatype Fate = Fate(chain: System, closers: map<nat, Closer>)

  datatype FateMove =
    | Chain(move: SysMove)
    | Consume(notice: nat, call: nat)
    | StartClose(w: nat, sn: string, call: nat)
    | ContinueClose(w: nat, call: nat)

  /** Serials carry their prefix, and nobody but the consumer and the close job asks for a state of an order. */
  predicate Allowed(move: SysMove) {
    match move
    case Place(sn, _, _) => IsOrderSn(sn)
    case RecordPayment(_, _, sn) => IsPaymentSn(sn)
    case OtherOrder(m) => m.Spawn? ==> m.job.ReadJob?
    case _ => true
  }

  /** The message that announces a commit: the serial that the call named, and the new status. */
  function MessageOf(st: PayState, notice: Notice<string, PayBody>): Message
    requires notice.call in st.calls
  {
    Message(st.calls[notice.call].key, notice.row.body.payStatus)
  }

  ghost function FateNext(fate: Fate, move: FateMove): Fate {
    match move
    case Chain(m) => if Allowed(m) then fate.(chain := SysNext(fate.chain, m)) else fate
    case Consume(i, c) =>
      var payments := fate.chain.payments;
      if i < |payments.outbox| && payments.outbox[i].call in payments.calls && c !in fate.chain.orders.calls then
        ConsumeMessage(fate, MessageOf(payments, payments.outbox[i]), c)
      else
        fate
    case StartClose(w, sn, c) =>
      if w in fate.closers || c in fate.chain.orders.calls then fate
      else
        Fate(OrderStep(fate.chain, Spawn(c, sn, ReadJob)), fate.closers[w := Closing(sn, c)])
    case ContinueClose(w, c) =>
      if w in fate.closers && fate.closers[w].Closing? && c !in fate.chain.orders.calls then
        CloseRead(fate, w, fate.closers[w].sn, fate.closers[w].call, c)
      else
        fate
  }

  ghost function ConsumeMessage(fate: Fate, message: Message, c: nat): Fate {
    var req := MapPayStatus(message.payStatus);
    if req == IGNORE then fate
    else fate.(chain := OrderStep(fate.chain, Spawn(c, message.orderSn, UpdateJob(req))))
  }

  ghost function CloseRead(fate: Fate, w: nat, sn: string, call: nat, c: nat): Fate {
    var calls := fate.chain.orders.calls;
    if call in calls && calls[call].phase.Returned? && calls[call].phase.outcome.Read?
       && DetailOf(calls[call].phase.outcome.found).tradeState == WAIT_PAY then
      Fate(OrderStep(fate.chain, Spawn(c, sn, UpdateJob(CANCEL))), fate.closers[w := Asked(sn)])
    else
      fate
  }

  ghost function FateRun(moves: seq<FateMove>): Fate {
    if moves == [] then Fate(Initial(), map[]) else FateNext(FateRun(moves[..|moves| - 1]), moves[|moves| - 1])
  }

  // ----- what every move keeps -----

  ghost predicate OrderSns(st: OrderState) {
    forall id <- st.store.table.Keys :: forall key <- st.store.table[id].keys :: IsOrderSn(key)
  }

  ghost predicate PaymentSns(st: PayState) {
    forall id <- st.store.table.Keys :: forall key <- st.store.table[id].keys :: IsPaymentSn(key)
  }

  /** The call only reads, or cancels, or names a serial that no order has. */
  ghost predicate Harmless(call: Call<string, OrderBody, int>) {
    call.job.UpdateJob? ==> call.job.req == CANCEL || IsPaymentSn(call.key)
  }

  ghost predicate CallsHarmless(st: OrderState) {
    forall c <- st.calls.Keys :: Harmless(st.calls[c])
  }

  ghost predicate FateInv(chain: System) {
    && OrdersInv(chain.orders) && OrderSns(chain.orders) && CallsHarmless(chain.orders)
    && PaymentState.PaymentsInv(chain.payments) && PaymentSns(chain.payments)
  }

  lemma OrderMoveKeepsSns(st: OrderState, move: OrderMove)
    requires OrdersInv(st) && OrderSns(st)
    requires move.Create? ==> forall key <- move.keys :: IsOrderSn(key)
    ensures OrderSns(Next(OrderDecide, st, move))
  {
    var table' := Next(OrderDecide, st, move).store.table;
    forall id <- table'.Keys ensures forall key <- table'[id].keys :: IsOrderSn(key) {
      OrderMoveKeepsTerms(st, move, id);
    }
  }

  lemma OrderMoveKeepsHarmless(st: OrderState, move: OrderMove)
    requires CallsHarmless(st)
    requires move.Spawn? && move.job.UpdateJob? ==> move.job.req == CANCEL || IsPaymentSn(move.key)
    ensures CallsHarmless(Next(OrderDecide, st, move))
  {
    var calls' := Next(OrderDecide, st, move).calls;
    forall c <- calls'.Keys ensures Harmless(calls'[c]) {
      CallsKeepTheirTerms(OrderDecide, st, move, c);
      assert c in st.calls ==> Harmless(st.calls[c]);
    }
  }

  lemma PayMoveKeepsSns(st: PayState, move: PayMove)
    requires PaymentState.PaymentsInv(st) && PaymentSns(st)
    requires move.Create? ==> forall key <- move.keys :: IsPaymentSn(key)
    ensures PaymentSns(Next(PaymentState.PayDecide, st, move))
  {
    var table' := Next(PaymentState.PayDecide, st, move).store.table;
    forall id <- table'.Keys ensures forall key <- table'[id].keys :: IsPaymentSn(key) {
      if id in st.store.table {
        EveryStepFollowsRule(PaymentState.PayDecide, st, move, id);
      } else {
        BornWithVersionZero(PaymentState.PayDecide, st, move, id);
      }
    }
  }

  lemma OrderStepKeepsFateInv(chain: System, move: OrderMove)
    requires FateInv(chain)
    requires move.Create? ==> move.body.tradeState == WAIT_PAY && forall key <- move.keys :: IsOrderSn(key)
    requires move.Spawn? && move.job.UpdateJob? ==> move.job.req == CANCEL || IsPaymentSn(move.key)
    ensures FateInv(OrderStep(chain, move))
  {
    NextKeepsOrdersInv(chain.orders, move);
    OrderMoveKeepsSns(chain.orders, move);
    OrderMoveKeepsHarmless(chain.orders, move);
  }

  lemma PayStepKeepsFateInv(chain: System, move: PayMove)
    requires FateInv(chain)
    requires move.Create? ==> move.body.payStatus == PaymentState.WAIT && forall key <- move.keys :: IsPaymentSn(key)
    ensures FateInv(PayStep(chain, move))
  {
    PaymentState.NextKeepsPaymentsInv(chain.payments, move);
    PayMoveKeepsSns(chain.payments, move);
  }

  lemma ChainKeepsFateInv(chain: System, move: SysMove)
    requires FateInv(chain) && Allowed(move)
    ensures FateInv(SysNext(chain, move))
  {
    match move
    case Place(sn, req, homestay) => OrderStepKeepsFateInv(chain, Create({sn}, BuildOrder(req, homestay)));
    case OtherOrder(m) => if !m.Create? { OrderStepKeepsFateInv(chain, m); }
    case OtherPayment(m) => if !m.Create? { PayStepKeepsFateInv(chain, m); }
    case StartPrepay(_, orderSn, c) => OrderStepKeepsFateInv(chain, Spawn(c, orderSn, ReadJob));
    case RecordPayment(w, userId, sn) =>
      if w in chain.prepays && chain.prepays[w].Pricing? { RecordKeepsFateInv(chain, w, chain.prepays[w], userId, sn); }
    case StartCallback(_, n, c) => PayStepKeepsFateInv(chain, Spawn(c, n.outTradeNo, ReadJob));
    case ContinueCallback(w, c) =>
      if w in chain.handlers && chain.handlers[w].Looking? && c !in chain.payments.calls {
        SettleKeepsFateInv(chain, w, chain.handlers[w], c);
      }
  }

  lemma RecordKeepsFateInv(chain: System, w: nat, prepay: Prepay, userId: int, sn: string)
    requires FateInv(chain) && prepay.Pricing? && IsPaymentSn(sn)
    ensures FateInv(RecordStep(chain, w, prepay, userId, sn))
  {
    var detail := DetailOf(ReadRow(chain.orders, prepay.call));
    PayStepKeepsFateInv(chain, Create({sn}, NewPayment(userId, WECHAT_PAY, detail.orderTotalPrice, prepay.orderSn)));
  }

  lemma SettleKeepsFateInv(chain: System, w: nat, handler: Handler, c: nat)
    requires FateInv(chain)
    ensures FateInv(SettleStep(chain, w, handler, c))
  {
    PayStepKeepsFateInv(chain, Spawn(c, handler.n.outTradeNo, UpdateJob(RequestOf(handler.n))));
  }

  /** Whatever is published names a payment. */
  lemma MessageNamesPayment(st: PayState, i: nat)
    requires PaymentState.PaymentsInv(st) && PaymentSns(st) && i < |st.outbox|
    ensures st.outbox[i].call in st.calls && IsPaymentSn(MessageOf(st, st.outbox[i]).orderSn)
  {
    var notice := st.outbox[i];
    assert NoticeInv(PaymentState.PayDecide, st, notice);
    var key := st.calls[notice.call].key;
    assert key in st.store.table[notice.row.id].keys;
  }

  lemma ConsumeKeepsInv(fate: Fate, i: nat, c: nat)
    requires FateInv(fate.chain)
    ensures FateInv(FateNext(fate, Consume(i, c)).chain)
  {
    var payments := fate.chain.payments;
    if i < |payments.outbox| && c !in fate.chain.orders.calls {
      MessageNamesPayment(payments, i);
      var message := MessageOf(payments, payments.outbox[i]);
      OrderStepKeepsFateInv(fate.chain, Spawn(c, message.orderSn, UpdateJob(MapPayStatus(message.payStatus))));
    }
  }

  lemma CloseKeepsInv(fate: Fate, w: nat, sn: string, call: nat, c: nat)
    requires FateInv(fate.chain)
    ensures FateInv(CloseRead(fate, w, sn, call, c).chain)
  {
    OrderStepKeepsFateInv(fate.chain, Spawn(c, sn, UpdateJob(CANCEL)));
  }

  lemma FateNextKeepsInv(fate: Fate, move: FateMove)
    requires FateInv(fate.chain)
    ensures FateInv(FateNext(fate, move).chain)
  {
    match move
    case Chain(m) => if Allowed(m) { ChainKeepsFateInv(fate.chain, m); }
    case Consume(i, c) => ConsumeKeepsInv(fate, i, c);
    case StartClose(_, sn, c) => OrderStepKeepsFateInv(fate.chain, Spawn(c, sn, ReadJob));
    case ContinueClose(w, c) =>
      if w in fate.closers && fate.closers[w].Closing? {
        CloseKeepsInv(fate, w, fate.closers[w].sn, fate.closers[w].call, c);
      }
  }

  lemma InitialFateInv()
    ensures FateInv(Initial())
  {
  }

  lemma {:induction false} FateRunKeepsInv(moves: seq<FateMove>)
    ensures FateInv(FateRun(moves).chain)
    decreases |moves|
  {
    if moves == [] {
      InitialFateInv();
    } else {
      FateRunKeepsInv(moves[..|moves| - 1]);
      FateNextKeepsInv(FateRun(moves[..|moves| - 1]), moves[|moves| - 1]);
    }
  }

  // ----- no order is ever released -----

  /** The call that stored a later version of an order named that order, so it asked for cancellation. */
  lemma OnlyCancellationsCommit(chain: System, id: int, v: nat)
    requires FateInv(chain) && id in chain.orders.trail && 0 < v < |chain.orders.trail[id]|
    ensures Trade(chain.orders.trail[id][v]) == CANCEL
  {
    var st := chain.orders;
    CommitterAskedForState(st, id, v);
    var c := st.commits[id][v - 1].call;
    assert CommittedRow(st.calls[c].phase) == Some(st.trail[id][v - 1 + 1]);
    assert CallInv(OrderDecide, st, c, st.calls[c]);
    var key := st.calls[c].key;
    assert key in st.store.table[id].keys;
    SerialsDiffer(key);
    assert Harmless(st.calls[c]);
  }

  function Trades(rows: seq<OrderRow>): seq<int> {
    seq(|rows|, i requires 0 <= i < |rows| => Trade(rows[i]))
  }

  lemma CancelledOnce(chain: System, id: int)
    requires FateInv(chain) && id in chain.orders.trail
    ensures var states := Trades(chain.orders.trail[id]); states == [WAIT_PAY] || states == [WAIT_PAY, CANCEL]
  {
    var rows := chain.orders.trail[id];
    OrdersInvGivesTrail(chain.orders, id);
    if |rows| > 1 {
      OnlyCancellationsCommit(chain, id, 1);
    }
    if |rows| > 2 {
      OrderTrailShape(rows, 2);
      OnlyCancellationsCommit(chain, id, 2);
    }
  }

  /**
   In every run, however many payments succeed and however often their messages arrive, every order waits for
   payment, or waited and was cancelled. None is released, refunded or used.
   */
  lemma EveryOrderWaitsOrIsCancelled(moves: seq<FateMove>, id: int)
    requires id in FateRun(moves).chain.orders.trail
    ensures var states := Trades(FateRun(moves).chain.orders.trail[id]); states == [WAIT_PAY] || states == [WAIT_PAY, CANCEL]
  {
    FateRunKeepsInv(moves);
    CancelledOnce(FateRun(moves).chain, id);
  }

  /** A notification would be about an order released for use. */
  lemma NoticeIsRelease(st: OrderState, i: nat)
    requires OrdersInv(st) && i < |st.outbox|
    ensures var row := st.outbox[i].row;
      && Trade(row) == WAIT_USE
      && row.id in st.trail && 0 < row.version < |st.trail[row.id]| && st.trail[row.id][row.version] == row
  {
    var notice := st.outbox[i];
    assert NoticeInv(OrderDecide, st, notice);
    assert CallInv(OrderDecide, st, notice.call, st.calls[notice.call]);
  }

  /** So no customer is ever told that a payment succeeded. */
  lemma NobodyIsNotified(moves: seq<FateMove>)
    ensures FateRun(moves).chain.orders.outbox == []
  {
    FateRunKeepsInv(moves);
    var chain := FateRun(moves).chain;
    if chain.orders.outbox != [] {
      NoticeIsRelease(chain.orders, 0);
      OnlyCancellationsCommit(chain, chain.orders.outbox[0].row.id, chain.orders.outbox[0].row.version);
    }
  }
}
