/**
 The payment service and its two clients, run one call at a time: the prepay request, which records
 what an order costs, and the callback that reports what was paid.
 */
module PaymentServices {
  import opened Wrappers
  import opened CacheAside
  import opened CachedModels
  import opened OptimisticLock
  import opened SequentialCall
  import opened OrderServices
  import PaymentState

  type PayBody = PaymentState.PayBody
  type PayReq = PaymentState.PayReq
  type PayRow = PaymentState.PayRow

  datatype PaymentError =
    | DbFailure
    | PaymentNotExists
    | RefundNeedsSuccess
    | StatusNotSupported
    | StatusUpdateFailed
    | BusinessNotSupported
    | OrderToPayNotExists
    | NoWechatAuth

  const HOMESTAY_ORDER := "homestayOrder"
  const WECHAT_PAY := "WECHAT_PAY"

  /** The answer to a payment lookup; all zero when there is no such payment. */
  datatype PaymentDetail = PaymentDetail(id: int, payTotal: int, payStatus: int)

  /** A parsed and verified notification. */
  datatype Notification = Notification(
    outTradeNo: string,
    payerTotal: int,
    tradeState: string,
    transactionId: string,
    tradeType: string,
    tradeStateDesc: string)

  function NewPayment(userId: int, payMode: string, payTotal: int, orderSn: string): PayBody {
    PaymentState.PayBody(userId, payMode, "", "", payTotal, "", "", orderSn, HOMESTAY_ORDER, PaymentState.WAIT, 0)
  }

  function NewPaymentRow(sn: string, body: PayBody): PayRow {
    Row(0, DEL_STATE_NO, 0, {sn}, body)
  }

  /** One more payment, unpaid and of the homestay kind, with these columns and no others set. */
  ghost predicate Records(before: Store<string, PayBody>, after: Store<string, PayBody>, sn: string, userId: int, payMode: string,
                          payTotal: int, orderSn: string)
  {
    var id := before.nextId;
    && after.table == before.table[id := Row(id, 0, 0, {sn},
         PaymentState.PayBody(userId, payMode, "", "", payTotal, "", "", orderSn, "homestayOrder", 0, 0))]
    && after.nextId == id + 1
  }

  function PaymentDetailOf(found: Option<PayRow>): PaymentDetail {
    match found
    case None => PaymentDetail(0, 0, 0)
    case Some(row) => PaymentDetail(row.id, row.body.payTotal, row.body.payStatus)
  }

  function MapWxTradeState(tradeState: string): int {
    if tradeState == "SUCCESS" then PaymentState.SUCCESS
    else if tradeState == "USERPAYING" || tradeState == "REFUND" then PaymentState.WAIT
    else PaymentState.FAIL
  }

  /** The callback leaves the pay time unset. */
  function RequestOf(n: Notification): PayReq {
    PaymentState.PayReq(n.tradeState, n.transactionId, n.tradeType, n.tradeStateDesc, MapWxTradeState(n.tradeState), 0)
  }

  function AnswerPayment(outcome: Outcome<string, PayBody>, req: PayReq): Result<(), PaymentError> {
    match outcome
    case Missing => Err(PaymentNotExists)
    case Unchanged(_) => Ok(())
    case Refused => Err(if req.payStatus == PaymentState.REFUND then RefundNeedsSuccess else StatusNotSupported)
    case Committed(_) => Ok(())
    case _ => Err(StatusUpdateFailed)
  }

  /** What the notification asks of the payment a lookup found. */
  datatype Verdict = Reject | Ignore | Accept

  function Judge(n: Notification, detail: PaymentDetail): Verdict {
    if detail.id == 0 || detail.payTotal != n.payerTotal then Reject
    else if MapWxTradeState(n.tradeState) == PaymentState.SUCCESS && detail.payStatus == PaymentState.WAIT then Accept
    else Ignore
  }

  /** The callback: the store it leaves, whether it reports success, and what it publishes. */
  ghost function Callback(s: Store<string, PayBody>, n: Notification): (Store<string, PayBody>, bool, seq<Message>) {
    var (s1, found) := FindByKey(s, n.outTradeNo);
    match Judge(n, PaymentDetailOf(found))
    case Reject => (s1, false, [])
    case Ignore => (s1, true, [])
    case Accept =>
      var (s2, outcome) := UpdateCall(PaymentState.PayDecide, s1, n.outTradeNo, RequestOf(n));
      (s2, AnswerPayment(outcome, RequestOf(n)).Ok?, Announced(outcome, n.outTradeNo, PaymentState.SUCCESS))
  }

  /** The message names the payment's own serial in its order field. */
  function Announced(outcome: Outcome<string, PayBody>, sn: string, payStatus: int): seq<Message> {
    if outcome.Committed? then [Message(sn, payStatus)] else []
  }

  /** `published` holds what was handed to the message broker; when it is not taken, that is only logged. */
  class PaymentService {
    const payments: CachedModel<string, PayBody>
    var published: seq<Message>

    constructor (payments: CachedModel<string, PayBody>)
      ensures this.payments == payments && published == []
    {
      this.payments := payments;
      published := [];
    }

    /** `sn` is the serial generated for the payment. */
    method CreatePayment(userId: int, payMode: string, payTotal: int, orderSn: string, sn: string) returns (r: Result<string, PaymentError>)
      requires payments.Valid()
      modifies payments
      ensures payments.Valid()
      ensures var (s, reply) := Insert(old(payments.State()), NewPaymentRow(sn, NewPayment(userId, payMode, payTotal, orderSn)));
        && payments.State() == s
        && r == if reply.Inserted? then Ok(sn) else Err(DbFailure)
      ensures if r.Ok? then Records(old(payments.State()), payments.State(), sn, userId, payMode, payTotal, orderSn)
              else payments.table == old(payments.table)
    {
      var data := new Record(Row(0, DEL_STATE_NO, 0, {}, PaymentState.PayBody(0, "", "", "", 0, "", "", "", "", 0, 0)));
      data.row := data.row.(
        keys := {sn},
        body := data.row.body.(
          userId := userId,
          payMode := payMode,
          payTotal := payTotal,
          orderSn := orderSn,
          serviceType := HOMESTAY_ORDER));
      var reply := payments.Insert(data);
      if !reply.Inserted? {
        return Err(DbFailure);
      }
      return Ok(sn);
    }

    method GetPaymentBySn(sn: string) returns (detail: PaymentDetail)
      requires payments.Valid()
      modifies payments
      ensures payments.Valid()
      ensures payments.State() == FindByKey(old(payments.State()), sn).0
      ensures detail == PaymentDetailOf(FindByKey(old(payments.State()), sn).1)
    {
      var found := payments.FindOneByKey(sn);
      detail := PaymentDetail(0, 0, 0);
      if found.Some? {
        detail := PaymentDetail(found.value.id, found.value.body.payTotal, found.value.body.payStatus);
      }
    }

    /** The six assignments to the caller's copy, and the attempt to store it. */
    method StoreStatus(thirdPayment: Record<string, PayBody>, req: PayReq) returns (reply: Reply<string, PayBody>)
      requires payments.Valid()
      modifies payments, thirdPayment
      ensures payments.Valid()
      ensures var changed := old(thirdPayment.row).(body := PaymentState.Changed(req, old(thirdPayment.row).body));
        && (payments.State(), reply) == UpdateWithVersion(old(payments.State()), changed)
        && thirdPayment.row == changed.(version := changed.version + 1)
    {
      thirdPayment.row := thirdPayment.row.(body := thirdPayment.row.body.(
        tradeState := req.tradeState,
        transactionId := req.transactionId,
        tradeType := req.tradeType,
        tradeStateDesc := req.tradeStateDesc,
        payStatus := req.payStatus,
        payTime := req.payTime));
      reply := payments.UpdateWithVersion(thirdPayment);
    }

    method UpdateTradeState(sn: string, req: PayReq) returns (r: Result<(), PaymentError>)
      requires payments.Valid()
      modifies this, payments
      ensures payments.Valid()
      ensures var (s, outcome) := UpdateCall(PaymentState.PayDecide, old(payments.State()), sn, req);
        && payments.State() == s
        && r == AnswerPayment(outcome, req)
        && published == old(published) + Announced(outcome, sn, req.payStatus)
    {
      var found := payments.FindOneByKey(sn);
      ghost var looked := payments.State();
      if found == None {
        return Err(PaymentNotExists);
      }
      var oldStatus := found.value.body.payStatus;
      if req.payStatus == PaymentState.SUCCESS || req.payStatus == PaymentState.FAIL {
        if oldStatus != PaymentState.WAIT {
          return Ok(());
        }
      } else if req.payStatus == PaymentState.REFUND {
        if oldStatus != PaymentState.SUCCESS {
          return Err(RefundNeedsSuccess);
        }
      } else {
        return Err(StatusNotSupported);
      }
      assert PaymentState.PayDecide(req, found.value.body) == Change(PaymentState.Changed(req, found.value.body), true);
      var thirdPayment := new Record(found.value);
      var reply := StoreStatus(thirdPayment, req);
      assert Settle(PaymentState.PayDecide, looked, req, found) == (payments.State(), OutcomeOf(reply, thirdPayment.row));
      if reply != Written {
        return Err(StatusUpdateFailed);
      }
      published := published + [Message(sn, req.payStatus)];
      return Ok(());
    }
  }

  /** `verifyAndUpdateState`; a false result makes the payment platform send the notification again. */
  method VerifyAndUpdateState(service: PaymentService, n: Notification) returns (ok: bool)
    requires service.payments.Valid()
    modifies service, service.payments
    ensures service.payments.Valid()
    ensures var (s, done, sent) := Callback(old(service.payments.State()), n);
      && service.payments.State() == s
      && ok == done
      && service.published == old(service.published) + sent
  {
    var detail := service.GetPaymentBySn(n.outTradeNo);
    if detail.id == 0 {
      return false;
    }
    var notifyPayTotal := n.payerTotal;
    if detail.payTotal != notifyPayTotal {
      return false;
    }
    var payStatus := MapWxTradeState(n.tradeState);
    if payStatus == PaymentState.SUCCESS {
      if detail.payStatus != PaymentState.WAIT {
        return true;
      }
      var r := service.UpdateTradeState(n.outTradeNo, RequestOf(n));
      if r.Err? {
        return false;
      }
    }
    return true;
  }

  /** The amount to pay for an order, read back from the order service. */
  method GetPayHomestayPrice(orders: OrderService, orderSn: string) returns (r: Result<int, PaymentError>)
    requires orders.orders.Valid()
    modifies orders.orders
    ensures orders.orders.Valid()
    ensures orders.orders.State() == FindByKey(old(orders.orders.State()), orderSn).0
    ensures var detail := DetailOf(FindByKey(old(orders.orders.State()), orderSn).1);
      r == if detail.id == 0 then Err(OrderToPayNotExists) else Ok(detail.orderTotalPrice)
  {
    var detail := orders.HomestayOrderDetail(orderSn);
    if detail.id == 0 {
      return Err(OrderToPayNotExists);
    }
    return Ok(detail.orderTotalPrice);
  }

  /**
   The prepay request up to the local payment record. `hasWechatAuth` is the user service's answer, and
   `sn` the serial generated for the payment.
   */
  method ThirdPaymentWxPay(orders: OrderService, service: PaymentService, serviceType: string, orderSn: string,
                           userId: int, hasWechatAuth: bool, sn: string)
    returns (r: Result<string, PaymentError>)
    requires orders.orders.Valid() && service.payments.Valid()
    requires orders.orders as object != service.payments as object
    modifies orders.orders, service.payments
    ensures orders.orders.Valid() && service.payments.Valid()
    ensures orders.orders.State().table == old(orders.orders.State().table)
    ensures serviceType != HOMESTAY_ORDER ==> r == Err(BusinessNotSupported)
    ensures serviceType == HOMESTAY_ORDER ==>
              var detail := DetailOf(FindByKey(old(orders.orders.State()), orderSn).1);
              var (s, reply) := Insert(old(service.payments.State()),
                                       NewPaymentRow(sn, NewPayment(userId, WECHAT_PAY, detail.orderTotalPrice, orderSn)));
              if detail.id == 0 then r == Err(OrderToPayNotExists)
              else if !hasWechatAuth then r == Err(NoWechatAuth)
              else service.payments.State() == s && r == if reply.Inserted? then Ok(sn) else Err(DbFailure)
    ensures r.Ok? ==> serviceType == "homestayOrder" && hasWechatAuth
    ensures r.Ok? ==>
              Records(old(service.payments.State()), service.payments.State(), sn, userId, "WECHAT_PAY",
                      DetailOf(FindByKey(old(orders.orders.State()), orderSn).1).orderTotalPrice, orderSn)
    ensures r.Err? ==> service.payments.table == old(service.payments.table)
    ensures r.Err? && r != Err(DbFailure) ==> service.payments.State() == old(service.payments.State())
  {
    var totalPrice;
    if serviceType == HOMESTAY_ORDER {
      var price := GetPayHomestayPrice(orders, orderSn);
      if price.Err? {
        return Err(price.error);
      }
      totalPrice := price.value;
    } else {
      return Err(BusinessNotSupported);
    }
    if !hasWechatAuth {
      return Err(NoWechatAuth);
    }
    r := service.CreatePayment(userId, WECHAT_PAY, totalPrice, orderSn, sn);
  }
}
