/**
 The order service, run one call at a time: creating an order, reading it, changing its trade state,
 the deferred close job, and the consumer of payment-status messages.
 */
module OrderServices {
  import opened Wrappers
  import opened CacheAside
  import opened CacheCoherence
  import opened CachedModels
  import opened OptimisticLock
  import opened SequentialCall
  import opened TradeState
  import opened StayPricing
  import opened Int64
  import PaymentState

  datatype OrderError =
    | StayTooShort
    | NoSuchHomestay
    | DbError
    | OrderNotExists
    | ChangeNotSupported
    | UpdateFailed

  datatype CreateReq = CreateReq(userId: int, homestayId: int, isFood: bool, liveStart: int, liveEnd: int, livePeopleNum: int)

  /** What the travel service answers about a homestay, as far as an order's price depends on it. */
  datatype Homestay = Homestay(homestayPrice: int, foodPrice: int)

  /** The answer to a detail request; all zero when there is no such order. */
  datatype OrderDetail = OrderDetail(id: int, tradeState: int, orderTotalPrice: int)

  /** The answer to a state change; all zero when the order already had the state. It does not repeat the state. */
  datatype UpdateResp = UpdateResp(id: int, userId: int, liveStart: int, liveEnd: int, orderTotalPrice: int)

  datatype Message = Message(orderSn: string, payStatus: int)

  /** The consumer's mark for "nothing to do". */
  const IGNORE := -99

  /** The order as stored: the days are counted between the requested instants, of which only the dates are kept. */
  function BuildOrder(req: CreateReq, homestay: Homestay): OrderBody {
    var days := LiveDays(req.liveStart, req.liveEnd);
    var homestayTotal := HomestayTotal(homestay.homestayPrice, days);
    var foodTotal := FoodTotal(req.isFood, homestay.foodPrice, req.livePeopleNum, days);
    OrderBody(req.userId, req.homestayId, WAIT_PAY, req.isFood, req.livePeopleNum,
              DayStart(req.liveStart), DayStart(req.liveEnd),
              homestay.homestayPrice, homestay.foodPrice, homestayTotal, foodTotal, Wrap(homestayTotal + foodTotal))
  }

  function NewOrderRow(sn: string, body: OrderBody): OrderRow {
    Row(0, DEL_STATE_NO, 0, {sn}, body)
  }

  /** What a request asks to be stored, given the travel service's answer. */
  predicate IsAsRequested(body: OrderBody, req: CreateReq, homestay: Homestay) {
    var days := LiveDays(req.liveStart, req.liveEnd);
    && body.userId == req.userId && body.homestayId == req.homestayId
    && body.tradeState == 0
    && body.needFood == req.isFood && body.livePeopleNum == req.livePeopleNum
    && IsDayOf(body.liveStart, req.liveStart) && IsDayOf(body.liveEnd, req.liveEnd)
    && body.homestayPrice == homestay.homestayPrice && body.foodPrice == homestay.foodPrice
    && body.homestayTotalPrice == Wrap(homestay.homestayPrice * days)
    && body.foodTotalPrice == (if req.isFood then Wrap(homestay.foodPrice * req.livePeopleNum * days) else 0)
    && body.orderTotalPrice == Wrap(DayRate(homestay.homestayPrice, req.isFood, homestay.foodPrice, req.livePeopleNum) * days)
  }

  /** From `before` to `after` one live row was added, under a new id and the given serial. */
  ghost predicate AddsRequested(before: Store<string, OrderBody>, after: Store<string, OrderBody>, sn: string, req: CreateReq, homestay: Homestay) {
    var id := before.nextId;
    && id !in before.table && id in after.table && after.nextId == id + 1
    && after.table == before.table[id := Row(id, 0, 0, {sn}, after.table[id].body)]
    && IsAsRequested(after.table[id].body, req, homestay)
  }

  lemma BuiltAsRequested(req: CreateReq, homestay: Homestay)
    ensures IsAsRequested(BuildOrder(req, homestay), req, homestay)
  {
    var days := LiveDays(req.liveStart, req.liveEnd);
    DayStartIsDayOf(req.liveStart);
    DayStartIsDayOf(req.liveEnd);
    WrapMul(homestay.foodPrice * req.livePeopleNum, days);
    OrderTotalIsRateTimesDays(homestay.homestayPrice, req.isFood, homestay.foodPrice, req.livePeopleNum, days);
  }

  /** An accepted order is the one that was asked for; a refused one leaves the table. */
  lemma InsertedAsRequested(s: Store<string, OrderBody>, sn: string, req: CreateReq, homestay: Homestay)
    requires WellFormed(s)
    ensures var (s', reply) := Insert(s, NewOrderRow(sn, BuildOrder(req, homestay)));
      if reply.Inserted? then AddsRequested(s, s', sn, req, homestay) else s'.table == s.table
  {
    BuiltAsRequested(req, homestay);
  }

  function DetailOf(found: Option<OrderRow>): OrderDetail {
    match found
    case None => OrderDetail(0, 0, 0)
    case Some(row) => OrderDetail(row.id, row.body.tradeState, row.body.orderTotalPrice)
  }

  function Answer(outcome: Outcome<string, OrderBody>): Result<UpdateResp, OrderError> {
    match outcome
    case Missing => Err(OrderNotExists)
    case Unchanged(_) => Ok(UpdateResp(0, 0, 0, 0, 0))
    case Refused => Err(ChangeNotSupported)
    case Committed(row) =>
      Ok(UpdateResp(row.id, row.body.userId, row.body.liveStart, row.body.liveEnd, row.body.orderTotalPrice))
    case _ => Err(UpdateFailed)
  }

  function MapPayStatus(payStatus: int): int {
    if payStatus == PaymentState.SUCCESS then WAIT_USE
    else if payStatus == PaymentState.REFUND then REFUND
    else IGNORE
  }

  /** The close job: whether it reports success, and the store it leaves. */
  ghost function CloseTask(s: Store<string, OrderBody>, sn: string): (Store<string, OrderBody>, bool) {
    var (s1, found) := FindByKey(s, sn);
    if DetailOf(found).tradeState == WAIT_PAY then
      var (s2, outcome) := UpdateCall(OrderDecide, s1, sn, CANCEL);
      (s2, Answer(outcome).Ok?)
    else
      (s1, true)
  }

  ghost function Deliver(s: Store<string, OrderBody>, message: Message): (Store<string, OrderBody>, bool) {
    var req := MapPayStatus(message.payStatus);
    if req == IGNORE then (s, true)
    else var (s', outcome) := UpdateCall(OrderDecide, s, message.orderSn, req); (s', Answer(outcome).Ok?)
  }

  /**
   `closeTasks` and `notices` hold what was handed to the queue; when the queue does not take it, the
   service only logs that and answers as before.
   */
  class OrderService {
    const orders: CachedModel<string, OrderBody>
    var closeTasks: seq<string>
    var notices: seq<OrderRow>

    constructor (orders: CachedModel<string, OrderBody>)
      ensures this.orders == orders && closeTasks == [] && notices == []
    {
      this.orders := orders;
      closeTasks, notices := [], [];
    }

    /** `sn` is the serial generated for the order; `homestay` is the travel service's answer. */
    method CreateHomestayOrder(req: CreateReq, homestay: Option<Homestay>, sn: string) returns (r: Result<string, OrderError>)
      requires orders.Valid()
      modifies this, orders
      ensures orders.Valid() && notices == old(notices)
      ensures req.liveEnd <= req.liveStart ==> r == Err(StayTooShort)
      ensures req.liveEnd > req.liveStart && homestay == None ==> r == Err(NoSuchHomestay)
      ensures req.liveEnd <= req.liveStart || homestay == None ==>
                orders.State() == old(orders.State()) && closeTasks == old(closeTasks)
      ensures req.liveEnd > req.liveStart && homestay.Some? ==>
                var (s, reply) := Insert(old(orders.State()), NewOrderRow(sn, BuildOrder(req, homestay.value)));
                && orders.State() == s
                && (reply.Inserted? ==> r == Ok(sn) && closeTasks == old(closeTasks) + [sn])
                && (!reply.Inserted? ==> r == Err(DbError) && closeTasks == old(closeTasks))
      ensures if r.Ok? then homestay.Some? && AddsRequested(old(orders.State()), orders.State(), sn, req, homestay.value)
              else orders.table == old(orders.table)
    {
      if req.liveEnd <= req.liveStart {
        return Err(StayTooShort);
      }
      if homestay == None {
        return Err(NoSuchHomestay);
      }
      var liveDays := LiveDays(req.liveStart, req.liveEnd);
      var homestayTotalPrice := Wrap(homestay.value.homestayPrice * liveDays);
      var needFood, foodTotalPrice := false, 0;
      if req.isFood {
        needFood := true;
        foodTotalPrice := Wrap(Wrap(homestay.value.foodPrice * req.livePeopleNum) * liveDays);
      }
      var orderTotalPrice := Wrap(homestayTotalPrice + foodTotalPrice);
      var order := new Record(NewOrderRow(sn,
        OrderBody(req.userId, req.homestayId, WAIT_PAY, needFood, req.livePeopleNum,
                  DayStart(req.liveStart), DayStart(req.liveEnd),
                  homestay.value.homestayPrice, homestay.value.foodPrice, homestayTotalPrice, foodTotalPrice, orderTotalPrice)));
      var reply := orders.Insert(order);
      InsertedAsRequested(old(orders.State()), sn, req, homestay.value);
      if !reply.Inserted? {
        return Err(DbError);
      }
      closeTasks := closeTasks + [sn];
      return Ok(sn);
    }

    method HomestayOrderDetail(sn: string) returns (detail: OrderDetail)
      requires orders.Valid()
      modifies orders
      ensures orders.Valid()
      ensures orders.State() == FindByKey(old(orders.State()), sn).0
      ensures detail == DetailOf(FindByKey(old(orders.State()), sn).1)
    {
      var found := orders.FindOneByKey(sn);
      detail := OrderDetail(0, 0, 0);
      if found.Some? {
        detail := OrderDetail(found.value.id, found.value.body.tradeState, found.value.body.orderTotalPrice);
      }
    }

    /** The change made on the caller's copy, and the attempt to store it. */
    method StoreTradeState(homestayOrder: Record<string, OrderBody>, tradeState: int) returns (reply: Reply<string, OrderBody>)
      requires orders.Valid()
      modifies orders, homestayOrder
      ensures orders.Valid()
      ensures var changed := old(homestayOrder.row).(body := old(homestayOrder.row).body.(tradeState := tradeState));
        && (orders.State(), reply) == UpdateWithVersion(old(orders.State()), changed)
        && homestayOrder.row == changed.(version := changed.version + 1)
    {
      homestayOrder.row := homestayOrder.row.(body := homestayOrder.row.body.(tradeState := tradeState));
      reply := orders.UpdateWithVersion(homestayOrder);
    }

    method UpdateHomestayOrderTradeState(sn: string, tradeState: int) returns (r: Result<UpdateResp, OrderError>)
      requires orders.Valid()
      modifies this, orders
      ensures orders.Valid() && closeTasks == old(closeTasks)
      ensures var (s, outcome) := UpdateCall(OrderDecide, old(orders.State()), sn, tradeState);
        && orders.State() == s
        && r == Answer(outcome)
        && notices == old(notices) + if outcome.Committed? && tradeState == WAIT_USE then [outcome.row] else []
    {
      var found := orders.FindOneByKey(sn);
      ghost var looked := orders.State();
      if found == None {
        return Err(OrderNotExists);
      }
      if found.value.body.tradeState == tradeState {
        return Ok(UpdateResp(0, 0, 0, 0, 0));
      }
      if !Verify(tradeState, found.value.body.tradeState) {
        return Err(ChangeNotSupported);
      }
      var homestayOrder := new Record(found.value);
      var reply := StoreTradeState(homestayOrder, tradeState);
      var updated := homestayOrder.row;
      assert Settle(OrderDecide, looked, tradeState, found) == (orders.State(), OutcomeOf(reply, updated));
      if reply != Written {
        return Err(UpdateFailed);
      }
      if tradeState == WAIT_USE {
        notices := notices + [updated];
      }
      return Ok(UpdateResp(updated.id, updated.body.userId, updated.body.liveStart, updated.body.liveEnd,
                           updated.body.orderTotalPrice));
    }
  }

  /** The deferred close job; a false result makes the queue run it again. */
  method ProcessTask(service: OrderService, sn: string) returns (done: bool)
    requires service.orders.Valid()
    modifies service, service.orders
    ensures service.orders.Valid()
    ensures (service.orders.State(), done) == CloseTask(old(service.orders.State()), sn)
    ensures service.notices == old(service.notices) && service.closeTasks == old(service.closeTasks)
  {
    var detail := service.HomestayOrderDetail(sn);
    if detail.tradeState == WAIT_PAY {
      var r := service.UpdateHomestayOrderTradeState(sn, CANCEL);
      if r.Err? {
        return false;
      }
    }
    return true;
  }

  /** The consumer of payment-status messages. */
  method ExecService(service: OrderService, message: Message) returns (consumed: bool)
    requires service.orders.Valid()
    modifies service, service.orders
    ensures service.orders.Valid()
    ensures (service.orders.State(), consumed) == Deliver(old(service.orders.State()), message)
    ensures service.closeTasks == old(service.closeTasks)
    ensures var req := MapPayStatus(message.payStatus);
      var outcome := UpdateCall(OrderDecide, old(service.orders.State()), message.orderSn, req).1;
      service.notices == old(service.notices) + if req == WAIT_USE && outcome.Committed? then [outcome.row] else []
  {
    var orderTradeState := MapPayStatus(message.payStatus);
    if orderTradeState != IGNORE {
      var r := service.UpdateHomestayOrderTradeState(message.orderSn, orderTradeState);
      if r.Err? {
        return false;
      }
    }
    return true;
  }
}
