/** What a whole list of payment messages and close-job runs does to one order. */
module OrderEvents {
  import opened Wrappers
  import opened CacheAside
  import opened CacheCoherence
  import opened OptimisticLock
  import opened SequentialCall
  import opened TradeState
  import opened OrderServices
  import opened StayPricing
  import opened Int64
  import PaymentState

  datatype Event = Paid(payStatus: int) | Close

  /** A request that is refused, or already met, leaves the state. */
  function Requested(state: int, req: int): int {
    if req != state && Verify(req, state) then req else state
  }

  function Apply(state: int, event: Event): int {
    match event
    case Paid(payStatus) =>
      if MapPayStatus(payStatus) == IGNORE then state else Requested(state, MapPayStatus(payStatus))
    case Close => if state == WAIT_PAY then Requested(state, CANCEL) else state
  }

  function Fold(state: int, events: seq<Event>): int
    decreases |events|
  {
    if events == [] then state else Fold(Apply(state, events[0]), events[1..])
  }

  // ----- the closed form -----

  predicate Decides(event: Event) {
    event == Paid(PaymentState.SUCCESS) || event == Close
  }

  predicate IsFirstDecider(events: seq<Event>, d: nat) {
    d < |events| && Decides(events[d]) && forall i | 0 <= i < d :: !Decides(events[i])
  }

  predicate RefundedAfter(events: seq<Event>, d: nat) {
    exists i :: d < i < |events| && events[i] == Paid(PaymentState.REFUND)
  }

  lemma {:induction false} UndecidedStaysWaiting(events: seq<Event>)
    requires forall event <- events :: !Decides(event)
    ensures Fold(WAIT_PAY, events) == WAIT_PAY
  {
    if events == [] {
    } else {
      assert events[0] in events;
      UndecidedStaysWaiting(events[1..]);
    }
  }

  lemma {:induction false} FinalStays(state: int, events: seq<Event>)
    requires state == CANCEL || state == REFUND
    ensures Fold(state, events) == state
  {
    if events == [] {
    } else {
      FinalStays(state, events[1..]);
    }
  }

  lemma {:induction false} PaidUntilRefunded(events: seq<Event>)
    ensures Fold(WAIT_USE, events) == if Paid(PaymentState.REFUND) in events then REFUND else WAIT_USE
  {
    if events == [] {
    } else {
      if events[0] == Paid(PaymentState.REFUND) {
        FinalStays(REFUND, events[1..]);
      } else {
        PaidUntilRefunded(events[1..]);
        assert events == [events[0]] + events[1..];
      }
    }
  }

  lemma {:induction false} FoldAppends(state: int, a: seq<Event>, b: seq<Event>)
    ensures Fold(state, a + b) == Fold(Fold(state, a), b)
    decreases |a|
  {
    if a == [] {
      assert a + b == b;
    } else {
      assert (a + b)[1..] == a[1..] + b;
      FoldAppends(Apply(state, a[0]), a[1..], b);
    }
  }

  /**
   The first success or close decides; a fresh order ends refunded exactly when a success decided it and
   a refund came later. A refund that comes first is lost, and so is a success after a close.
   */
  lemma FreshOrderClosedForm(events: seq<Event>, d: nat)
    requires IsFirstDecider(events, d)
    ensures Fold(WAIT_PAY, events)
         == if events[d] == Close then CANCEL else if RefundedAfter(events, d) then REFUND else WAIT_USE
  {
    var before, after := events[..d], events[d + 1..];
    assert events == before + ([events[d]] + after);
    FoldAppends(WAIT_PAY, before, [events[d]] + after);
    UndecidedStaysWaiting(before);
    assert ([events[d]] + after)[1..] == after;
    if events[d] == Close {
      FinalStays(CANCEL, after);
    } else {
      PaidUntilRefunded(after);
      if Paid(PaymentState.REFUND) in after {
        var i :| 0 <= i < |after| && after[i] == Paid(PaymentState.REFUND);
        assert events[d + 1 + i] == Paid(PaymentState.REFUND);
      } else {
        forall i | d < i < |events| ensures events[i] != Paid(PaymentState.REFUND) {
          assert events[i] == after[i - d - 1];
        }
      }
    }
  }

  // ----- the services follow the fold -----

  ghost function Handle(s: Store<string, OrderBody>, sn: string, event: Event): (Store<string, OrderBody>, bool) {
    match event
    case Paid(payStatus) => Deliver(s, Message(sn, payStatus))
    case Close => CloseTask(s, sn)
  }

  ghost function HandleAll(s: Store<string, OrderBody>, sn: string, events: seq<Event>): Store<string, OrderBody>
    decreases |events|
  {
    if events == [] then s else HandleAll(Handle(s, sn, events[0]).0, sn, events[1..])
  }

  ghost predicate OnlyStateChanged(before: Table<string, OrderBody>, after: Table<string, OrderBody>, id: int, state: int) {
    && id in before && id in after && before.Keys == after.Keys
    && (forall other <- before.Keys :: other != id ==> after[other] == before[other])
    && after[id].keys == before[id].keys && after[id].delState == before[id].delState
    && after[id].body == before[id].body.(tradeState := state)
  }

  lemma RequestChangesState(s: Store<string, OrderBody>, sn: string, req: int, id: int)
    requires KeyExact(s) && HoldsKey(s.table, id, sn)
    ensures var (s', outcome) := UpdateCall(OrderDecide, s, sn, req);
      var state := s.table[id].body.tradeState;
      && KeyExact(s')
      && OnlyStateChanged(s.table, s'.table, id, Requested(state, req))
      && (Answer(outcome).Ok? <==> Requested(state, req) == req)
  {
    ExactCallAppliesRule(OrderDecide, s, sn, req, id);
  }

  /**
   What one state change answers and stores, from the table alone: nothing for the state the order has, the
   order's own columns for a change the rule allows, and an error otherwise.
   */
  lemma RequestIsAnswered(s: Store<string, OrderBody>, sn: string, req: int, id: int)
    requires KeyExact(s) && HoldsKey(s.table, id, sn)
    ensures var (s', outcome) := UpdateCall(OrderDecide, s, sn, req);
      var row := s.table[id];
      if row.body.tradeState == req then
        s'.table == s.table && Answer(outcome) == Ok(UpdateResp(0, 0, 0, 0, 0))
      else if !Verify(req, row.body.tradeState) then
        s'.table == s.table && Answer(outcome) == Err(ChangeNotSupported)
      else
        && s'.table == s.table[id := row.(version := row.version + 1, body := row.body.(tradeState := req))]
        && Answer(outcome) == Ok(UpdateResp(id, row.body.userId, row.body.liveStart, row.body.liveEnd, row.body.orderTotalPrice))
  {
    ExactCallAppliesRule(OrderDecide, s, sn, req, id);
  }

  /** On any store, however stale its cache: success and failure tell whether the table was changed. */
  lemma AnswerTellsTheTruth(s: Store<string, OrderBody>, sn: string, req: int)
    requires WellFormed(s)
    ensures var (s', outcome) := UpdateCall(OrderDecide, s, sn, req);
      var answer := Answer(outcome);
      match FindByKey(s, sn).1
      case None => s'.table == s.table && answer == Err(OrderNotExists)
      case Some(row) =>
        if row.body.tradeState == req || !Verify(req, row.body.tradeState) then s'.table == s.table
        else if s'.table == s.table then answer == Err(UpdateFailed)
        else
          && row.id in s.table && s.table[row.id].version == row.version
          && s'.table == s.table[row.id := row.(version := row.version + 1, body := row.body.(tradeState := req))]
          && answer.Ok? && answer.value.id == row.id
  {
    var (s1, found) := FindByKey(s, sn);
    if found.Some? && OrderDecide(req, found.value.body).Change? {
      var row := found.value;
      var data := row.(body := row.body.(tradeState := req));
      WrittenChangesTable(s1, data);
    }
  }

  lemma WrittenChangesTable<K, B>(s: Store<K, B>, data: Row<K, B>)
    ensures var (s', reply) := UpdateWithVersion(s, data);
      if reply == Written then
        && s'.table != s.table && data.id in s.table && s.table[data.id].version == data.version
        && s'.table == s.table[data.id := data.(version := data.version + 1)]
      else
        s'.table == s.table
  {
    var s' := UpdateWithVersion(s, data).0;
    if UpdateWithVersion(s, data).1 == Written {
      assert s'.table[data.id].version != s.table[data.id].version;
    }
  }

  /** The detail is the stored order's, or all zero. */
  lemma DetailIsStored(s: Store<string, OrderBody>, sn: string)
    requires KeyExact(s)
    ensures var detail := DetailOf(FindByKey(s, sn).1);
      match LiveRowByKey(s.table, sn)
      case None => detail == OrderDetail(0, 0, 0)
      case Some(row) =>
        0 < detail.id == row.id && detail.tradeState == row.body.tradeState && detail.orderTotalPrice == row.body.orderTotalPrice
  {
    FindByKeyIsExactIff(s, sn);
  }

  /** A cancelled order, asked through its service for a state outside the named ones, gets it. */
  lemma UnnamedRequestMovesCancelled(s: Store<string, OrderBody>, sn: string, id: int)
    requires KeyExact(s) && HoldsKey(s.table, id, sn) && s.table[id].body.tradeState == CANCEL
    ensures var (s', outcome) := UpdateCall(OrderDecide, s, sn, 99);
      && Answer(outcome).Ok?
      && id in s'.table && s'.table[id].body.tradeState == 99
  {
    RequestChangesState(s, sn, 99, id);
  }

  /** The state is what the message asks for, if it asks for any. */
  predicate Meets(state: int, payStatus: int) {
    (payStatus == 1 ==> state == WAIT_USE) && (payStatus == 2 ==> state == REFUND)
  }

  /**
   One handler run changes the order as Apply says. The close job succeeds, and the order is not left waiting; a
   message is consumed if and only if the order ends in the state it asks for.
   */
  lemma HandlerAppliesEvent(s: Store<string, OrderBody>, sn: string, event: Event, id: int)
    requires KeyExact(s) && HoldsKey(s.table, id, sn)
    ensures var (s', done) := Handle(s, sn, event);
      && KeyExact(s') && HoldsKey(s'.table, id, sn)
      && OnlyStateChanged(s.table, s'.table, id, Apply(s.table[id].body.tradeState, event))
      && (event.Close? ==> done && s'.table[id].body.tradeState != WAIT_PAY)
      && (event.Paid? ==> (done <==> Meets(s'.table[id].body.tradeState, event.payStatus)))
  {
    match event
    case Paid(payStatus) =>
      if MapPayStatus(payStatus) != IGNORE {
        RequestChangesState(s, sn, MapPayStatus(payStatus), id);
      }
    case Close =>
      var (s1, found) := FindByKey(s, sn);
      FindByKeyIsExactIff(s, sn);
      KeyHolderIsUnique(s, id, sn);
      ApplyKeepsKeyExact(s, OpFindByKey(sn));
      assert s1.table == s.table;
      if s.table[id].body.tradeState == WAIT_PAY {
        RequestChangesState(s1, sn, CANCEL, id);
      }
  }

  /** Without such an order, the close job fails, so its task is kept, and a message that asks for a state is not consumed. */
  lemma MissingOrderFails(s: Store<string, OrderBody>, sn: string, event: Event)
    requires KeyExact(s) && LiveRowByKey(s.table, sn) == None
    ensures var (s', done) := Handle(s, sn, event);
      && s'.table == s.table
      && (done <==> event.Paid? && event.payStatus != 1 && event.payStatus != 2)
  {
    match event
    case Paid(payStatus) => CallWithoutHolder(OrderDecide, s, sn, MapPayStatus(payStatus));
    case Close =>
      FindByKeyIsExactIff(s, sn);
      ApplyKeepsKeyExact(s, OpFindByKey(sn));
      CallWithoutHolder(OrderDecide, FindByKey(s, sn).0, sn, CANCEL);
  }

  lemma {:induction false} HandlersFollowFold(s: Store<string, OrderBody>, sn: string, events: seq<Event>, id: int)
    requires KeyExact(s) && HoldsKey(s.table, id, sn)
    ensures OnlyStateChanged(s.table, HandleAll(s, sn, events).table, id, Fold(s.table[id].body.tradeState, events))
    decreases |events|
  {
    if events == [] {
    } else {
      HandlerAppliesEvent(s, sn, events[0], id);
      HandlersFollowFold(Handle(s, sn, events[0]).0, sn, events[1..], id);
    }
  }

  // ----- what an order costs -----

  /** An order's total is its two parts, and amounts to one daily rate times the days of the stay. */
  lemma BuiltOrderPrice(req: CreateReq, homestay: Homestay)
    ensures var body := BuildOrder(req, homestay);
      && body.orderTotalPrice == Wrap(body.homestayTotalPrice + body.foodTotalPrice)
      && body.orderTotalPrice == Wrap(DayRate(homestay.homestayPrice, req.isFood, homestay.foodPrice, req.livePeopleNum)
                                      * LiveDays(req.liveStart, req.liveEnd))
      && body.tradeState == WAIT_PAY
  {
    OrderTotalIsRateTimesDays(homestay.homestayPrice, req.isFood, homestay.foodPrice, req.livePeopleNum,
                              LiveDays(req.liveStart, req.liveEnd));
  }
}
