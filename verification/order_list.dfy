/** The list of a user's orders, and walking through it while orders keep changing. */
module OrderList {
  import opened Wrappers
  import opened CacheAside
  import opened CachedModels
  import opened OptimisticLock
  import opened LockSafety
  import opened LockTheorems
  import opened TradeState
  import opened OrderServices
  import opened StayPricing
  import opened PaymentChain
  import opened Paging
  import opened Int64

  datatype ListedOrder = ListedOrder(id: int, userId: int, tradeState: int, orderTotalPrice: int, liveStart: int, liveEnd: int)

  function Listed(row: OrderRow): ListedOrder {
    ListedOrder(row.id, row.body.userId, row.body.tradeState, row.body.orderTotalPrice, row.body.liveStart, row.body.liveEnd)
  }

  function AllListed(rows: seq<OrderRow>): seq<ListedOrder> {
    seq(|rows|, i requires 0 <= i < |rows| => Listed(rows[i]))
  }

  /** The user's orders; a state outside the named ones asks for all of them. */
  function OfUser(userId: int, traderState: int): Where<string, OrderBody> {
    (row: OrderRow) => row.body.userId == userId && (IsNamed(traderState) ==> row.body.tradeState == traderState)
  }

  /** A live stored order of the user, as it is stored, in the state that was asked for. */
  ghost predicate IsOwnOrder(s: Store<string, OrderBody>, userId: int, traderState: int, lastId: int, order: ListedOrder) {
    && order.userId == userId
    && (-1 <= traderState <= 4 ==> order.tradeState == traderState)
    && (lastId > 0 ==> order.id < lastId)
    && order.id in s.table
    && var row := s.table[order.id];
       && row.delState == 0 && row.id == order.id
       && row.body.userId == order.userId && row.body.tradeState == order.tradeState
       && row.body.orderTotalPrice == order.orderTotalPrice
       && row.body.liveStart == order.liveStart && row.body.liveEnd == order.liveEnd
  }

  /** Nobody else's order, and no order in another state than the one asked for, is ever listed. */
  lemma ListShowsOnlyOwnOrders(s: Store<string, OrderBody>, userId: int, traderState: int, lastId: int, pageSize: int)
    requires IdsMatch(s.table) && IsInt64(pageSize)
    ensures var resp := AllListed(FindPageListByIdDESC(s, OfUser(userId, traderState), lastId, pageSize));
      forall k | 0 <= k < |resp| :: IsOwnOrder(s, userId, traderState, lastId, resp[k])
  {
    var page := FindPageListByIdDESC(s, OfUser(userId, traderState), lastId, pageSize);
    forall k | 0 <= k < |page| ensures IsOwnOrder(s, userId, traderState, lastId, Listed(page[k])) {
      PageRowsAreListed(s, OfUser(userId, traderState), lastId, pageSize, k);
    }
  }

  method UserHomestayOrderList(orders: CachedModel<string, OrderBody>, userId: int, traderState: int, lastId: int, pageSize: int)
    returns (resp: seq<ListedOrder>)
    requires IsInt64(pageSize)
    ensures resp == AllListed(FindPageListByIdDESC(orders.State(), OfUser(userId, traderState), lastId, pageSize))
    ensures orders.Valid() ==>
              forall k | 0 <= k < |resp| :: IsOwnOrder(orders.State(), userId, traderState, lastId, resp[k])
    ensures orders.Valid() ==>
              |resp| == Min(AsUint64(pageSize), Count(orders.table, OfUser(userId, traderState), Top(orders.State(), lastId)))
  {
    var whereBuilder: Where<string, OrderBody> := (row: OrderRow) => row.body.userId == userId;
    if traderState >= CANCEL && traderState <= EXPIRE {
      whereBuilder := (row: OrderRow) => row.body.userId == userId && row.body.tradeState == traderState;
    }
    var list := FindPageListByIdDESC(orders.State(), whereBuilder, lastId, pageSize);
    SameFilterSamePage(orders.State(), whereBuilder, OfUser(userId, traderState), lastId, pageSize);
    if orders.Valid() {
      ListShowsOnlyOwnOrders(orders.State(), userId, traderState, lastId, pageSize);
      PageSizeIsLimit(orders.State(), OfUser(userId, traderState), lastId, pageSize);
    }
    resp := [];
    if |list| > 0 {
      for i := 0 to |list|
        invariant resp == AllListed(list[..i])
      {
        assert list[..i + 1] == list[..i] + [list[i]];
        var order := list[i];
        resp := resp + [ListedOrder(order.id, order.body.userId, order.body.tradeState, order.body.orderTotalPrice,
                                    order.body.liveStart, order.body.liveEnd)];
      }
      assert list[..|list|] == list;
    }
  }

  lemma {:induction false} SameFilterSameScan<K, B>(table: Table<K, B>, a: Where<K, B>, b: Where<K, B>, n: nat)
    requires forall row :: a(row) == b(row)
    ensures Scan(table, a, n) == Scan(table, b, n)
  {
    if n == 0 {
    } else {
      SameFilterSameScan(table, a, b, n - 1);
    }
  }

  lemma SameFilterSamePage<K, B>(s: Store<K, B>, a: Where<K, B>, b: Where<K, B>, lastId: int, pageSize: int)
    requires IsInt64(pageSize) && forall row :: a(row) == b(row)
    ensures FindPageListByIdDESC(s, a, lastId, pageSize) == FindPageListByIdDESC(s, b, lastId, pageSize)
  {
    SameFilterSameScan(s.table, BelowId(a, lastId), BelowId(b, lastId), MaxId(s));
  }

  // ----- walking through the list while orders change -----

  /** The stores at the times of the requests, in a run of the order machine. */
  ghost function StoresAt(moves: seq<OrderMove>, times: seq<nat>): (stores: seq<Store<string, OrderBody>>)
    requires forall i | 0 <= i < |times| :: times[i] <= |moves|
    ensures |stores| == |times| && forall i | 0 <= i < |times| :: stores[i] == OrderRun(moves[..times[i]]).store
  {
    seq(|times|, i requires 0 <= i < |times| => OrderRun(moves[..times[i]]).store)
  }

  lemma GrownKeepsTerms(st: OrderState, st': OrderState, id: int)
    requires OrdersInv(st) && OrdersInv(st') && Grows(st, st') && id in st.store.table
    ensures MatchesIn(st'.store, (row: OrderRow) => row.body.userId == st.store.table[id].body.userId, id)
    ensures st'.store.table[id].body.(tradeState := WAIT_PAY) == st.store.table[id].body.(tradeState := WAIT_PAY)
  {
    OrderTermsFixed(st', id, |st.trail[id]| - 1);
    OrderTermsFixed(st', id, |st'.trail[id]| - 1);
  }

  /** An order keeps its owner and stays live, whatever is done to its state. */
  lemma OrderStaysWithItsUser(moves: seq<OrderMove>, m: nat, n: nat, id: int)
    requires m <= n <= |moves| && StartsWaiting(moves) && id in OrderRun(moves[..m]).store.table
    ensures var before, after := OrderRun(moves[..m]).store, OrderRun(moves[..n]).store;
      && MatchesIn(after, (row: OrderRow) => row.body.userId == before.table[id].body.userId, id)
      && after.table[id].body.(tradeState := WAIT_PAY) == before.table[id].body.(tradeState := WAIT_PAY)
  {
    PrefixStartsWaiting(moves, m);
    PrefixStartsWaiting(moves, n);
    RunKeepsOrdersInv(moves[..m]);
    RunKeepsOrdersInv(moves[..n]);
    TrailGrows(OrderDecide, moves[..n], m);
    assert moves[..n][..m] == moves[..m];
    GrownKeepsTerms(OrderRun(moves[..m]), OrderRun(moves[..n]), id);
  }

  // ----- a new order -----

  lemma {:induction false} ScanAgrees<K, B>(a: Table<K, B>, b: Table<K, B>, where_: Where<K, B>, n: nat)
    requires forall id | 0 < id <= n :: Matches(a, where_, id) == Matches(b, where_, id)
    requires forall id | 0 < id <= n && Matches(a, where_, id) && Matches(b, where_, id) :: a[id] == b[id]
    ensures Scan(a, where_, n) == Scan(b, where_, n)
  {
    if n == 0 {
    } else {
      ScanAgrees(a, b, where_, n - 1);
    }
  }

  /** A new order is the first one its user is shown, as the request asked for it. */
  lemma NewOrderHeadsItsList(before: Store<string, OrderBody>, after: Store<string, OrderBody>, sn: string, req: CreateReq,
                             homestay: Homestay, traderState: int, pageSize: int)
    requires WellFormed(before) && AddsRequested(before, after, sn, req, homestay)
    requires IsInt64(pageSize) && pageSize != 0 && (traderState == 0 || traderState < -1 || 4 < traderState)
    ensures var resp := AllListed(FindPageListByIdDESC(after, OfUser(req.userId, traderState), 0, pageSize));
      && resp != []
      && resp[0].id == before.nextId && resp[0].userId == req.userId && resp[0].tradeState == 0
      && IsDayOf(resp[0].liveStart, req.liveStart) && IsDayOf(resp[0].liveEnd, req.liveEnd)
  {
    var where_ := OfUser(req.userId, traderState);
    assert Matches(after.table, where_, MaxId(after));
    PageIsScan(after, where_, 0, pageSize);
  }

  /** Every other user goes on seeing what was there before. */
  lemma NewOrderIsInNoOtherList(before: Store<string, OrderBody>, after: Store<string, OrderBody>, sn: string, req: CreateReq,
                                homestay: Homestay, userId: int, traderState: int, lastId: int, pageSize: int)
    requires WellFormed(before) && AddsRequested(before, after, sn, req, homestay)
    requires IsInt64(pageSize) && userId != req.userId
    ensures FindPageListByIdDESC(after, OfUser(userId, traderState), lastId, pageSize)
         == FindPageListByIdDESC(before, OfUser(userId, traderState), lastId, pageSize)
  {
    var where_ := OfUser(userId, traderState);
    PageIsScan(before, where_, lastId, pageSize);
    PageIsScan(after, where_, lastId, pageSize);
    ScanAgrees(before.table, after.table, where_, Top(before, lastId));
  }

  // ----- walking through the list, continued -----

  /**
   A user who walks the list, while payments, cancellations and other orders go on, sees every order that was
   there at the first request, exactly once; with a named state, if the order is in that state at each request.
   */
  lemma WalkShowsEveryOrder(moves: seq<OrderMove>, times: seq<nat>, userId: int, traderState: int, pageSize: int, id: int)
    returns (k: nat, i: nat)
    requires StartsWaiting(moves) && IsInt64(pageSize) && pageSize != 0
    requires times != [] && times[0] <= |moves|
    requires forall a | 0 <= a < |times| :: times[0] <= times[a] <= |moves|
    requires |Walk(StoresAt(moves, times), OfUser(userId, traderState), pageSize, 0)| < |times|
    requires id in OrderRun(moves[..times[0]]).store.table
    requires OrderRun(moves[..times[0]]).store.table[id].body.userId == userId
    requires -1 <= traderState <= 4 ==>
               forall a | 0 <= a < |times| :: StateAt(moves, times[a], id) == Some(traderState)
    ensures var walk := Walk(StoresAt(moves, times), OfUser(userId, traderState), pageSize, 0);
      && Descends(walk)
      && k < |walk| && i < |walk[k]| && walk[k][i].id == id
  {
    var stores := StoresAt(moves, times);
    var where_ := OfUser(userId, traderState);
    forall a | 0 <= a < |times| ensures IdsMatch(stores[a].table) && MatchesIn(stores[a], where_, id) {
      RunKeepsInv(OrderDecide, moves[..times[a]]);
      OrderStaysWithItsUser(moves, times[0], times[a], id);
    }
    var n := |Walk(stores, where_, pageSize, 0)|;
    assert forall a | 0 <= a < n + 1 :: stores[..n + 1][a] == stores[a];
    WalkNeverRepeats(stores, where_, pageSize, 0);
    k, i := WalkReturnsWhatStays(stores, where_, pageSize, 0, id);
  }
}
