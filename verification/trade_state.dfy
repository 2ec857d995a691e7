/** The states of an order, who may change them, and what every schedule of changes keeps. */
module TradeState {
  import opened Wrappers
  import opened CacheAside
  import opened OptimisticLock
  import opened LockSafety
  import opened LockTheorems
  import opened LockMessages

  const CANCEL := -1
  const WAIT_PAY := 0
  const WAIT_USE := 1
  const USED := 2
  const REFUND := 3
  const EXPIRE := 4

  /**
   The order columns that the modelled code reads or computes. The stay is kept as two dates, each the instant
   at which its day begins.
   */
  datatype OrderBody = OrderBody(
    userId: int,
    homestayId: int,
    tradeState: int,
    needFood: bool,
    livePeopleNum: int,
    liveStart: int,
    liveEnd: int,
    homestayPrice: int,
    foodPrice: int,
    homestayTotalPrice: int,
    foodTotalPrice: int,
    orderTotalPrice: int)

  /** `verifyOrderTradeState`: any requested integer outside the named states passes. */
  predicate Verify(newState: int, oldState: int) {
    if newState == WAIT_PAY then false
    else if newState == CANCEL then oldState == WAIT_PAY
    else if newState == WAIT_USE then oldState == WAIT_PAY
    else if newState == USED then oldState == WAIT_USE
    else if newState == REFUND then oldState == WAIT_USE
    else if newState == EXPIRE then oldState == WAIT_USE
    else true
  }

  /** Cancelled and wait-use are entered from wait-pay, the three final states from wait-use, and what is not named from anywhere. */
  lemma VerifyIff(newState: int, oldState: int)
    ensures Verify(newState, oldState) <==>
            || (oldState == 0 && (newState == -1 || newState == 1))
            || (oldState == 1 && 2 <= newState <= 4)
            || newState < -1 || 4 < newState
  {
  }

  function OrderDecide(req: int, body: OrderBody): Decision<OrderBody> {
    if body.tradeState == req then Keep
    else if !Verify(req, body.tradeState) then Refuse
    else Change(body.(tradeState := req), req == WAIT_USE)
  }

  type OrderRow = Row<string, OrderBody>
  type OrderMove = Move<string, OrderBody, int>
  type OrderState = State<string, OrderBody, int>

  ghost function OrderRun(moves: seq<OrderMove>): OrderState {
    Run(OrderDecide, moves)
  }

  /** Orders are created waiting for payment. */
  ghost predicate StartsWaiting(moves: seq<OrderMove>) {
    forall move <- moves :: move.Create? ==> move.body.tradeState == WAIT_PAY
  }

  function Trade(row: OrderRow): int {
    row.body.tradeState
  }

  // ----- the trail of one order -----

  /** An order starts in wait-pay, and every later version is reached by an allowed change. */
  ghost predicate OrderTrail(rows: seq<OrderRow>) {
    && |rows| > 0
    && Trade(rows[0]) == WAIT_PAY
    && forall v | 0 < v < |rows| ::
         Verify(Trade(rows[v]), Trade(rows[v - 1])) && Trade(rows[v]) != Trade(rows[v - 1])
  }

  /** The machine's invariant, on a table whose rows all started in wait-pay. */
  ghost predicate OrdersInv(st: OrderState) {
    Inv(OrderDecide, st) && forall id <- st.trail.Keys :: |st.trail[id]| > 0 && Trade(st.trail[id][0]) == WAIT_PAY
  }

  lemma NextKeepsOrdersInv(st: OrderState, move: OrderMove)
    requires OrdersInv(st) && (move.Create? ==> move.body.tradeState == WAIT_PAY)
    ensures OrdersInv(Next(OrderDecide, st, move))
  {
    NextKeepsInv(OrderDecide, st, move);
    var st' := Next(OrderDecide, st, move);
    forall id <- st'.trail.Keys ensures |st'.trail[id]| > 0 && Trade(st'.trail[id][0]) == WAIT_PAY {
      if id in st.store.table {
        EveryStepFollowsRule(OrderDecide, st, move, id);
      } else {
        BornWithVersionZero(OrderDecide, st, move, id);
      }
    }
  }

  lemma {:induction false} RunKeepsOrdersInv(moves: seq<OrderMove>)
    requires StartsWaiting(moves)
    ensures OrdersInv(OrderRun(moves))
    decreases |moves|
  {
    if moves == [] {
    } else {
      var last := |moves| - 1;
      RunKeepsOrdersInv(moves[..last]);
      assert moves[last] in moves;
      NextKeepsOrdersInv(OrderRun(moves[..last]), moves[last]);
    }
  }

  lemma OrdersInvGivesTrail(st: OrderState, id: int)
    requires OrdersInv(st) && id in st.trail
    ensures OrderTrail(st.trail[id])
  {
    forall v | 0 < v < |st.trail[id]|
      ensures Verify(Trade(st.trail[id][v]), Trade(st.trail[id][v - 1])) && Trade(st.trail[id][v]) != Trade(st.trail[id][v - 1])
    {
      assert Moved(OrderDecide, st.commits[id][v - 1].job, st.trail[id][v - 1], st.trail[id][v - 1 + 1]);
    }
  }

  lemma TrailIsOrderTrail(moves: seq<OrderMove>, id: int)
    requires StartsWaiting(moves) && id in OrderRun(moves).trail
    ensures OrderTrail(OrderRun(moves).trail[id])
  {
    RunKeepsOrdersInv(moves);
    OrdersInvGivesTrail(OrderRun(moves), id);
  }

  /** Wait-pay is left once; cancelled and wait-use are entered only from it, so at most one of them, once. */
  lemma OrderTrailShape(rows: seq<OrderRow>, v: nat)
    requires OrderTrail(rows) && v < |rows|
    ensures Trade(rows[v]) == WAIT_PAY <==> v == 0
    ensures Trade(rows[v]) == CANCEL || Trade(rows[v]) == WAIT_USE ==> v == 1
  {
    if v > 1 {
      assert Verify(Trade(rows[v - 1]), Trade(rows[v - 2]));
    }
  }

  // ----- over every run -----

  /** The trade state stored for `id` after the first `n` moves. */
  ghost function StateAt(moves: seq<OrderMove>, n: nat, id: int): Option<int>
    requires n <= |moves|
  {
    var table := OrderRun(moves[..n]).store.table;
    if id in table then Some(Trade(table[id])) else None
  }

  lemma PrefixStartsWaiting(moves: seq<OrderMove>, n: nat)
    requires n <= |moves| && StartsWaiting(moves)
    ensures StartsWaiting(moves[..n])
  {
  }

  /** The state stored at a moment is the trade state of some version of the final trail, in order. */
  lemma StateAtIsOnTrail(moves: seq<OrderMove>, n: nat, id: int) returns (v: nat)
    requires n <= |moves| && StartsWaiting(moves) && StateAt(moves, n, id).Some?
    ensures id in OrderRun(moves).trail && v < |OrderRun(moves).trail[id]|
    ensures StateAt(moves, n, id) == Some(Trade(OrderRun(moves).trail[id][v]))
    ensures v == OrderRun(moves[..n]).store.table[id].version
  {
    TrailGrows(OrderDecide, moves, n);
    v := OrderRun(moves[..n]).store.table[id].version;
  }

  /** Every change anyone ever commits is one the rule allows from the state stored at that moment. */
  lemma EveryChangeIsAllowed(moves: seq<OrderMove>, n: nat, id: int)
    requires n < |moves|
    requires StateAt(moves, n, id).Some? && StateAt(moves, n + 1, id) != StateAt(moves, n, id)
    ensures StateAt(moves, n + 1, id).Some?
    ensures Verify(StateAt(moves, n + 1, id).value, StateAt(moves, n, id).value)
  {
    EveryCommitFollowsRule(OrderDecide, moves, n, id);
  }

  lemma WaitPayIsNeverReentered(moves: seq<OrderMove>, i: nat, j: nat, id: int)
    requires i <= j <= |moves| && StartsWaiting(moves)
    requires StateAt(moves, i, id).Some? && StateAt(moves, i, id) != Some(WAIT_PAY)
    ensures StateAt(moves, j, id).Some? && StateAt(moves, j, id) != Some(WAIT_PAY)
  {
    TrailIsOrderTrailAt(moves, j, id, i);
    assert moves[..j][..i] == moves[..i];
    var v := StateAtIsOnTrail(moves[..j], i, id);
    var rows := OrderRun(moves[..j]).trail[id];
    OrderTrailShape(rows, v);
    TrailGrows(OrderDecide, moves[..j], i);
    OrderTrailShape(rows, |rows| - 1);
  }

  lemma TrailIsOrderTrailAt(moves: seq<OrderMove>, j: nat, id: int, i: nat)
    requires i <= j <= |moves| && StartsWaiting(moves) && StateAt(moves, i, id).Some?
    ensures id in OrderRun(moves[..j]).trail && OrderTrail(OrderRun(moves[..j]).trail[id])
    ensures StartsWaiting(moves[..j])
  {
    PrefixStartsWaiting(moves, j);
    TrailGrows(OrderDecide, moves[..j], i);
    assert moves[..j][..i] == moves[..i];
    TrailIsOrderTrail(moves[..j], id);
  }

  /** No order is ever both cancelled and released for use, whatever is requested and in whatever order. */
  lemma CancelledAndPaidExclude(moves: seq<OrderMove>, i: nat, j: nat, id: int)
    requires i <= |moves| && j <= |moves| && StartsWaiting(moves)
    ensures !(StateAt(moves, i, id) == Some(CANCEL) && StateAt(moves, j, id) == Some(WAIT_USE))
  {
    if StateAt(moves, i, id) == Some(CANCEL) && StateAt(moves, j, id) == Some(WAIT_USE) {
      var v := StateAtIsOnTrail(moves, i, id);
      var w := StateAtIsOnTrail(moves, j, id);
      TrailIsOrderTrail(moves, id);
      OrderTrailShape(OrderRun(moves).trail[id], v);
      OrderTrailShape(OrderRun(moves).trail[id], w);
      assert false;
    }
  }

  /** Each order gets at most one pay-success notification, and only for entering wait-use. */
  lemma AtMostOneNotification(moves: seq<OrderMove>, i: nat, j: nat)
    requires StartsWaiting(moves) && i < j < |OrderRun(moves).outbox|
    ensures OrderRun(moves).outbox[i].row.id != OrderRun(moves).outbox[j].row.id
    ensures Trade(OrderRun(moves).outbox[i].row) == WAIT_USE
  {
    NotificationHasVersionOne(moves, i);
    NotificationHasVersionOne(moves, j);
    NoticesAreDistinct(OrderDecide, moves, i, j);
  }

  lemma NotificationHasVersionOne(moves: seq<OrderMove>, i: nat)
    requires StartsWaiting(moves) && i < |OrderRun(moves).outbox|
    ensures var row := OrderRun(moves).outbox[i].row;
      && Trade(row) == WAIT_USE
      && row.id in OrderRun(moves).trail
      && row.version == 1
  {
    RunKeepsInv(OrderDecide, moves);
    var st := OrderRun(moves);
    var notice := st.outbox[i];
    assert NoticeInv(OrderDecide, st, notice);
    assert CallInv(OrderDecide, st, notice.call, st.calls[notice.call]);
    TrailIsOrderTrail(moves, notice.row.id);
    OrderTrailShape(st.trail[notice.row.id], notice.row.version);
  }

  /** Unless its message is lost, a committed call has notified the user if and only if it moved its order to wait-use. */
  lemma NotifiedIffWaitUse(moves: seq<OrderMove>, c: nat, row: OrderRow)
    requires forall k | 0 <= k < |moves| :: moves[k] != LoseNotice(c)
    requires HasCommitted(OrderRun(moves), c, row)
    ensures Sent(OrderRun(moves), c, row) <==> Trade(row) == WAIT_USE
  {
    CommittedIsSentIff(OrderDecide, moves, c, row);
    RunKeepsInv(OrderDecide, moves);
    var st := OrderRun(moves);
    assert CallInv(OrderDecide, st, c, st.calls[c]);
    assert Moved(OrderDecide, st.commits[row.id][row.version - 1].job, st.trail[row.id][row.version - 1], st.trail[row.id][row.version - 1 + 1]);
  }

  /** Every call has returned, and none broke off after its write. */
  ghost predicate AllReturned(st: OrderState) {
    forall c <- st.calls.Keys :: st.calls[c].phase.Returned? && !st.calls[c].phase.outcome.FailedAfterCommit?
  }

  /**
   With no message lost, once all calls have returned, an order that was in wait-use at some moment has its
   notification; by AtMostOneNotification, exactly one.
   */
  lemma WaitUseIsNotified(moves: seq<OrderMove>, n: nat, id: int) returns (i: nat)
    requires n <= |moves| && StartsWaiting(moves) && StateAt(moves, n, id) == Some(WAIT_USE)
    requires forall k | 0 <= k < |moves| :: !moves[k].LoseNotice?
    requires AllReturned(OrderRun(moves))
    ensures i < |OrderRun(moves).outbox| && OrderRun(moves).outbox[i].row.id == id
    ensures Trade(OrderRun(moves).outbox[i].row) == WAIT_USE
  {
    var st := OrderRun(moves);
    var v := StateAtIsOnTrail(moves, n, id);
    TrailIsOrderTrail(moves, id);
    RunKeepsInv(OrderDecide, moves);
    var row := st.trail[id][v];
    var c := st.commits[id][v - 1].call;
    assert CommittedRow(st.calls[c].phase) == Some(st.trail[id][v - 1 + 1]);
    NotifiedIffWaitUse(moves, c, row);
    i :| 0 <= i < |st.outbox| && st.outbox[i] == Notice(c, row);
  }

  // ----- requests outside the named states -----

  predicate IsNamed(state: int) {
    CANCEL <= state <= EXPIRE
  }

  predicate IsFinal(state: int) {
    state == CANCEL || state == USED || state == REFUND || state == EXPIRE
  }

  /** A final state can be left exactly by a request outside the named states. */
  lemma FinalStateIsLeftIff(newState: int, oldState: int)
    requires IsFinal(oldState)
    ensures Verify(newState, oldState) <==> !IsNamed(newState)
  {
  }

  ghost predicate OnlyNamedRequests(moves: seq<OrderMove>) {
    forall move <- moves :: move.Spawn? && move.job.UpdateJob? ==> IsNamed(move.job.req)
  }

  /** Every path through the named states has at most two changes, and its second one is final. */
  ghost predicate NamedTrail(rows: seq<OrderRow>) {
    && (forall row <- rows :: IsNamed(Trade(row)))
    && |rows| <= 3
    && (|rows| > 1 ==> Trade(rows[1]) == CANCEL || Trade(rows[1]) == WAIT_USE)
    && (|rows| > 2 ==> Trade(rows[1]) == WAIT_USE && IsFinal(Trade(rows[2])) && Trade(rows[2]) != CANCEL)
  }

  lemma {:induction false} NamedCallsOnly(moves: seq<OrderMove>, c: nat)
    requires OnlyNamedRequests(moves) && c in OrderRun(moves).calls && OrderRun(moves).calls[c].job.UpdateJob?
    ensures IsNamed(OrderRun(moves).calls[c].job.req)
    decreases |moves|
  {
    var last := |moves| - 1;
    var st := OrderRun(moves[..last]);
    CallsKeepTheirTerms(OrderDecide, st, moves[last], c);
    assert moves[last] in moves;
    if c in st.calls {
      NamedCallsOnly(moves[..last], c);
    }
  }

  /** From wait-pay to cancelled or wait-use, from wait-use to a final state, and no further. */
  lemma NamedStep(rows: seq<OrderRow>, v: nat)
    requires OrderTrail(rows) && v + 1 < |rows| && IsNamed(Trade(rows[v])) && IsNamed(Trade(rows[v + 1]))
    ensures !IsFinal(Trade(rows[v]))
    ensures Trade(rows[v]) == WAIT_PAY ==> Trade(rows[v + 1]) == CANCEL || Trade(rows[v + 1]) == WAIT_USE
    ensures Trade(rows[v]) == WAIT_USE ==> IsFinal(Trade(rows[v + 1])) && Trade(rows[v + 1]) != CANCEL
  {
    assert Verify(Trade(rows[v + 1]), Trade(rows[v + 1 - 1]));
  }

  /** The call that stored version `v` asked for the state that `v` has. */
  lemma CommitterAskedForState(st: OrderState, id: int, v: nat)
    requires Inv(OrderDecide, st) && id in st.trail && 0 < v < |st.trail[id]|
    ensures id in st.commits && v - 1 < |st.commits[id]|
    ensures var c := st.commits[id][v - 1].call;
      c in st.calls && st.calls[c].job == UpdateJob(Trade(st.trail[id][v]))
  {
    var commit := st.commits[id][v - 1];
    assert CommittedRow(st.calls[commit.call].phase) == Some(st.trail[id][v - 1 + 1]);
    assert CallInv(OrderDecide, st, commit.call, st.calls[commit.call]);
    assert Moved(OrderDecide, commit.job, st.trail[id][v - 1], st.trail[id][v - 1 + 1]);
  }

  lemma NamedVersions(moves: seq<OrderMove>, id: int, v: nat)
    requires OnlyNamedRequests(moves) && OrdersInv(OrderRun(moves))
    requires id in OrderRun(moves).trail && v < |OrderRun(moves).trail[id]|
    ensures IsNamed(Trade(OrderRun(moves).trail[id][v]))
  {
    if v > 0 {
      CommitterAskedForState(OrderRun(moves), id, v);
      NamedCallsOnly(moves, OrderRun(moves).commits[id][v - 1].call);
    }
  }

  lemma NamedStatesGiveNamedTrail(rows: seq<OrderRow>)
    requires OrderTrail(rows) && forall v | 0 <= v < |rows| :: IsNamed(Trade(rows[v]))
    ensures NamedTrail(rows)
  {
    if |rows| > 1 {
      NamedStep(rows, 0);
    }
    if |rows| > 2 {
      NamedStep(rows, 1);
    }
    if |rows| > 3 {
      NamedStep(rows, 2);
    }
  }

  lemma NamedRequestsGiveNamedTrail(moves: seq<OrderMove>, id: int)
    requires StartsWaiting(moves) && OnlyNamedRequests(moves) && id in OrderRun(moves).trail
    ensures NamedTrail(OrderRun(moves).trail[id])
  {
    RunKeepsOrdersInv(moves);
    OrdersInvGivesTrail(OrderRun(moves), id);
    forall v | 0 <= v < |OrderRun(moves).trail[id]| ensures IsNamed(Trade(OrderRun(moves).trail[id][v])) {
      NamedVersions(moves, id, v);
    }
    NamedStatesGiveNamedTrail(OrderRun(moves).trail[id]);
  }
}
