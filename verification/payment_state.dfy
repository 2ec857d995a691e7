/** The status of a payment record, and what every schedule of status updates keeps. */
module PaymentState {
  import opened Wrappers
  import opened CacheAside
  import opened OptimisticLock
  import opened LockSafety
  import opened LockTheorems
  import opened LockMessages

  const FAIL := -1
  const WAIT := 0
  const SUCCESS := 1
  const REFUND := 2

  datatype PayBody = PayBody(
    userId: int,
    payMode: string,
    tradeType: string,
    tradeState: string,
    payTotal: int,
    transactionId: string,
    tradeStateDesc: string,
    orderSn: string,
    serviceType: string,
    payStatus: int,
    payTime: int)

  datatype PayReq = PayReq(
    tradeState: string,
    transactionId: string,
    tradeType: string,
    tradeStateDesc: string,
    payStatus: int,
    payTime: int)

  function Changed(req: PayReq, body: PayBody): PayBody {
    body.(tradeState := req.tradeState, transactionId := req.transactionId, tradeType := req.tradeType,
          tradeStateDesc := req.tradeStateDesc, payStatus := req.payStatus, payTime := req.payTime)
  }

  /** The judgment and the six assignments of `UpdateTradeState`; every change is published. */
  function PayDecide(req: PayReq, body: PayBody): Decision<PayBody> {
    if req.payStatus == SUCCESS || req.payStatus == FAIL then
      if body.payStatus != WAIT then Keep else Change(Changed(req, body), true)
    else if req.payStatus == REFUND then
      if body.payStatus != SUCCESS then Refuse else Change(Changed(req, body), true)
    else
      Refuse
  }

  /** The row a request makes of a payment: its six columns, with the other five kept. */
  function Reported(req: PayReq, body: PayBody): PayBody {
    PayBody(body.userId, body.payMode, req.tradeType, req.tradeState, body.payTotal, req.transactionId,
            req.tradeStateDesc, body.orderSn, body.serviceType, req.payStatus, req.payTime)
  }

  /** An unpaid payment can succeed or fail, and a successful one be refunded; nothing else changes a payment. */
  lemma PayDecideIff(req: PayReq, body: PayBody)
    ensures var allowed := (body.payStatus == 0 && (req.payStatus == 1 || req.payStatus == -1))
                        || (body.payStatus == 1 && req.payStatus == 2);
      && (allowed <==> PayDecide(req, body) == Change(Reported(req, body), true))
      && (PayDecide(req, body).Keep? <==> (req.payStatus == 1 || req.payStatus == -1) && body.payStatus != 0)
      && (PayDecide(req, body).Refuse? <==> !allowed && req.payStatus != 1 && req.payStatus != -1)
  {
  }

  type PayRow = Row<string, PayBody>
  type PayMove = Move<string, PayBody, PayReq>
  type PayState = State<string, PayBody, PayReq>

  ghost function PayRun(moves: seq<PayMove>): PayState {
    Run(PayDecide, moves)
  }

  ghost predicate StartsUnpaid(moves: seq<PayMove>) {
    forall move <- moves :: move.Create? ==> move.body.payStatus == WAIT
  }

  function Statuses(rows: seq<PayRow>): seq<int> {
    seq(|rows|, i requires 0 <= i < |rows| => rows[i].body.payStatus)
  }

  // ----- the trail of one payment -----

  ghost predicate PaymentsInv(st: PayState) {
    Inv(PayDecide, st) && forall id <- st.trail.Keys :: |st.trail[id]| > 0 && st.trail[id][0].body.payStatus == WAIT
  }

  lemma NextKeepsPaymentsInv(st: PayState, move: PayMove)
    requires PaymentsInv(st) && (move.Create? ==> move.body.payStatus == WAIT)
    ensures PaymentsInv(Next(PayDecide, st, move))
  {
    NextKeepsInv(PayDecide, st, move);
    var st' := Next(PayDecide, st, move);
    forall id <- st'.trail.Keys ensures |st'.trail[id]| > 0 && st'.trail[id][0].body.payStatus == WAIT {
      if id in st.store.table {
        EveryStepFollowsRule(PayDecide, st, move, id);
      } else {
        BornWithVersionZero(PayDecide, st, move, id);
      }
    }
  }

  lemma {:induction false} RunKeepsPaymentsInv(moves: seq<PayMove>)
    requires StartsUnpaid(moves)
    ensures PaymentsInv(PayRun(moves))
    decreases |moves|
  {
    if moves == [] {
    } else {
      var last := |moves| - 1;
      RunKeepsPaymentsInv(moves[..last]);
      assert moves[last] in moves;
      NextKeepsPaymentsInv(PayRun(moves[..last]), moves[last]);
    }
  }

  /** What version `v` owes to the one before it. */
  lemma PaymentStep(st: PayState, id: int, v: nat)
    requires PaymentsInv(st) && id in st.trail && 0 < v < |st.trail[id]|
    ensures var a, b := st.trail[id][v - 1].body, st.trail[id][v].body;
      && (b.payStatus == SUCCESS || b.payStatus == FAIL || b.payStatus == REFUND)
      && (b.payStatus == REFUND ==> a.payStatus == SUCCESS)
      && (b.payStatus != REFUND ==> a.payStatus == WAIT)
      && b.payTotal == a.payTotal && b.orderSn == a.orderSn
    ensures v - 1 < |st.commits[id]| && st.commits[id][v - 1].job.UpdateJob?
    ensures st.commits[id][v - 1].job.req.payStatus == st.trail[id][v].body.payStatus
  {
    assert Moved(PayDecide, st.commits[id][v - 1].job, st.trail[id][v - 1], st.trail[id][v - 1 + 1]);
  }

  /** Unpaid, then failed; or unpaid, successful, refunded: every status history is a prefix of one of these. */
  lemma PaymentHistory(st: PayState, id: int)
    requires PaymentsInv(st) && id in st.trail
    ensures Statuses(st.trail[id]) <= [WAIT, SUCCESS, REFUND] || Statuses(st.trail[id]) <= [WAIT, FAIL]
    ensures |st.commits[id]| <= 2
  {
    var rows := st.trail[id];
    if |rows| > 1 { PaymentStep(st, id, 1); }
    if |rows| > 2 { PaymentStep(st, id, 2); }
    if |rows| > 3 { PaymentStep(st, id, 3); }
  }

  lemma EveryPaymentHistory(moves: seq<PayMove>, id: int)
    requires StartsUnpaid(moves) && id in PayRun(moves).trail
    ensures var st := PayRun(moves);
      && (Statuses(st.trail[id]) <= [WAIT, SUCCESS, REFUND] || Statuses(st.trail[id]) <= [WAIT, FAIL])
      && id in st.commits && |st.commits[id]| <= 2
  {
    RunKeepsPaymentsInv(moves);
    PaymentHistory(PayRun(moves), id);
  }

  /** The amount and the order a payment is for never change. */
  lemma {:induction false} PaymentTermsFixed(st: PayState, id: int, v: nat)
    requires PaymentsInv(st) && id in st.trail && v < |st.trail[id]|
    ensures st.trail[id][v].body.payTotal == st.trail[id][0].body.payTotal
    ensures st.trail[id][v].body.orderSn == st.trail[id][0].body.orderSn
    decreases v
  {
    if v == 0 {
    } else {
      PaymentStep(st, id, v);
      PaymentTermsFixed(st, id, v - 1);
    }
  }

  /** A payment publishes each status at most once. */
  lemma PublishedOncePerCommit(moves: seq<PayMove>, i: nat, j: nat)
    requires StartsUnpaid(moves) && i < j < |PayRun(moves).outbox|
    ensures var a, b := PayRun(moves).outbox[i].row, PayRun(moves).outbox[j].row;
      a.id != b.id || a.body.payStatus != b.body.payStatus
  {
    NoticesAreDistinct(PayDecide, moves, i, j);
    var st := PayRun(moves);
    var a, b := st.outbox[i].row, st.outbox[j].row;
    if a.id == b.id {
      RunKeepsPaymentsInv(moves);
      NoticeIsRecorded(moves, i);
      NoticeIsRecorded(moves, j);
      PaymentHistory(st, a.id);
      assert Statuses(st.trail[a.id])[a.version] == a.body.payStatus;
      assert Statuses(st.trail[a.id])[b.version] == b.body.payStatus;
    }
  }

  lemma NoticeIsRecorded(moves: seq<PayMove>, i: nat)
    requires i < |PayRun(moves).outbox|
    ensures Recorded(PayRun(moves), PayRun(moves).outbox[i].row)
  {
    RunKeepsInv(PayDecide, moves);
    var st := PayRun(moves);
    NoticeMatchesCommit(PayDecide, moves, i);
    assert CallInv(PayDecide, st, st.outbox[i].call, st.calls[st.outbox[i].call]);
  }

  /** Unless its message is lost, every committed status update has published the row it stored. */
  lemma CommittedIsPublished(moves: seq<PayMove>, c: nat, row: PayRow)
    requires forall k | 0 <= k < |moves| :: moves[k] != LoseNotice(c)
    requires HasCommitted(PayRun(moves), c, row)
    ensures Sent(PayRun(moves), c, row)
  {
    CommittedIsSentIff(PayDecide, moves, c, row);
    RunKeepsInv(PayDecide, moves);
    var st := PayRun(moves);
    assert CallInv(PayDecide, st, c, st.calls[c]);
    assert Moved(PayDecide, st.commits[row.id][row.version - 1].job, st.trail[row.id][row.version - 1], st.trail[row.id][row.version - 1 + 1]);
  }
}
