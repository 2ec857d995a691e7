/**
 The deferred close job racing with every other caller. Workers pick up queued tasks, read the order
 through the cache, and ask for cancellation; a task stays queued until a worker reports success.
 */
module CloseOrder {
  import opened Wrappers
  import opened CacheAside
  import opened OptimisticLock
  import opened LockSafety
  import opened LockTheorems
  import opened TradeState
  import opened OrderServices

  /** `ProcessTask` in progress, waiting for the answer to the call it made. */
  datatype Worker =
    | Reading(sn: string, call: nat)
    | Cancelling(sn: string, call: nat)
    | Ended(sn: string, success: bool)

  datatype System = System(
    orders: OrderState,
    queued: set<string>,
    completed: set<string>,
    workers: map<nat, Worker>)

  datatype SysMove =
    | Place(sn: string, req: CreateReq, homestay: Homestay)
    | Enqueue(sn: string)
    | Others(move: OrderMove)
    | Start(worker: nat, sn: string, call: nat)
    | Proceed(worker: nat, call: nat)

  function Initial(): System {
    System(Empty(), {}, {}, map[])
  }

  ghost function SysNext(sys: System, move: SysMove): System {
    match move
    case Place(sn, req, homestay) =>
      sys.(orders := Next(OrderDecide, sys.orders, Create({sn}, BuildOrder(req, homestay))))
    case Enqueue(sn) => if sn in sys.completed then sys else sys.(queued := sys.queued + {sn})
    case Others(m) => if m.Create? then sys else sys.(orders := Next(OrderDecide, sys.orders, m))
    case Start(w, sn, c) =>
      if w in sys.workers || c in sys.orders.calls || sn !in sys.queued then sys
      else
        sys.(workers := sys.workers[w := Reading(sn, c)],
             orders := Next(OrderDecide, sys.orders, Spawn(c, sn, ReadJob)))
    case Proceed(w, c) => if w in sys.workers then ProceedWorker(sys, w, sys.workers[w], c) else sys
  }

  /** `c` names the next call the worker makes, if it makes one. */
  ghost function ProceedWorker(sys: System, w: nat, worker: Worker, c: nat): System {
    match worker
    case Ended(_, _) => sys
    case Reading(sn, call) =>
      if call !in sys.orders.calls || !sys.orders.calls[call].phase.Returned? then sys
      else
        (match sys.orders.calls[call].phase.outcome
         case Read(found) =>
           if DetailOf(found).tradeState != WAIT_PAY then Finish(sys, w, sn, true)
           else if c in sys.orders.calls then sys
           else
             sys.(workers := sys.workers[w := Cancelling(sn, c)],
                  orders := Next(OrderDecide, sys.orders, Spawn(c, sn, UpdateJob(CANCEL))))
         case _ => Finish(sys, w, sn, false))
    case Cancelling(sn, call) =>
      if call !in sys.orders.calls || !sys.orders.calls[call].phase.Returned? then sys
      else Finish(sys, w, sn, Answer(sys.orders.calls[call].phase.outcome).Ok?)
  }

  /** A successful run removes the task from the queue; a failed one leaves it there. */
  function Finish(sys: System, w: nat, sn: string, success: bool): System {
    var sys' := sys.(workers := sys.workers[w := Ended(sn, success)]);
    if success then sys'.(queued := sys.queued - {sn}, completed := sys.completed + {sn}) else sys'
  }

  ghost function SysRun(moves: seq<SysMove>): System {
    if moves == [] then Initial() else SysNext(SysRun(moves[..|moves| - 1]), moves[|moves| - 1])
  }

  // ----- what every move keeps -----

  /** The order with this serial exists and has left wait-pay. */
  ghost predicate HasLeft(st: OrderState, sn: string) {
    exists id :: HoldsKey(st.store.table, id, sn) && Trade(st.store.table[id]) != WAIT_PAY
  }

  ghost predicate WorkerInv(st: OrderState, worker: Worker) {
    match worker
    case Reading(sn, c) => c in st.calls && st.calls[c].key == sn && st.calls[c].job == ReadJob
    case Cancelling(sn, c) => c in st.calls && st.calls[c].key == sn && st.calls[c].job == UpdateJob(CANCEL)
    case Ended(_, _) => true
  }

  ghost predicate SysInv(sys: System) {
    && OrdersInv(sys.orders)
    && (forall w <- sys.workers.Keys :: WorkerInv(sys.orders, sys.workers[w]))
    && (forall sn <- sys.completed :: HasLeft(sys.orders, sn))
  }

  /** Seeing any recorded version out of wait-pay is proof that the stored order has left it. */
  lemma RecordedProvesLeft(st: OrderState, row: OrderRow, sn: string)
    requires OrdersInv(st) && Recorded(st, row) && sn in row.keys && Trade(row) != WAIT_PAY
    ensures HasLeft(st, sn)
  {
    OrdersInvGivesTrail(st, row.id);
    var rows := st.trail[row.id];
    OrderTrailShape(rows, row.version);
    OrderTrailShape(rows, |rows| - 1);
    assert HoldsKey(st.store.table, row.id, sn);
  }

  lemma HasLeftIsStable(st: OrderState, move: OrderMove, sn: string)
    requires OrdersInv(st) && HasLeft(st, sn) && (move.Create? ==> move.body.tradeState == WAIT_PAY)
    ensures HasLeft(Next(OrderDecide, st, move), sn)
  {
    var id :| HoldsKey(st.store.table, id, sn) && Trade(st.store.table[id]) != WAIT_PAY;
    var st' := Next(OrderDecide, st, move);
    NextKeepsOrdersInv(st, move);
    EveryStepFollowsRule(OrderDecide, st, move, id);
    var row := st.store.table[id];
    assert Recorded(st, row);
    assert Recorded(st', row);
    RecordedProvesLeft(st', row, sn);
  }

  lemma WorkerInvIsStable(st: OrderState, move: OrderMove, worker: Worker)
    requires WorkerInv(st, worker)
    ensures WorkerInv(Next(OrderDecide, st, move), worker)
  {
    if !worker.Ended? {
      CallsKeepTheirTerms(OrderDecide, st, move, worker.call);
    }
  }

  lemma OrderMoveKeepsSysInv(sys: System, move: OrderMove)
    requires SysInv(sys) && (move.Create? ==> move.body.tradeState == WAIT_PAY)
    ensures SysInv(sys.(orders := Next(OrderDecide, sys.orders, move)))
  {
    NextKeepsOrdersInv(sys.orders, move);
    forall w <- sys.workers.Keys ensures WorkerInv(Next(OrderDecide, sys.orders, move), sys.workers[w]) {
      WorkerInvIsStable(sys.orders, move, sys.workers[w]);
    }
    forall sn <- sys.completed ensures HasLeft(Next(OrderDecide, sys.orders, move), sn) {
      HasLeftIsStable(sys.orders, move, sn);
    }
  }

  /** A worker that reports success has seen, or caused, a version out of wait-pay. */
  lemma SuccessProvesLeft(st: OrderState, worker: Worker)
    requires OrdersInv(st) && WorkerInv(st, worker) && !worker.Ended? && st.calls[worker.call].phase.Returned?
    requires var outcome := st.calls[worker.call].phase.outcome;
      if worker.Reading? then outcome.Read? && DetailOf(outcome.found).tradeState != WAIT_PAY
      else Answer(outcome).Ok?
    ensures HasLeft(st, worker.sn)
  {
    var call := st.calls[worker.call];
    assert CallInv(OrderDecide, st, worker.call, call);
    match call.phase.outcome
    case Read(found) => RecordedProvesLeft(st, found.value, worker.sn);
    case Unchanged(row) => RecordedProvesLeft(st, row, worker.sn);
    case Committed(row) =>
      CommitIsCancelled(st, worker.call, call, row);
      RecordedProvesLeft(st, row, worker.sn);
  }

  lemma CommitIsCancelled(st: OrderState, c: nat, call: Call<string, OrderBody, int>, row: OrderRow)
    requires OrdersInv(st) && CommittedBy(st, c, call, row) && call.job == UpdateJob(CANCEL)
    ensures Trade(row) == CANCEL
  {
    assert Moved(OrderDecide, st.commits[row.id][row.version - 1].job,
                 st.trail[row.id][row.version - 1], st.trail[row.id][row.version - 1 + 1]);
  }

  lemma FinishKeepsSysInv(sys: System, w: nat, sn: string, success: bool)
    requires SysInv(sys) && (success ==> HasLeft(sys.orders, sn))
    ensures SysInv(Finish(sys, w, sn, success))
  {
  }

  lemma AskToCancelKeepsSysInv(sys: System, w: nat, sn: string, c: nat)
    requires SysInv(sys) && c !in sys.orders.calls
    ensures SysInv(sys.(workers := sys.workers[w := Cancelling(sn, c)],
                        orders := Next(OrderDecide, sys.orders, Spawn(c, sn, UpdateJob(CANCEL)))))
  {
    OrderMoveKeepsSysInv(sys, Spawn(c, sn, UpdateJob(CANCEL)));
  }

  lemma ReaderKeepsSysInv(sys: System, w: nat, worker: Worker, c: nat)
    requires SysInv(sys) && WorkerInv(sys.orders, worker) && worker.Reading?
    ensures SysInv(ProceedWorker(sys, w, worker, c))
  {
    if sys.orders.calls[worker.call].phase.Returned? {
      var outcome := sys.orders.calls[worker.call].phase.outcome;
      if !outcome.Read? {
        FinishKeepsSysInv(sys, w, worker.sn, false);
      } else if DetailOf(outcome.found).tradeState != WAIT_PAY {
        SuccessProvesLeft(sys.orders, worker);
        FinishKeepsSysInv(sys, w, worker.sn, true);
      } else if c !in sys.orders.calls {
        AskToCancelKeepsSysInv(sys, w, worker.sn, c);
      }
    }
  }

  lemma CancellerKeepsSysInv(sys: System, w: nat, worker: Worker, c: nat)
    requires SysInv(sys) && WorkerInv(sys.orders, worker) && worker.Cancelling?
    ensures SysInv(ProceedWorker(sys, w, worker, c))
  {
    if sys.orders.calls[worker.call].phase.Returned? {
      var success := Answer(sys.orders.calls[worker.call].phase.outcome).Ok?;
      if success {
        SuccessProvesLeft(sys.orders, worker);
      }
      FinishKeepsSysInv(sys, w, worker.sn, success);
    }
  }

  lemma ProceedKeepsSysInv(sys: System, w: nat, c: nat)
    requires SysInv(sys) && w in sys.workers
    ensures SysInv(ProceedWorker(sys, w, sys.workers[w], c))
  {
    var worker := sys.workers[w];
    assert WorkerInv(sys.orders, worker);
    match worker
    case Reading(_, _) => ReaderKeepsSysInv(sys, w, worker, c);
    case Cancelling(_, _) => CancellerKeepsSysInv(sys, w, worker, c);
    case Ended(_, _) =>
  }

  lemma SysNextKeepsInv(sys: System, move: SysMove)
    requires SysInv(sys)
    ensures SysInv(SysNext(sys, move))
  {
    match move
    case Place(sn, req, homestay) => OrderMoveKeepsSysInv(sys, Create({sn}, BuildOrder(req, homestay)));
    case Enqueue(_) =>
    case Others(m) => if !m.Create? { OrderMoveKeepsSysInv(sys, m); }
    case Start(w, sn, c) =>
      if w !in sys.workers && c !in sys.orders.calls && sn in sys.queued {
        OrderMoveKeepsSysInv(sys, Spawn(c, sn, ReadJob));
      }
    case Proceed(w, c) => if w in sys.workers { ProceedKeepsSysInv(sys, w, c); }
  }

  lemma {:induction false} SysRunKeepsInv(moves: seq<SysMove>)
    ensures SysInv(SysRun(moves))
    decreases |moves|
  {
    if moves == [] {
    } else {
      SysRunKeepsInv(moves[..|moves| - 1]);
      SysNextKeepsInv(SysRun(moves[..|moves| - 1]), moves[|moves| - 1]);
    }
  }

  // ----- the promise of the close job -----

  /** A task that has completed belongs to an order that has left wait-pay. */
  lemma CompletedMeansLeft(moves: seq<SysMove>, sn: string)
    requires sn in SysRun(moves).completed
    ensures HasLeft(SysRun(moves).orders, sn)
  {
    SysRunKeepsInv(moves);
  }

  lemma {:induction false} EnqueuedStaysUntilCompleted(moves: seq<SysMove>, n: nat)
    requires n < |moves| && moves[n].Enqueue?
    ensures moves[n].sn in SysRun(moves).queued || moves[n].sn in SysRun(moves).completed
    decreases |moves|
  {
    var last := |moves| - 1;
    if n < last {
      EnqueuedStaysUntilCompleted(moves[..last], n);
    }
  }

  /** While an order whose close task was enqueued still waits for payment, the task is still queued. */
  lemma WaitingOrderKeepsItsTask(moves: seq<SysMove>, n: nat, id: int)
    requires n < |moves| && moves[n].Enqueue?
    requires HoldsKey(SysRun(moves).orders.store.table, id, moves[n].sn)
    requires Trade(SysRun(moves).orders.store.table[id]) == WAIT_PAY
    ensures moves[n].sn in SysRun(moves).queued && moves[n].sn !in SysRun(moves).completed
  {
    EnqueuedStaysUntilCompleted(moves, n);
    SysRunKeepsInv(moves);
    var st := SysRun(moves).orders;
    if moves[n].sn in SysRun(moves).completed {
      var other :| HoldsKey(st.store.table, other, moves[n].sn) && Trade(st.store.table[other]) != WAIT_PAY;
      KeyHolderIsUnique(st.store, id, moves[n].sn);
      KeyHolderIsUnique(st.store, other, moves[n].sn);
      assert false;
    }
  }
}
