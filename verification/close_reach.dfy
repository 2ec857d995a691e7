/**
 The partner of the close job's safety: from every reachable state, however stale the cache and whatever other
 calls are under way, a queued task of a stored order can still complete, and closes the order if it waits.
 */
module CloseReach {
  import opened Wrappers
  import opened CacheAside
  import opened OptimisticLock
  import opened LockSafety
  import opened SequentialCall
  import opened TradeState
  import opened OrderServices
  import Close = CloseOrder

  type System = Close.System
  type SysMove = Close.SysMove

  lemma RunAppends(moves: seq<SysMove>, move: SysMove)
    ensures Close.SysRun(moves + [move]) == Close.SysNext(Close.SysRun(moves), move)
  {
    assert (moves + [move])[..|moves|] == moves;
  }

  /** Extends a run by the moves of one call. */
  lemma {:induction false} CallRuns(before: seq<SysMove>, c: nat, states: seq<OrderState>) returns (moves: seq<SysMove>)
    requires SoloFrom(OrderDecide, c, states, Close.SysRun(before).orders)
    ensures before <= moves && Close.SysRun(moves) == Close.SysRun(before).(orders := Last(states))
    decreases |states|
  {
    var last := |states| - 1;
    if last == 0 {
      moves := before;
    } else {
      assert states[last - 1 + 1] == Next(OrderDecide, states[last - 1], Advance(c));
      moves := CallRuns(before, c, states[..last]);
      RunAppends(moves, Close.Others(Advance(c)));
      moves := moves + [Close.Others(Advance(c))];
    }
  }

  // ----- the order is read as it is stored -----

  /** Both entries of the row are what the table holds. */
  ghost predicate IsFresh(s: Store<string, OrderBody>, sn: string, row: OrderRow) {
    && WellFormed(s) && LiveRow(s.table, row.id) == Some(row) && sn in row.keys
    && sn in s.byKey && s.byKey[sn] == Hit(row.id)
    && row.id in s.byId && s.byId[row.id] == Hit(row)
  }

  /** With no entry under the key, a lookup reads the table and leaves both entries right. */
  lemma LookupFreshens(s: Store<string, OrderBody>, sn: string, id: int)
    requires WellFormed(s) && HoldsKey(s.table, id, sn) && sn !in s.byKey
    ensures var (s', found) := FindByKey(s, sn);
      found == Some(s.table[id]) && s'.table == s.table && IsFresh(s', sn, s.table[id])
  {
    KeyHolderIsUnique(s, id, sn);
  }

  lemma FreshCancelCommits(s: Store<string, OrderBody>, sn: string, row: OrderRow)
    requires IsFresh(s, sn, row) && Trade(row) == WAIT_PAY
    ensures var (s', outcome) := UpdateCall(OrderDecide, s, sn, CANCEL);
      var row' := row.(version := row.version + 1, body := row.body.(tradeState := CANCEL));
      outcome == Committed(row') && s'.table == s.table[row.id := row']
  {
    assert FindByKey(s, sn) == (s, Some(row));
    assert !KeysTaken(s.table, row.id, row.keys);
  }

  // ----- the stages of the task -----

  /** The task's worker has read the order, and nothing has changed it since. */
  ghost predicate HasRead(sys: System, w: nat, c: nat, sn: string, row: OrderRow) {
    && sn in sys.queued
    && w in sys.workers && sys.workers[w] == Close.Reading(sn, c)
    && c in sys.orders.calls && sys.orders.calls[c].phase == Returned(Read(Some(row)))
    && IsFresh(sys.orders.store, sn, row)
  }

  lemma RunIsWellFormed(moves: seq<SysMove>)
    ensures Inv(OrderDecide, Close.SysRun(moves).orders) && WellFormed(Close.SysRun(moves).orders.store)
  {
    Close.SysRunKeepsInv(moves);
  }

  /** A worker has taken up the task, and no cache entry can mislead it. */
  ghost predicate HasStarted(sys: System, w: nat, c: nat, sn: string) {
    && sn in sys.queued && sn !in sys.orders.store.byKey
    && w in sys.workers && sys.workers[w] == Close.Reading(sn, c)
    && c in sys.orders.calls && sys.orders.calls[c] == Call(sn, ReadJob, Loading(AtKey(sn)))
  }

  /** The entry under the serial expires, and a worker starts. */
  lemma StartStage(before: seq<SysMove>, sn: string, w: nat, c: nat) returns (after: seq<SysMove>)
    requires sn in Close.SysRun(before).queued && w !in Close.SysRun(before).workers && c !in Close.SysRun(before).orders.calls
    ensures before <= after && HasStarted(Close.SysRun(after), w, c, sn)
    ensures Close.SysRun(after).orders.store.table == Close.SysRun(before).orders.store.table
    ensures Close.SysRun(after).orders.calls.Keys == Close.SysRun(before).orders.calls.Keys + {c}
  {
    RunAppends(before, Close.Others(DropKey(sn)));
    var dropped := before + [Close.Others(DropKey(sn))];
    RunAppends(dropped, Close.Start(w, sn, c));
    after := dropped + [Close.Start(w, sn, c)];
  }

  lemma ReadStage(before: seq<SysMove>, id: int, sn: string, w: nat, c: nat) returns (after: seq<SysMove>)
    requires HasStarted(Close.SysRun(before), w, c, sn) && HoldsKey(Close.SysRun(before).orders.store.table, id, sn)
    ensures before <= after
    ensures HasRead(Close.SysRun(after), w, c, sn, Close.SysRun(before).orders.store.table[id])
    ensures Close.SysRun(after).orders.calls.Keys == Close.SysRun(before).orders.calls.Keys
  {
    RunIsWellFormed(before);
    LookupFreshens(Close.SysRun(before).orders.store, sn, id);
    var states := SoloReadReturns(OrderDecide, Close.SysRun(before).orders, c, sn);
    after := CallRuns(before, c, states);
  }

  lemma FinishStage(before: seq<SysMove>, w: nat, sn: string, c: nat, row: OrderRow, d: nat) returns (after: seq<SysMove>)
    requires HasRead(Close.SysRun(before), w, c, sn, row) && Trade(row) != WAIT_PAY
    ensures before <= after && Close.SysRun(after) == Close.Finish(Close.SysRun(before), w, sn, true)
  {
    RunAppends(before, Close.Proceed(w, d));
    after := before + [Close.Proceed(w, d)];
  }

  /** The worker asks for the cancellation. */
  lemma AskStage(before: seq<SysMove>, w: nat, sn: string, c: nat, row: OrderRow, d: nat) returns (after: seq<SysMove>)
    requires HasRead(Close.SysRun(before), w, c, sn, row) && Trade(row) == WAIT_PAY && d !in Close.SysRun(before).orders.calls
    ensures before <= after
    ensures var sys := Close.SysRun(after);
      && w in sys.workers && sys.workers[w] == Close.Cancelling(sn, d)
      && d in sys.orders.calls && sys.orders.calls[d] == Call(sn, UpdateJob(CANCEL), Loading(AtKey(sn)))
      && sys.orders.store == Close.SysRun(before).orders.store
  {
    RunAppends(before, Close.Proceed(w, d));
    after := before + [Close.Proceed(w, d)];
  }

  /** The worker's cancellation has committed. */
  ghost predicate HasCancelled(sys: System, w: nat, sn: string, row: OrderRow, d: nat) {
    && w in sys.workers && sys.workers[w] == Close.Cancelling(sn, d)
    && d in sys.orders.calls && sys.orders.calls[d].phase.Returned? && sys.orders.calls[d].phase.outcome.Committed?
    && LiveRow(sys.orders.store.table, row.id) == Some(row)
  }

  lemma CancelStage(before: seq<SysMove>, w: nat, sn: string, row: OrderRow, d: nat) returns (after: seq<SysMove>)
    requires var sys := Close.SysRun(before);
      && w in sys.workers && sys.workers[w] == Close.Cancelling(sn, d)
      && d in sys.orders.calls && sys.orders.calls[d] == Call(sn, UpdateJob(CANCEL), Loading(AtKey(sn)))
      && IsFresh(sys.orders.store, sn, row) && Trade(row) == WAIT_PAY
    ensures before <= after
    ensures HasCancelled(Close.SysRun(after), w, sn, row.(version := row.version + 1, body := row.body.(tradeState := CANCEL)), d)
  {
    RunIsWellFormed(before);
    FreshCancelCommits(Close.SysRun(before).orders.store, sn, row);
    var states := SoloCallIsUpdateCall(OrderDecide, Close.SysRun(before).orders, d, sn, CANCEL);
    after := CallRuns(before, d, states);
  }

  /** The worker reports success. */
  lemma ReportStage(before: seq<SysMove>, w: nat, sn: string, row: OrderRow, d: nat) returns (after: seq<SysMove>)
    requires HasCancelled(Close.SysRun(before), w, sn, row, d)
    ensures before <= after && Close.SysRun(after) == Close.Finish(Close.SysRun(before), w, sn, true)
  {
    RunAppends(before, Close.Proceed(w, d));
    after := before + [Close.Proceed(w, d)];
  }

  /** The task is done, and the order is closed if it waited. */
  ghost predicate IsDone(sys: System, sn: string, row: OrderRow) {
    && sn in sys.completed && sn !in sys.queued
    && row.id in sys.orders.store.table
    && sys.orders.store.table[row.id]
       == if Trade(row) != WAIT_PAY then row else row.(version := row.version + 1, body := row.body.(tradeState := CANCEL))
  }

  lemma CompleteStage(before: seq<SysMove>, w: nat, sn: string, c: nat, row: OrderRow, d: nat) returns (after: seq<SysMove>)
    requires HasRead(Close.SysRun(before), w, c, sn, row) && d !in Close.SysRun(before).orders.calls
    ensures before <= after && IsDone(Close.SysRun(after), sn, row)
  {
    if Trade(row) != WAIT_PAY {
      after := FinishStage(before, w, sn, c, row, d);
    } else {
      var cancelled := row.(version := row.version + 1, body := row.body.(tradeState := CANCEL));
      after := AskStage(before, w, sn, c, row, d);
      after := CancelStage(after, w, sn, row, d);
      after := ReportStage(after, w, sn, cancelled, d);
    }
  }

  /** `w`, `c` and `d` are a worker and two calls not in use. */
  lemma EveryQueuedTaskCanComplete(before: seq<SysMove>, id: int, sn: string, w: nat, c: nat, d: nat) returns (after: seq<SysMove>)
    requires sn in Close.SysRun(before).queued && HoldsKey(Close.SysRun(before).orders.store.table, id, sn)
    requires w !in Close.SysRun(before).workers && c != d
    requires c !in Close.SysRun(before).orders.calls && d !in Close.SysRun(before).orders.calls
    ensures before <= after
    ensures Close.SysRun(before).orders.store.table[id].id == id
    ensures IsDone(Close.SysRun(after), sn, Close.SysRun(before).orders.store.table[id])
  {
    RunIsWellFormed(before);
    var started := StartStage(before, sn, w, c);
    var read := ReadStage(started, id, sn, w, c);
    after := CompleteStage(read, w, sn, c, Close.SysRun(before).orders.store.table[id], d);
  }
}
