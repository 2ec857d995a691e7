/** When a committed call of the optimistic-lock machine has sent its message: exactly when its rule says so. */
module LockMessages {
  import opened Wrappers
  import opened CacheAside
  import opened OptimisticLock
  import opened LockSafety
  import opened LockTheorems

  ghost predicate Sent<K, B, R>(st: State<K, B, R>, c: nat, row: Row<K, B>) {
    exists i :: 0 <= i < |st.outbox| && st.outbox[i] == Notice(c, row)
  }

  /** The call has returned from the commit that stored `row`. */
  ghost predicate HasCommitted<K, B, R>(st: State<K, B, R>, c: nat, row: Row<K, B>) {
    c in st.calls && st.calls[c].phase == Returned(Committed(row))
  }

  /** The rule has it announced, given the version that `row` replaced. */
  ghost predicate IsAnnounced<K, B, R>(decide: (R, B) -> Decision<B>, st: State<K, B, R>, c: nat, row: Row<K, B>) {
    && c in st.calls && st.calls[c].job.UpdateJob?
    && row.id in st.trail && 0 < row.version <= |st.trail[row.id]|
    && var before := st.trail[row.id][row.version - 1].body;
       decide(st.calls[c].job.req, before).Change? && decide(st.calls[c].job.req, before).notify
  }

  /** A committed call has sent its message if its rule has it announced. */
  ghost predicate MessageInv<K, B, R>(decide: (R, B) -> Decision<B>, st: State<K, B, R>, c: nat) {
    c in st.calls && st.calls[c].phase.Returned? && st.calls[c].phase.outcome.Committed? ==>
      var row := st.calls[c].phase.outcome.row;
      IsAnnounced(decide, st, c, row) ==> Sent(st, c, row)
  }

  lemma OutboxGrows<K, B, R>(decide: (R, B) -> Decision<B>, st: State<K, B, R>, move: Move<K, B, R>)
    ensures st.outbox <= Next(decide, st, move).outbox
  {
  }

  lemma SentStays<K, B, R>(st: State<K, B, R>, st': State<K, B, R>, c: nat, row: Row<K, B>)
    requires Sent(st, c, row) && st.outbox <= st'.outbox
    ensures Sent(st', c, row)
  {
    var i :| 0 <= i < |st.outbox| && st.outbox[i] == Notice(c, row);
    assert st'.outbox[i] == Notice(c, row);
  }

  /** The version that a committed row replaced was recorded before, so announcing it was decided before. */
  lemma AnnouncedBefore<K, B, R>(decide: (R, B) -> Decision<B>, st: State<K, B, R>, move: Move<K, B, R>, c: nat, row: Row<K, B>)
    requires Inv(decide, st) && c in st.calls && row.id in st.trail && 0 < row.version <= |st.trail[row.id]|
    ensures IsAnnounced(decide, Next(decide, st, move), c, row) ==> IsAnnounced(decide, st, c, row)
  {
    CallsKeepTheirTerms(decide, st, move, c);
    StepGrows(decide, st, move);
  }

  /** A call comes to have committed only from its deletions, with nothing to announce, or by sending its message. */
  lemma BecomesCommitted<K, B, R>(decide: (R, B) -> Decision<B>, st: State<K, B, R>, move: Move<K, B, R>, c: nat, row: Row<K, B>)
    requires HasCommitted(Next(decide, st, move), c, row) && !HasCommitted(st, c, row) && move != LoseNotice(c)
    ensures c in st.calls
    ensures (st.calls[c].phase.Evicting? && st.calls[c].phase.draft == Draft(row, false))
         || (st.calls[c].phase.Notifying? && st.calls[c].phase.draft.row == row && Sent(Next(decide, st, move), c, row))
  {
    if move == Advance(c) && c in st.calls && st.calls[c].phase.Notifying? {
      var st' := Next(decide, st, move);
      assert st'.outbox[|st'.outbox| - 1] == Notice(c, st.calls[c].phase.draft.row);
    }
  }

  /** A call that had committed has not changed, so what was sent stays sent. */
  lemma CommittedKeepsMessage<K, B, R>(decide: (R, B) -> Decision<B>, st: State<K, B, R>, move: Move<K, B, R>, c: nat, row: Row<K, B>)
    requires Inv(decide, st) && MessageInv(decide, st, c) && HasCommitted(st, c, row)
    ensures IsAnnounced(decide, Next(decide, st, move), c, row) ==> Sent(Next(decide, st, move), c, row)
  {
    assert CallInv(decide, st, c, st.calls[c]);
    AnnouncedBefore(decide, st, move, c, row);
    OutboxGrows(decide, st, move);
    if IsAnnounced(decide, st, c, row) {
      SentStays(st, Next(decide, st, move), c, row);
    }
  }

  lemma UnannouncedDraft<K, B, R>(decide: (R, B) -> Decision<B>, st: State<K, B, R>, c: nat, row: Row<K, B>)
    requires c in st.calls && Proposed(decide, st, st.calls[c].key, st.calls[c].job, Draft(row, false))
    ensures row.id in st.trail && 0 < row.version <= |st.trail[row.id]| && !IsAnnounced(decide, st, c, row)
  {
  }

  /** A call that commits without a message had nothing to announce. */
  lemma CommittingSendsMessage<K, B, R>(decide: (R, B) -> Decision<B>, st: State<K, B, R>, move: Move<K, B, R>, c: nat, row: Row<K, B>)
    requires Inv(decide, st) && move != LoseNotice(c)
    requires HasCommitted(Next(decide, st, move), c, row) && !HasCommitted(st, c, row)
    ensures IsAnnounced(decide, Next(decide, st, move), c, row) ==> Sent(Next(decide, st, move), c, row)
  {
    BecomesCommitted(decide, st, move, c, row);
    if st.calls[c].phase.Evicting? {
      assert CallInv(decide, st, c, st.calls[c]);
      UnannouncedDraft(decide, st, c, row);
      AnnouncedBefore(decide, st, move, c, row);
    }
  }

  lemma NextKeepsMessageInv<K, B, R>(decide: (R, B) -> Decision<B>, st: State<K, B, R>, move: Move<K, B, R>, c: nat)
    requires Inv(decide, st) && MessageInv(decide, st, c) && move != LoseNotice(c)
    ensures MessageInv(decide, Next(decide, st, move), c)
  {
    var st' := Next(decide, st, move);
    if c in st'.calls && st'.calls[c].phase.Returned? && st'.calls[c].phase.outcome.Committed? {
      var row := st'.calls[c].phase.outcome.row;
      if HasCommitted(st, c, row) {
        CommittedKeepsMessage(decide, st, move, c, row);
      } else {
        CommittingSendsMessage(decide, st, move, c, row);
      }
    }
  }

  lemma {:induction false} RunKeepsMessageInv<K, B, R>(decide: (R, B) -> Decision<B>, moves: seq<Move<K, B, R>>, c: nat)
    requires forall k | 0 <= k < |moves| :: moves[k] != LoseNotice(c)
    ensures MessageInv(decide, Run(decide, moves), c)
    decreases |moves|
  {
    if moves == [] {
    } else {
      var last := |moves| - 1;
      RunKeepsMessageInv(decide, moves[..last], c);
      RunKeepsInv(decide, moves[..last]);
      NextKeepsMessageInv(decide, Run(decide, moves[..last]), moves[last], c);
    }
  }

  /**
   In every run in which its message is not lost, a call that has committed has sent a message about the row it
   stored if and only if its rule has the change announced.
   */
  lemma {:induction false} CommittedIsSentIff<K, B, R>(decide: (R, B) -> Decision<B>, moves: seq<Move<K, B, R>>, c: nat, row: Row<K, B>)
    requires forall k | 0 <= k < |moves| :: moves[k] != LoseNotice(c)
    requires HasCommitted(Run(decide, moves), c, row)
    ensures Sent(Run(decide, moves), c, row) <==> IsAnnounced(decide, Run(decide, moves), c, row)
  {
    RunKeepsInv(decide, moves);
    RunKeepsMessageInv(decide, moves, c);
    var st := Run(decide, moves);
    if Sent(st, c, row) {
      var i :| 0 <= i < |st.outbox| && st.outbox[i] == Notice(c, row);
      assert NoticeInv(decide, st, st.outbox[i]);
    }
  }
}
