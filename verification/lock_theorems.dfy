/** Whole-run consequences of the optimistic lock, whatever the schedule and however stale the cache. */
module LockTheorems {
  import opened Wrappers
  import opened CacheAside
  import opened OptimisticLock
  import opened LockSafety

  // ----- one step -----

  /** A stored row changes only by the write of one call, and only into what that call's request makes of it. */
  ghost predicate StepFollowsRule<K, B, R>(decide: (R, B) -> Decision<B>, st: State<K, B, R>, move: Move<K, B, R>, id: int)
    requires id in st.store.table
  {
    var st' := Next(decide, st, move);
    && id in st'.store.table
    && (st'.store.table[id] != st.store.table[id] ==>
          && move.Advance? && move.call in st.calls
          && st.calls[move.call].key in st.store.table[id].keys
          && Moved(decide, st.calls[move.call].job, st.store.table[id], st'.store.table[id]))
  }

  /** How one move bears on the record of a row. */
  ghost predicate StepRecords<K, B, R>(decide: (R, B) -> Decision<B>, st: State<K, B, R>, move: Move<K, B, R>, id: int)
    requires id in st.trail && id in st.commits && id in st.store.table
  {
    var st' := Next(decide, st, move);
    && id in st'.trail && id in st'.commits && id in st'.store.table
    && if st'.store.table[id] == st.store.table[id] then
         st'.trail[id] == st.trail[id] && st'.commits[id] == st.commits[id]
       else
         && move.Advance? && move.call in st.calls
         && st'.trail[id] == st.trail[id] + [st'.store.table[id]]
         && st'.commits[id] == st.commits[id] + [Commit(move.call, st.calls[move.call].job)]
  }

  ghost predicate SameRows<K, B, R>(st: State<K, B, R>, st': State<K, B, R>) {
    st'.store.table == st.store.table && st'.trail == st.trail && st'.commits == st.commits
  }

  lemma LookupLeavesTable<K, B>(s: Store<K, B>, look: Lookup<K, B>)
    ensures LookupStep(s, look).0.table == s.table
  {
  }

  lemma AdvanceOutsideWriting<K, B, R>(decide: (R, B) -> Decision<B>, st: State<K, B, R>, c: nat)
    requires c in st.calls && !st.calls[c].phase.Writing?
    ensures SameRows(st, AdvanceCall(decide, st, c, st.calls[c]))
  {
    var phase := st.calls[c].phase;
    if (phase.Loading? || phase.Checking?) && !phase.look.Got? && !phase.look.Absent? {
      LookupLeavesTable(st.store, phase.look);
    }
  }

  /** The move is a matching write. */
  ghost predicate Commits<K, B, R>(st: State<K, B, R>, move: Move<K, B, R>) {
    && move.Advance? && move.call in st.calls
    && st.calls[move.call].phase.Writing?
    && VersionMatches(st.store, st.calls[move.call].phase.draft.row)
  }

  /** Only inserts and matching writes change rows. */
  lemma OtherMovesLeaveRows<K, B, R>(decide: (R, B) -> Decision<B>, st: State<K, B, R>, move: Move<K, B, R>)
    requires !move.Create? && !Commits(st, move)
    ensures SameRows(st, Next(decide, st, move))
  {
    if move.Advance? && move.call in st.calls && !st.calls[move.call].phase.Writing? {
      AdvanceOutsideWriting(decide, st, move.call);
    }
  }

  lemma CommitFollowsRule<K, B, R>(decide: (R, B) -> Decision<B>, st: State<K, B, R>, move: Move<K, B, R>, id: int)
    requires Inv(decide, st) && id in st.store.table && Commits(st, move)
    ensures StepFollowsRule(decide, st, move, id) && StepRecords(decide, st, move, id)
  {
    var call := st.calls[move.call];
    assert CallInv(decide, st, move.call, call);
    MatchingWriteMovesStoredRow(decide, st, call.key, call.job, call.phase.draft);
  }

  lemma EveryStepFollowsRule<K, B, R>(decide: (R, B) -> Decision<B>, st: State<K, B, R>, move: Move<K, B, R>, id: int)
    requires Inv(decide, st) && id in st.store.table
    ensures StepFollowsRule(decide, st, move, id)
    ensures StepRecords(decide, st, move, id)
  {
    if Commits(st, move) {
      CommitFollowsRule(decide, st, move, id);
    } else if !move.Create? {
      OtherMovesLeaveRows(decide, st, move);
    }
  }

  /** In every run, every committed write follows the rule from the row stored at that very moment. */
  lemma EveryCommitFollowsRule<K, B, R>(decide: (R, B) -> Decision<B>, moves: seq<Move<K, B, R>>, n: nat, id: int)
    requires n < |moves| && id in Run(decide, moves[..n]).store.table
    ensures StepFollowsRule(decide, Run(decide, moves[..n]), moves[n], id)
    ensures Run(decide, moves[..n + 1]) == Next(decide, Run(decide, moves[..n]), moves[n])
  {
    RunKeepsInv(decide, moves[..n]);
    EveryStepFollowsRule(decide, Run(decide, moves[..n]), moves[n], id);
    assert moves[..n + 1][..n] == moves[..n];
  }

  // ----- calls keep what they were asked -----

  /** Only the phase of the call differs. */
  ghost predicate OnlyPhaseChanged<K, B, R>(st: State<K, B, R>, st': State<K, B, R>, c: nat, call: Call<K, B, R>) {
    c in st'.calls && st'.calls == st.calls[c := call.(phase := st'.calls[c].phase)]
  }

  lemma SetPhaseOnly<K, B, R>(before: State<K, B, R>, st: State<K, B, R>, c: nat, call: Call<K, B, R>, phase: Phase<K, B>)
    requires st.calls == before.calls
    ensures OnlyPhaseChanged(before, SetPhase(st, c, call, phase), c, call)
  {
  }

  lemma LookupKeepsTerms<K, B, R>(decide: (R, B) -> Decision<B>, st: State<K, B, R>, c: nat, call: Call<K, B, R>)
    requires call.phase.Loading? || call.phase.Checking?
    requires !call.phase.look.Got? && !call.phase.look.Absent?
    ensures OnlyPhaseChanged(st, AdvanceCall(decide, st, c, call), c, call)
  {
    var (store, look') := LookupStep(st.store, call.phase.look);
    var phase := if call.phase.Loading? then Loading(look') else Checking(call.phase.draft, look');
    assert AdvanceCall(decide, st, c, call) == SetPhase(st.(store := store), c, call, phase);
    SetPhaseOnly(st, st.(store := store), c, call, phase);
  }

  lemma AdvanceKeepsTerms<K, B, R>(decide: (R, B) -> Decision<B>, st: State<K, B, R>, c: nat, call: Call<K, B, R>)
    requires c in st.calls && st.calls[c] == call
    ensures OnlyPhaseChanged(st, AdvanceCall(decide, st, c, call), c, call)
  {
    if (call.phase.Loading? || call.phase.Checking?) && !call.phase.look.Got? && !call.phase.look.Absent? {
      LookupKeepsTerms(decide, st, c, call);
    }
  }

  /** A call is answered with its own key and job; new calls come only from a spawn. */
  lemma CallsKeepTheirTerms<K, B, R>(decide: (R, B) -> Decision<B>, st: State<K, B, R>, move: Move<K, B, R>, c: nat)
    ensures var calls := Next(decide, st, move).calls;
      if c in st.calls then
        c in calls && calls[c].key == st.calls[c].key && calls[c].job == st.calls[c].job
      else if c in calls then
        move.Spawn? && move.call == c && calls[c].key == move.key && calls[c].job == move.job
      else
        true
  {
    if move.Advance? && move.call in st.calls {
      AdvanceKeepsTerms(decide, st, move.call, st.calls[move.call]);
    }
  }

  // ----- versions name contents -----

  lemma StepGrows<K, B, R>(decide: (R, B) -> Decision<B>, st: State<K, B, R>, move: Move<K, B, R>)
    requires Inv(decide, st)
    ensures Grows(st, Next(decide, st, move))
  {
    NextKeepsInv(decide, st, move);
    forall id <- st.trail.Keys ensures StepRecords(decide, st, move, id) {
      EveryStepFollowsRule(decide, st, move, id);
    }
  }

  lemma GrowsTransitive<K, B, R>(a: State<K, B, R>, b: State<K, B, R>, c: State<K, B, R>)
    requires Grows(a, b) && Grows(b, c)
    ensures Grows(a, c)
  {
  }

  lemma {:induction false} TrailGrows<K, B, R>(decide: (R, B) -> Decision<B>, moves: seq<Move<K, B, R>>, n: nat)
    requires n <= |moves|
    ensures Grows(Run(decide, moves[..n]), Run(decide, moves))
    decreases |moves|
  {
    if n == |moves| {
      assert moves[..n] == moves;
      RunKeepsInv(decide, moves);
    } else {
      var last := |moves| - 1;
      TrailGrows(decide, moves[..last], n);
      assert moves[..last][..n] == moves[..n];
      RunKeepsInv(decide, moves[..last]);
      StepGrows(decide, Run(decide, moves[..last]), moves[last]);
      GrowsTransitive(Run(decide, moves[..n]), Run(decide, moves[..last]), Run(decide, moves));
    }
  }

  /** If a row is stored with the same version at two moments of a run, it is the same row. */
  lemma VersionDeterminesRow<K, B, R>(decide: (R, B) -> Decision<B>, moves: seq<Move<K, B, R>>, i: nat, j: nat, id: int)
    requires i <= j <= |moves|
    requires id in Run(decide, moves[..i]).store.table && id in Run(decide, moves[..j]).store.table
    ensures var a, b := Run(decide, moves[..i]).store.table[id], Run(decide, moves[..j]).store.table[id];
      && a.version <= b.version
      && (a.version == b.version ==> a == b)
  {
    TrailGrows(decide, moves[..j], i);
    assert moves[..j][..i] == moves[..i];
  }

  ghost predicate WasStored<K, B, R>(decide: (R, B) -> Decision<B>, moves: seq<Move<K, B, R>>, row: Row<K, B>) {
    exists n :: 0 <= n <= |moves| && StoredAt(decide, moves, n, row)
  }

  ghost predicate StoredAt<K, B, R>(decide: (R, B) -> Decision<B>, moves: seq<Move<K, B, R>>, n: int, row: Row<K, B>)
    requires 0 <= n <= |moves|
  {
    LiveRow(Run(decide, moves[..n]).store.table, row.id) == Some(row)
  }

  lemma {:induction false} RecordedWasStored<K, B, R>(decide: (R, B) -> Decision<B>, moves: seq<Move<K, B, R>>, row: Row<K, B>)
    requires Recorded(Run(decide, moves), row)
    ensures WasStored(decide, moves, row)
    decreases |moves|
  {
    RunKeepsInv(decide, moves);
    var st' := Run(decide, moves);
    if row.version == |st'.trail[row.id]| - 1 {
      assert moves[..|moves|] == moves;
      assert StoredAt(decide, moves, |moves|, row);
    } else {
      var last := |moves| - 1;
      var st := Run(decide, moves[..last]);
      RunKeepsInv(decide, moves[..last]);
      assert st' == Next(decide, st, moves[last]);
      RecordedBefore(decide, st, moves[last], row);
      RecordedWasStored(decide, moves[..last], row);
      var n :| 0 <= n <= last && StoredAt(decide, moves[..last], n, row);
      assert moves[..last][..n] == moves[..n];
      assert StoredAt(decide, moves, n, row);
    }
  }

  lemma RecordedBefore<K, B, R>(decide: (R, B) -> Decision<B>, st: State<K, B, R>, move: Move<K, B, R>, row: Row<K, B>)
    requires Inv(decide, st)
    requires var st' := Next(decide, st, move);
      Recorded(st', row) && row.version < |st'.trail[row.id]| - 1
    ensures Recorded(st, row)
  {
    if row.id in st.store.table {
      EveryStepFollowsRule(decide, st, move, row.id);
    } else {
      NewRowHasOneVersion(decide, st, move, row.id);
    }
  }

  lemma NewRowHasOneVersion<K, B, R>(decide: (R, B) -> Decision<B>, st: State<K, B, R>, move: Move<K, B, R>, id: int)
    requires Inv(decide, st) && id !in st.store.table
    ensures var trail := Next(decide, st, move).trail; id in trail ==> |trail[id]| == 1
  {
    if Commits(st, move) {
      assert CallInv(decide, st, move.call, st.calls[move.call]);
    } else if !move.Create? {
      OtherMovesLeaveRows(decide, st, move);
    }
  }

  /** A cached row, however old, is one the table really held. */
  lemma CachedRowWasStored<K, B, R>(decide: (R, B) -> Decision<B>, moves: seq<Move<K, B, R>>, id: int)
    requires id in Run(decide, moves).store.byId && Run(decide, moves).store.byId[id].Hit?
    ensures WasStored(decide, moves, Run(decide, moves).store.byId[id].value)
  {
    RunKeepsInv(decide, moves);
    RecordedWasStored(decide, moves, Run(decide, moves).store.byId[id].value);
  }

  // ----- no committed update is lost -----

  /** The requests whose writes were seen to change row `id`, in commit order. */
  ghost function Successes<K, B, R>(decide: (R, B) -> Decision<B>, moves: seq<Move<K, B, R>>, id: int): seq<Job<R>> {
    if moves == [] then []
    else
      var last := |moves| - 1;
      var st, st' := Run(decide, moves[..last]), Run(decide, moves);
      var before := Successes(decide, moves[..last], id);
      if id in st.store.table && id in st'.store.table && st.store.table[id] != st'.store.table[id]
         && moves[last].Advance? && moves[last].call in st.calls then
        before + [st.calls[moves[last].call].job]
      else
        before
  }

  /** The row `id` as first inserted. */
  ghost function FirstStored<K, B, R>(decide: (R, B) -> Decision<B>, moves: seq<Move<K, B, R>>, id: int): Option<Row<K, B>> {
    if moves == [] then None
    else
      var before := FirstStored(decide, moves[..|moves| - 1], id);
      if before.Some? then before else LiveRow(Run(decide, moves).store.table, id)
  }

  /** Apply the requests one at a time, each to the result of the one before. */
  ghost function Replay<K, B, R>(decide: (R, B) -> Decision<B>, row: Row<K, B>, jobs: seq<Job<R>>): Row<K, B> {
    if jobs == [] then row
    else
      var before := Replay(decide, row, jobs[..|jobs| - 1]);
      var job := jobs[|jobs| - 1];
      if job.UpdateJob? && decide(job.req, before.body).Change? then
        before.(version := before.version + 1, body := decide(job.req, before.body).body)
      else
        before
  }

  function Jobs<R>(commits: seq<Commit<R>>): seq<Job<R>> {
    seq(|commits|, i requires 0 <= i < |commits| => commits[i].job)
  }

  /** The requests seen to change the row are those of the calls that committed to it, in the same order. */
  lemma {:induction false} SuccessesAreCommits<K, B, R>(decide: (R, B) -> Decision<B>, moves: seq<Move<K, B, R>>, id: int)
    requires id in Run(decide, moves).store.table
    ensures id in Run(decide, moves).commits
    ensures Successes(decide, moves, id) == Jobs(Run(decide, moves).commits[id])
    decreases |moves|
  {
    var last := |moves| - 1;
    var st, st' := Run(decide, moves[..last]), Run(decide, moves);
    RunKeepsInv(decide, moves[..last]);
    RunKeepsInv(decide, moves);
    if id in st.store.table {
      SuccessesAreCommits(decide, moves[..last], id);
      EveryStepFollowsRule(decide, st, moves[last], id);
    } else {
      BornWithVersionZero(decide, st, moves[last], id);
      NothingBeforeBirth(decide, moves[..last], id);
    }
  }

  /**
   The stored row is the first one with the requests of the calls that committed to it applied serially, in
   commit order; its version is their number.
   */
  lemma StoredRowIsReplay<K, B, R>(decide: (R, B) -> Decision<B>, moves: seq<Move<K, B, R>>, id: int)
    requires id in Run(decide, moves).store.table
    ensures id in Run(decide, moves).commits
    ensures var first, jobs := FirstStored(decide, moves, id), Jobs(Run(decide, moves).commits[id]);
      && first.Some? && first.value.version == 0
      && Run(decide, moves).store.table[id] == Replay(decide, first.value, jobs)
      && Run(decide, moves).store.table[id].version == |jobs|
      && jobs == Successes(decide, moves, id)
  {
    SuccessesAreCommits(decide, moves, id);
    ReplayOfSuccesses(decide, moves, id);
  }

  lemma {:induction false} ReplayOfSuccesses<K, B, R>(decide: (R, B) -> Decision<B>, moves: seq<Move<K, B, R>>, id: int)
    requires id in Run(decide, moves).store.table
    ensures var first, jobs := FirstStored(decide, moves, id), Successes(decide, moves, id);
      && first.Some? && first.value.version == 0
      && Run(decide, moves).store.table[id] == Replay(decide, first.value, jobs)
      && Run(decide, moves).store.table[id].version == |jobs|
    decreases |moves|
  {
    var last := |moves| - 1;
    var st, st' := Run(decide, moves[..last]), Run(decide, moves);
    RunKeepsInv(decide, moves[..last]);
    if id in st.store.table {
      EveryStepFollowsRule(decide, st, moves[last], id);
      ReplayOfSuccesses(decide, moves[..last], id);
      var jobs := Successes(decide, moves[..last], id);
      if st.store.table[id] != st'.store.table[id] {
        assert Successes(decide, moves, id)[..|jobs|] == jobs;
      }
    } else {
      BornWithVersionZero(decide, st, moves[last], id);
      NothingBeforeBirth(decide, moves[..last], id);
    }
  }

  lemma BornWithVersionZero<K, B, R>(decide: (R, B) -> Decision<B>, st: State<K, B, R>, move: Move<K, B, R>, id: int)
    requires Inv(decide, st) && id !in st.store.table && id in Next(decide, st, move).store.table
    ensures move.Create?
    ensures Next(decide, st, move).store.table[id] == Row(id, DEL_STATE_NO, 0, move.keys, move.body)
  {
    if !Commits(st, move) && !move.Create? {
      OtherMovesLeaveRows(decide, st, move);
    }
  }

  lemma {:induction false} NothingBeforeBirth<K, B, R>(decide: (R, B) -> Decision<B>, moves: seq<Move<K, B, R>>, id: int)
    requires id !in Run(decide, moves).store.table
    ensures FirstStored(decide, moves, id) == None && Successes(decide, moves, id) == []
    decreases |moves|
  {
    if moves == [] {
    } else {
      var last := |moves| - 1;
      var st := Run(decide, moves[..last]);
      RunKeepsInv(decide, moves[..last]);
      if id in st.store.table {
        EveryStepFollowsRule(decide, st, moves[last], id);
      }
      NothingBeforeBirth(decide, moves[..last], id);
    }
  }

  /** Calls past a matching write and commits correspond one to one. */
  lemma CommitsMatchCalls<K, B, R>(decide: (R, B) -> Decision<B>, moves: seq<Move<K, B, R>>)
    ensures var st := Run(decide, moves);
      && (forall c, d | c in st.calls && d in st.calls && c != d
            && CommittedRow(st.calls[c].phase).Some? && CommittedRow(st.calls[d].phase).Some? ::
            CommittedRow(st.calls[c].phase) != CommittedRow(st.calls[d].phase))
      && (forall id, v | id in st.commits && 0 <= v < |st.commits[id]| ::
            && st.commits[id][v].call in st.calls
            && st.calls[st.commits[id][v].call].job == st.commits[id][v].job
            && CommittedRow(st.calls[st.commits[id][v].call].phase).Some?)
      && (forall c | c in st.calls && CommittedRow(st.calls[c].phase).Some? ::
            var row := CommittedRow(st.calls[c].phase).value;
            && row.id in st.commits
            && 0 < row.version <= |st.commits[row.id]|
            && st.commits[row.id][row.version - 1] == Commit(c, st.calls[c].job))
  {
    RunKeepsInv(decide, moves);
    var st := Run(decide, moves);
    forall c | c in st.calls && CommittedRow(st.calls[c].phase).Some?
      ensures CommittedBy(st, c, st.calls[c], CommittedRow(st.calls[c].phase).value)
    {
      assert CallInv(decide, st, c, st.calls[c]);
    }
    forall id, v | id in st.commits && 0 <= v < |st.commits[id]|
      ensures st.commits[id][v].call in st.calls
        && st.calls[st.commits[id][v].call].job == st.commits[id][v].job
        && CommittedRow(st.calls[st.commits[id][v].call].phase).Some?
    {
      var c := st.commits[id][v].call;
      assert CommittedBy(st, c, st.calls[c], st.trail[id][v + 1]);
    }
  }

  /** The message was sent by the committed call whose commit it announces. */
  ghost predicate IsCommitted<K, B, R>(st: State<K, B, R>, notice: Notice<K, B>) {
    && notice.row.id in st.commits
    && 0 < notice.row.version <= |st.commits[notice.row.id]|
    && st.commits[notice.row.id][notice.row.version - 1].call == notice.call
    && notice.call in st.calls && st.calls[notice.call].phase == Returned(Committed(notice.row))
  }

  lemma NoticeIsCommitted<K, B, R>(decide: (R, B) -> Decision<B>, st: State<K, B, R>, i: nat)
    requires Inv(decide, st) && i < |st.outbox|
    ensures IsCommitted(st, st.outbox[i])
  {
    assert NoticeInv(decide, st, st.outbox[i]);
    assert CallInv(decide, st, st.outbox[i].call, st.calls[st.outbox[i].call]);
  }

  /** Each message was sent by one committed call, about the row it committed. */
  lemma NoticeMatchesCommit<K, B, R>(decide: (R, B) -> Decision<B>, moves: seq<Move<K, B, R>>, i: nat)
    requires i < |Run(decide, moves).outbox|
    ensures IsCommitted(Run(decide, moves), Run(decide, moves).outbox[i])
  {
    RunKeepsInv(decide, moves);
    NoticeIsCommitted(decide, Run(decide, moves), i);
  }

  /** No two messages are about the same commit. */
  lemma NoticesAreDistinct<K, B, R>(decide: (R, B) -> Decision<B>, moves: seq<Move<K, B, R>>, i: nat, j: nat)
    requires i < j < |Run(decide, moves).outbox|
    ensures var a, b := Run(decide, moves).outbox[i].row, Run(decide, moves).outbox[j].row;
      a.id != b.id || a.version != b.version
  {
    RunKeepsInv(decide, moves);
    NoticeMatchesCommit(decide, moves, i);
    NoticeMatchesCommit(decide, moves, j);
  }
}
