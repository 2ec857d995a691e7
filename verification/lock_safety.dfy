/** What every schedule of the optimistic-lock machine keeps. */
module LockSafety {
  import opened Wrappers
  import opened CacheAside
  import opened OptimisticLock

  // ----- the invariant -----

  /** The row is what was once stored under its id and version. */
  ghost predicate Recorded<K, B, R>(st: State<K, B, R>, row: Row<K, B>) {
    row.id in st.trail && 0 <= row.version < |st.trail[row.id]| && st.trail[row.id][row.version] == row
  }

  ghost predicate TrailInv<K, B, R>(st: State<K, B, R>) {
    && WellFormed(st.store)
    && st.trail.Keys == st.store.table.Keys
    && st.commits.Keys == st.store.table.Keys
    && forall id <- st.trail.Keys :: RowTrail(id, st.trail[id], st.commits[id], st.store.table[id])
  }

  ghost predicate RowTrail<K, B, R>(id: int, rows: seq<Row<K, B>>, commits: seq<Commit<R>>, stored: Row<K, B>) {
    && |rows| == |commits| + 1
    && rows[|rows| - 1] == stored
    && forall v | 0 <= v < |rows| ::
         rows[v].id == id && rows[v].version == v && rows[v].IsLive() && rows[v].keys == stored.keys
  }

  /** `b` is `a` with the body that `job` asked for and the next version. */
  ghost predicate Moved<K, B, R>(decide: (R, B) -> Decision<B>, job: Job<R>, a: Row<K, B>, b: Row<K, B>) {
    && job.UpdateJob?
    && decide(job.req, a.body).Change?
    && b == a.(version := a.version + 1, body := decide(job.req, a.body).body)
  }

  ghost predicate EdgeInv<K, B, R>(decide: (R, B) -> Decision<B>, st: State<K, B, R>) {
    forall id <- st.trail.Keys :: id in st.commits && |st.trail[id]| == |st.commits[id]| + 1 &&
      forall v | 0 <= v < |st.commits[id]| ::
        Moved(decide, st.commits[id][v].job, st.trail[id][v], st.trail[id][v + 1])
  }

  ghost predicate CacheInv<K, B, R>(st: State<K, B, R>) {
    && (forall id <- st.store.byId.Keys :: st.store.byId[id].Hit? ==>
          Recorded(st, st.store.byId[id].value) && st.store.byId[id].value.id == id)
    && (forall key <- st.store.byKey.Keys :: st.store.byKey[key].Hit? ==>
          HoldsKey(st.store.table, st.store.byKey[key].value, key))
  }

  ghost predicate LookInv<K, B, R>(st: State<K, B, R>, key: K, look: Lookup<K, B>) {
    match look
    case AtKey(k) => k == key
    case QueryKey(k) => k == key
    case SetRow(k, row) => k == key && Recorded(st, row) && key in row.keys
    case SetKey(k, row) => k == key && Recorded(st, row) && key in row.keys
    case SetNoKey(k) => k == key
    case AtId(id) => HoldsKey(st.store.table, id, key)
    case QueryId(id) => HoldsKey(st.store.table, id, key)
    case SetId(row) => Recorded(st, row) && key in row.keys
    case SetNoId(_) => true
    case Got(row) => Recorded(st, row) && key in row.keys
    case Absent => true
  }

  /** The draft is what `job` makes of the row once stored with the version before the draft's. */
  ghost predicate Proposed<K, B, R>(decide: (R, B) -> Decision<B>, st: State<K, B, R>, key: K, job: Job<R>, draft: Draft<K, B>) {
    var row := draft.row;
    && row.id in st.trail
    && 0 < row.version <= |st.trail[row.id]|
    && key in row.keys
    && Moved(decide, job, st.trail[row.id][row.version - 1], row)
    && draft.notify == decide(job.req, st.trail[row.id][row.version - 1].body).notify
  }

  /** Call `c` is the one whose commit stored this row. */
  ghost predicate CommittedBy<K, B, R>(st: State<K, B, R>, c: nat, call: Call<K, B, R>, row: Row<K, B>) {
    && Recorded(st, row)
    && call.key in row.keys
    && row.id in st.commits
    && 0 < row.version <= |st.commits[row.id]|
    && st.commits[row.id][row.version - 1] == Commit(c, call.job)
  }

  ghost predicate CallInv<K, B, R>(decide: (R, B) -> Decision<B>, st: State<K, B, R>, c: nat, call: Call<K, B, R>) {
    && (CommittedRow(call.phase).Some? ==> CommittedBy(st, c, call, CommittedRow(call.phase).value))
    && match call.phase
       case Loading(look) => LookInv(st, call.key, look)
       case Checking(draft, look) => Proposed(decide, st, call.key, call.job, draft) && LookInv(st, call.key, look)
       case Writing(draft, _) => Proposed(decide, st, call.key, call.job, draft)
       case Evicting(draft, _, _) => Proposed(decide, st, call.key, call.job, draft)
       case Notifying(draft) => Proposed(decide, st, call.key, call.job, draft) && draft.notify
       case Returned(Read(Some(row))) => Recorded(st, row) && call.key in row.keys
       case Returned(Unchanged(row)) =>
         && Recorded(st, row) && call.key in row.keys
         && call.job.UpdateJob? && decide(call.job.req, row.body).Keep?
       case Returned(_) => true
  }

  ghost predicate CallsInv<K, B, R>(decide: (R, B) -> Decision<B>, st: State<K, B, R>) {
    forall c <- st.calls.Keys :: CallInv(decide, st, c, st.calls[c])
  }

  /** Every commit has exactly one author, and the author knows it. */
  ghost predicate AuthorInv<K, B, R>(st: State<K, B, R>) {
    forall id <- st.commits.Keys :: id in st.trail && |st.trail[id]| == |st.commits[id]| + 1 &&
      forall v | 0 <= v < |st.commits[id]| ::
        && st.commits[id][v].call in st.calls
        && CommittedRow(st.calls[st.commits[id][v].call].phase) == Some(st.trail[id][v + 1])
  }

  ghost predicate OutboxInv<K, B, R>(decide: (R, B) -> Decision<B>, st: State<K, B, R>) {
    && (forall i | 0 <= i < |st.outbox| :: NoticeInv(decide, st, st.outbox[i]))
    && (forall i, j | 0 <= i < j < |st.outbox| :: st.outbox[i].call != st.outbox[j].call)
  }

  ghost predicate NoticeInv<K, B, R>(decide: (R, B) -> Decision<B>, st: State<K, B, R>, notice: Notice<K, B>) {
    && notice.call in st.calls
    && st.calls[notice.call].phase == Returned(Committed(notice.row))
    && Proposed(decide, st, st.calls[notice.call].key, st.calls[notice.call].job, Draft(notice.row, true))
  }

  ghost predicate Inv<K, B, R>(decide: (R, B) -> Decision<B>, st: State<K, B, R>) {
    && TrailInv(st)
    && EdgeInv(decide, st)
    && CacheInv(st)
    && CallsInv(decide, st)
    && AuthorInv(st)
    && OutboxInv(decide, st)
  }

  // ----- what grows stays true -----

  ghost predicate Grows<K, B, R>(st: State<K, B, R>, st': State<K, B, R>) {
    && TrailInv(st)
    && TrailInv(st')
    && forall id <- st.trail.Keys ::
         id in st'.trail && st.trail[id] <= st'.trail[id] && st.commits[id] <= st'.commits[id]
  }

  lemma LookInvGrows<K, B, R>(st: State<K, B, R>, st': State<K, B, R>, key: K, look: Lookup<K, B>)
    requires Grows(st, st') && LookInv(st, key, look)
    ensures LookInv(st', key, look)
  {
    match look
    case AtId(id) => assert st'.trail[id][0] == st.trail[id][0];
    case QueryId(id) => assert st'.trail[id][0] == st.trail[id][0];
    case _ =>
  }

  lemma CallInvGrows<K, B, R>(decide: (R, B) -> Decision<B>, st: State<K, B, R>, st': State<K, B, R>, c: nat, call: Call<K, B, R>)
    requires Grows(st, st') && CallInv(decide, st, c, call)
    ensures CallInv(decide, st', c, call)
  {
    match call.phase
    case Loading(look) => LookInvGrows(st, st', call.key, look);
    case Checking(draft, look) => LookInvGrows(st, st', call.key, look);
    case _ =>
  }

  lemma CacheInvGrows<K, B, R>(st: State<K, B, R>, st': State<K, B, R>)
    requires Grows(st, st') && CacheInv(st) && st'.store.byId == st.store.byId && st'.store.byKey == st.store.byKey
    ensures CacheInv(st')
  {
    forall key <- st'.store.byKey.Keys | st'.store.byKey[key].Hit?
      ensures HoldsKey(st'.store.table, st'.store.byKey[key].value, key)
    {
      var id := st'.store.byKey[key].value;
      assert st'.trail[id][0] == st.trail[id][0];
    }
  }

  // ----- moves that leave the table alone -----

  lemma CacheChangeKeepsInv<K, B, R>(decide: (R, B) -> Decision<B>, st: State<K, B, R>, store: Store<K, B>)
    requires Inv(decide, st) && store.table == st.store.table && store.nextId == st.store.nextId
    requires CacheInv(st.(store := store))
    ensures Inv(decide, st.(store := store))
  {
    var st' := st.(store := store);
    forall c <- st'.calls.Keys ensures CallInv(decide, st', c, st'.calls[c]) {
      CallInvGrows(decide, st, st', c, st.calls[c]);
    }
  }

  lemma PhaseChangeKeepsCalls<K, B, R>(decide: (R, B) -> Decision<B>, st: State<K, B, R>, c: nat, call: Call<K, B, R>, phase: Phase<K, B>)
    requires TrailInv(st) && CallsInv(decide, st) && OutboxInv(decide, st)
    requires c in st.calls && st.calls[c] == call && !call.phase.Returned?
    requires CallInv(decide, st, c, call.(phase := phase))
    ensures CallsInv(decide, SetPhase(st, c, call, phase)) && OutboxInv(decide, SetPhase(st, c, call, phase))
  {
    var st' := SetPhase(st, c, call, phase);
    forall d <- st'.calls.Keys ensures CallInv(decide, st', d, st'.calls[d]) {
      CallInvGrows(decide, st, st', d, st'.calls[d]);
    }
    forall i | 0 <= i < |st'.outbox| ensures NoticeInv(decide, st', st'.outbox[i]) {
      assert NoticeInv(decide, st, st.outbox[i]);
    }
  }

  lemma PhaseChangeKeepsInv<K, B, R>(decide: (R, B) -> Decision<B>, st: State<K, B, R>, c: nat, call: Call<K, B, R>, phase: Phase<K, B>)
    requires Inv(decide, st) && c in st.calls && st.calls[c] == call && !call.phase.Returned?
    requires CommittedRow(phase) == CommittedRow(call.phase)
    requires CallInv(decide, st, c, call.(phase := phase))
    ensures Inv(decide, SetPhase(st, c, call, phase))
  {
    PhaseChangeKeepsCalls(decide, st, c, call, phase);
  }

  lemma SpawnKeepsInv<K, B, R>(decide: (R, B) -> Decision<B>, st: State<K, B, R>, c: nat, key: K, job: Job<R>)
    requires Inv(decide, st) && c !in st.calls
    ensures Inv(decide, SetCall(st, c, Call(key, job, Loading(AtKey(key)))))
  {
    var st' := SetCall(st, c, Call(key, job, Loading(AtKey(key))));
    forall d <- st'.calls.Keys ensures CallInv(decide, st', d, st'.calls[d]) {
      if d != c {
        CallInvGrows(decide, st, st', d, st'.calls[d]);
      }
    }
    forall i | 0 <= i < |st'.outbox| ensures NoticeInv(decide, st', st'.outbox[i]) {
      assert NoticeInv(decide, st, st.outbox[i]);
    }
  }

  /** One access of a lookup puts only recorded rows into the cache and into the caller's hands. */
  lemma LookupStepKeepsInv<K, B, R>(decide: (R, B) -> Decision<B>, st: State<K, B, R>, key: K, look: Lookup<K, B>)
    requires Inv(decide, st) && LookInv(st, key, look)
    ensures var (store, look') := LookupStep(st.store, look);
      Inv(decide, st.(store := store)) && LookInv(st.(store := store), key, look')
  {
    var (store, look') := LookupStep(st.store, look);
    LookupStepKeepsCacheInv(st, key, look);
    CacheChangeKeepsInv(decide, st, store);
  }

  lemma LookupStepKeepsCacheInv<K, B, R>(st: State<K, B, R>, key: K, look: Lookup<K, B>)
    requires TrailInv(st) && CacheInv(st) && LookInv(st, key, look)
    ensures var (store, look') := LookupStep(st.store, look);
      && store.table == st.store.table && store.nextId == st.store.nextId
      && CacheInv(st.(store := store)) && LookInv(st.(store := store), key, look')
  {
  }

  // ----- moves that change the table -----

  /** Rows and their record may grow; the cache, the calls and the messages stay as they are. */
  lemma GrowthKeepsOthers<K, B, R>(decide: (R, B) -> Decision<B>, st: State<K, B, R>, st': State<K, B, R>)
    requires Inv(decide, st) && Grows(st, st')
    requires st'.store.byId == st.store.byId && st'.store.byKey == st.store.byKey
    requires st'.calls == st.calls && st'.outbox == st.outbox
    ensures CacheInv(st') && CallsInv(decide, st') && OutboxInv(decide, st')
  {
    CacheInvGrows(st, st');
    forall c <- st'.calls.Keys ensures CallInv(decide, st', c, st'.calls[c]) {
      CallInvGrows(decide, st, st', c, st.calls[c]);
    }
    forall i | 0 <= i < |st'.outbox| ensures NoticeInv(decide, st', st'.outbox[i]) {
      assert NoticeInv(decide, st, st.outbox[i]);
    }
  }

  ghost function Inserted<K, B, R>(st: State<K, B, R>, row: Row<K, B>): State<K, B, R> {
    st.(store := st.store.(table := st.store.table[row.id := row], nextId := row.id + 1),
        trail := st.trail[row.id := [row]],
        commits := st.commits[row.id := []])
  }

  lemma InsertedGrows<K, B, R>(st: State<K, B, R>, row: Row<K, B>)
    requires TrailInv(st) && row.id == st.store.nextId && row.version == 0 && row.IsLive()
    requires !KeysTaken(st.store.table, row.id, row.keys)
    ensures Grows(st, Inserted(st, row))
  {
    var st' := Inserted(st, row);
    PutKeepsWellFormed(st.store.(nextId := row.id + 1), row);
    forall id <- st'.trail.Keys ensures RowTrail(id, st'.trail[id], st'.commits[id], st'.store.table[id]) {
      assert id != row.id ==> RowTrail(id, st.trail[id], st.commits[id], st.store.table[id]);
    }
  }

  lemma InsertedKeepsEdges<K, B, R>(decide: (R, B) -> Decision<B>, st: State<K, B, R>, row: Row<K, B>)
    requires EdgeInv(decide, st) && AuthorInv(st)
    ensures EdgeInv(decide, Inserted(st, row)) && AuthorInv(Inserted(st, row))
  {
  }

  lemma CreateGrows<K, B, R>(decide: (R, B) -> Decision<B>, st: State<K, B, R>, keys: set<K>, body: B)
    requires TrailInv(st) && EdgeInv(decide, st) && AuthorInv(st)
    ensures var st' := CreateRow(st, keys, body);
      Grows(st, st') && EdgeInv(decide, st') && AuthorInv(st')
  {
    var row := Row(st.store.nextId, DEL_STATE_NO, 0, keys, body);
    if !KeysTaken(st.store.table, row.id, keys) {
      InsertedGrows(st, row);
      InsertedKeepsEdges(decide, st, row);
      assert CreateRow(st, keys, body) == Inserted(st, row);
    }
  }

  lemma CreateKeepsInv<K, B, R>(decide: (R, B) -> Decision<B>, st: State<K, B, R>, keys: set<K>, body: B)
    requires Inv(decide, st)
    ensures Inv(decide, CreateRow(st, keys, body))
  {
    CreateGrows(decide, st, keys, body);
    GrowthKeepsOthers(decide, st, CreateRow(st, keys, body));
  }

  /** A matching write finds the very row that the draft was made from. */
  lemma MatchingWriteMovesStoredRow<K, B, R>(decide: (R, B) -> Decision<B>, st: State<K, B, R>, key: K, job: Job<R>, draft: Draft<K, B>)
    requires TrailInv(st) && Proposed(decide, st, key, job, draft) && VersionMatches(st.store, draft.row)
    ensures Moved(decide, job, st.store.table[draft.row.id], draft.row)
  {
  }

  lemma CommitKeepsTrail<K, B, R>(decide: (R, B) -> Decision<B>, st: State<K, B, R>, c: nat, key: K, job: Job<R>, draft: Draft<K, B>)
    requires TrailInv(st) && Proposed(decide, st, key, job, draft) && VersionMatches(st.store, draft.row)
    ensures Grows(st, AfterCommit(st, c, job, draft.row))
  {
    var row := draft.row;
    var st' := AfterCommit(st, c, job, row);
    MatchingWriteMovesStoredRow(decide, st, key, job, draft);
    assert !KeysTaken(st.store.table, row.id, row.keys);
    PutKeepsWellFormed(st.store, row);
    forall id <- st'.trail.Keys ensures RowTrail(id, st'.trail[id], st'.commits[id], st'.store.table[id]) {
      assert RowTrail(id, st.trail[id], st.commits[id], st.store.table[id]);
    }
  }

  lemma CommitGrows<K, B, R>(decide: (R, B) -> Decision<B>, st: State<K, B, R>, c: nat, key: K, job: Job<R>, draft: Draft<K, B>)
    requires TrailInv(st) && EdgeInv(decide, st) && Proposed(decide, st, key, job, draft) && VersionMatches(st.store, draft.row)
    ensures Grows(st, AfterCommit(st, c, job, draft.row))
    ensures EdgeInv(decide, AfterCommit(st, c, job, draft.row))
  {
    MatchingWriteMovesStoredRow(decide, st, key, job, draft);
    CommitKeepsTrail(decide, st, c, key, job, draft);
  }

  /** The writer knows that it committed. */
  lemma CommitIsKnown<K, B, R>(decide: (R, B) -> Decision<B>, st: State<K, B, R>, c: nat, call: Call<K, B, R>)
    requires TrailInv(st) && EdgeInv(decide, st) && call.phase.Writing? && CallInv(decide, st, c, call)
    requires VersionMatches(st.store, call.phase.draft.row)
    ensures var mid := AfterCommit(st, c, call.job, call.phase.draft.row);
      Grows(st, mid) && EdgeInv(decide, mid)
      && CallInv(decide, mid, c, call.(phase := Evicting(call.phase.draft, call.phase.cached, true)))
  {
    CommitGrows(decide, st, c, call.key, call.job, call.phase.draft);
    CallInvGrows(decide, st, AfterCommit(st, c, call.job, call.phase.draft.row), c, call);
  }

  /** The statement together with the phase change that records who made it. */
  lemma CommitKeepsInv<K, B, R>(decide: (R, B) -> Decision<B>, st: State<K, B, R>, c: nat, call: Call<K, B, R>)
    requires Inv(decide, st) && c in st.calls && st.calls[c] == call && call.phase.Writing?
    requires VersionMatches(st.store, call.phase.draft.row)
    ensures Inv(decide, SetPhase(AfterCommit(st, c, call.job, call.phase.draft.row), c, call,
                                 Evicting(call.phase.draft, call.phase.cached, true)))
  {
    var mid := AfterCommit(st, c, call.job, call.phase.draft.row);
    assert CallInv(decide, st, c, call);
    CommitIsKnown(decide, st, c, call);
    GrowthKeepsOthers(decide, st, mid);
    PhaseChangeKeepsCalls(decide, mid, c, call, Evicting(call.phase.draft, call.phase.cached, true));
    CommitKeepsAuthors(st, c, call);
  }

  lemma CommitKeepsAuthors<K, B, R>(st: State<K, B, R>, c: nat, call: Call<K, B, R>)
    requires AuthorInv(st) && TrailInv(st) && c in st.calls && st.calls[c] == call && call.phase.Writing?
    requires VersionMatches(st.store, call.phase.draft.row)
    ensures AuthorInv(SetPhase(AfterCommit(st, c, call.job, call.phase.draft.row), c, call,
                               Evicting(call.phase.draft, call.phase.cached, true)))
  {
  }

  lemma WriteKeepsInv<K, B, R>(decide: (R, B) -> Decision<B>, st: State<K, B, R>, c: nat, call: Call<K, B, R>)
    requires Inv(decide, st) && c in st.calls && st.calls[c] == call && call.phase.Writing?
    ensures Inv(decide, ExecuteWrite(st, c, call, call.phase.draft, call.phase.cached))
  {
    if VersionMatches(st.store, call.phase.draft.row) {
      CommitKeepsInv(decide, st, c, call);
    } else {
      PhaseChangeKeepsInv(decide, st, c, call, Evicting(call.phase.draft, call.phase.cached, false));
    }
  }

  /** A call that has ended, and not yet sent its message, sends it. */
  lemma MessageKeepsInv<K, B, R>(decide: (R, B) -> Decision<B>, st: State<K, B, R>, notice: Notice<K, B>)
    requires Inv(decide, st) && NoticeInv(decide, st, notice)
    requires forall i | 0 <= i < |st.outbox| :: st.outbox[i].call != notice.call
    ensures Inv(decide, st.(outbox := st.outbox + [notice]))
  {
    var st' := st.(outbox := st.outbox + [notice]);
    forall d <- st'.calls.Keys ensures CallInv(decide, st', d, st'.calls[d]) {
      CallInvGrows(decide, st, st', d, st.calls[d]);
    }
    forall i | 0 <= i < |st'.outbox| ensures NoticeInv(decide, st', st'.outbox[i]) {
      assert i < |st.outbox| ==> NoticeInv(decide, st, st.outbox[i]);
    }
  }

  lemma NotifyingHasNotSent<K, B, R>(decide: (R, B) -> Decision<B>, st: State<K, B, R>, c: nat)
    requires OutboxInv(decide, st) && c in st.calls && st.calls[c].phase.Notifying?
    ensures forall i | 0 <= i < |st.outbox| :: st.outbox[i].call != c
  {
    forall i | 0 <= i < |st.outbox| ensures st.outbox[i].call != c {
      assert NoticeInv(decide, st, st.outbox[i]);
    }
  }

  lemma NotifyEndsKeepsInv<K, B, R>(decide: (R, B) -> Decision<B>, st: State<K, B, R>, c: nat, call: Call<K, B, R>)
    requires Inv(decide, st) && c in st.calls && st.calls[c] == call && call.phase.Notifying?
    ensures Inv(decide, SetPhase(st, c, call, Returned(Committed(call.phase.draft.row))))
    ensures Proposed(decide, st, call.key, call.job, Draft(call.phase.draft.row, true))
  {
    assert CallInv(decide, st, c, call);
    PhaseChangeKeepsInv(decide, st, c, call, Returned(Committed(call.phase.draft.row)));
  }

  lemma NotifyKeepsInv<K, B, R>(decide: (R, B) -> Decision<B>, st: State<K, B, R>, c: nat, call: Call<K, B, R>)
    requires Inv(decide, st) && c in st.calls && st.calls[c] == call && call.phase.Notifying?
    ensures Inv(decide, AdvanceCall(decide, st, c, call))
  {
    var row := call.phase.draft.row;
    var mid := SetPhase(st, c, call, Returned(Committed(row)));
    NotifyEndsKeepsInv(decide, st, c, call);
    NotifyingHasNotSent(decide, st, c);
    MessageKeepsInv(decide, mid, Notice(c, row));
    assert AdvanceCall(decide, st, c, call) == mid.(outbox := mid.outbox + [Notice(c, row)]);
  }

  // ----- every move -----

  /** A call leaves its deletions behind, whether they were made or lost. */
  lemma EvictionEndsKeepsInv<K, B, R>(decide: (R, B) -> Decision<B>, st: State<K, B, R>, c: nat, call: Call<K, B, R>)
    requires Inv(decide, st) && c in st.calls && st.calls[c] == call && call.phase.Evicting?
    ensures Inv(decide, SetPhase(st, c, call, AfterEviction(call.phase.draft, call.phase.changed)))
  {
    assert CallInv(decide, st, c, call);
    PhaseChangeKeepsInv(decide, st, c, call, AfterEviction(call.phase.draft, call.phase.changed));
  }

  lemma EvictKeepsInv<K, B, R>(decide: (R, B) -> Decision<B>, st: State<K, B, R>, c: nat, call: Call<K, B, R>)
    requires Inv(decide, st) && c in st.calls && st.calls[c] == call && call.phase.Evicting?
    ensures Inv(decide, AdvanceCall(decide, st, c, call))
  {
    var store := Forget(st.store, call.phase.cached.id, call.phase.cached.keys);
    CacheChangeKeepsInv(decide, st, store);
    EvictionEndsKeepsInv(decide, st.(store := store), c, call);
  }

  lemma LoadedKeepsInv<K, B, R>(decide: (R, B) -> Decision<B>, st: State<K, B, R>, c: nat, call: Call<K, B, R>)
    requires Inv(decide, st) && c in st.calls && st.calls[c] == call
    requires call.phase.Loading? && call.phase.look.Got?
    ensures Inv(decide, AdvanceCall(decide, st, c, call))
  {
    var phase := Decide(decide, call.job, call.phase.look.row);
    assert CallInv(decide, st, c, call);
    DecideIsProposed(decide, st, c, call);
    PhaseChangeKeepsInv(decide, st, c, call, phase);
    assert AdvanceCall(decide, st, c, call) == SetPhase(st, c, call, phase);
  }

  lemma CheckedKeepsInv<K, B, R>(decide: (R, B) -> Decision<B>, st: State<K, B, R>, c: nat, call: Call<K, B, R>)
    requires Inv(decide, st) && c in st.calls && st.calls[c] == call
    requires call.phase.Checking? && call.phase.look.Got?
    ensures Inv(decide, AdvanceCall(decide, st, c, call))
  {
    assert CallInv(decide, st, c, call);
    PhaseChangeKeepsInv(decide, st, c, call, Writing(call.phase.draft, call.phase.look.row));
  }

  lemma AbsentKeepsInv<K, B, R>(decide: (R, B) -> Decision<B>, st: State<K, B, R>, c: nat, call: Call<K, B, R>)
    requires Inv(decide, st) && c in st.calls && st.calls[c] == call
    requires call.phase.Loading? || call.phase.Checking?
    requires call.phase.look.Absent?
    ensures Inv(decide, AdvanceCall(decide, st, c, call))
  {
    var outcome := if call.phase.Checking? then Gone else if call.job.ReadJob? then Read(None) else Missing;
    PhaseChangeKeepsInv(decide, st, c, call, Returned(outcome));
  }

  lemma AccessKeepsInv<K, B, R>(decide: (R, B) -> Decision<B>, st: State<K, B, R>, c: nat, call: Call<K, B, R>)
    requires Inv(decide, st) && c in st.calls && st.calls[c] == call
    requires call.phase.Loading? || call.phase.Checking?
    requires !call.phase.look.Got? && !call.phase.look.Absent?
    ensures Inv(decide, AdvanceCall(decide, st, c, call))
  {
    var look := call.phase.look;
    assert CallInv(decide, st, c, call);
    LookupStepKeepsInv(decide, st, call.key, look);
    var (store, look') := LookupStep(st.store, look);
    var mid := st.(store := store);
    var phase := if call.phase.Loading? then Loading(look') else Checking(call.phase.draft, look');
    assert CallInv(decide, mid, c, call.(phase := phase));
    PhaseChangeKeepsInv(decide, mid, c, call, phase);
    assert AdvanceCall(decide, st, c, call) == SetPhase(mid, c, call, phase);
  }

  lemma DecideIsProposed<K, B, R>(decide: (R, B) -> Decision<B>, st: State<K, B, R>, c: nat, call: Call<K, B, R>)
    requires Inv(decide, st) && CallInv(decide, st, c, call)
    requires call.phase.Loading? && call.phase.look.Got?
    ensures CallInv(decide, st, c, call.(phase := Decide(decide, call.job, call.phase.look.row)))
    ensures CommittedRow(Decide(decide, call.job, call.phase.look.row)) == None
  {
  }

  lemma AdvanceKeepsInv<K, B, R>(decide: (R, B) -> Decision<B>, st: State<K, B, R>, c: nat)
    requires Inv(decide, st) && c in st.calls
    ensures Inv(decide, AdvanceCall(decide, st, c, st.calls[c]))
  {
    var call := st.calls[c];
    if call.phase.Loading? || call.phase.Checking? {
      if call.phase.look.Got? {
        if call.phase.Loading? { LoadedKeepsInv(decide, st, c, call); } else { CheckedKeepsInv(decide, st, c, call); }
      } else if call.phase.look.Absent? {
        AbsentKeepsInv(decide, st, c, call);
      } else {
        AccessKeepsInv(decide, st, c, call);
      }
    } else if call.phase.Writing? {
      WriteKeepsInv(decide, st, c, call);
      assert AdvanceCall(decide, st, c, call) == ExecuteWrite(st, c, call, call.phase.draft, call.phase.cached);
    } else if call.phase.Evicting? {
      EvictKeepsInv(decide, st, c, call);
    } else if call.phase.Notifying? {
      NotifyKeepsInv(decide, st, c, call);
    } else {
      assert AdvanceCall(decide, st, c, call) == st;
    }
  }

  lemma FailKeepsInv<K, B, R>(decide: (R, B) -> Decision<B>, st: State<K, B, R>, c: nat)
    requires Inv(decide, st) && c in st.calls
    ensures Inv(decide, SetPhase(st, c, st.calls[c], FailedPhase(st.calls[c].phase)))
  {
    var call := st.calls[c];
    if call.phase.Returned? {
      assert SetPhase(st, c, call, FailedPhase(call.phase)) == st;
    } else {
      assert CallInv(decide, st, c, call);
      PhaseChangeKeepsInv(decide, st, c, call, FailedPhase(call.phase));
    }
  }

  lemma LossKeepsInv<K, B, R>(decide: (R, B) -> Decision<B>, st: State<K, B, R>, move: Move<K, B, R>)
    requires Inv(decide, st) && (move.LoseNotice? || move.LoseEviction?)
    ensures Inv(decide, Next(decide, st, move))
  {
    var c := move.call;
    if move.LoseNotice? && c in st.calls && st.calls[c].phase.Notifying? {
      NotifyEndsKeepsInv(decide, st, c, st.calls[c]);
    } else if move.LoseEviction? && c in st.calls && st.calls[c].phase.Evicting? {
      EvictionEndsKeepsInv(decide, st, c, st.calls[c]);
    } else {
      assert Next(decide, st, move) == st;
    }
  }

  lemma DropKeepsInv<K, B, R>(decide: (R, B) -> Decision<B>, st: State<K, B, R>, move: Move<K, B, R>)
    requires Inv(decide, st) && (move.DropId? || move.DropKey?)
    ensures Inv(decide, Next(decide, st, move))
  {
    CacheChangeKeepsInv(decide, st, Next(decide, st, move).store);
  }

  /** The moves that name a call. */
  lemma CallMoveKeepsInv<K, B, R>(decide: (R, B) -> Decision<B>, st: State<K, B, R>, move: Move<K, B, R>)
    requires Inv(decide, st) && (move.Spawn? || move.Advance? || move.Fail?)
    ensures Inv(decide, Next(decide, st, move))
  {
    if move.Spawn? && move.call !in st.calls {
      SpawnKeepsInv(decide, st, move.call, move.key, move.job);
    } else if move.Advance? && move.call in st.calls {
      AdvanceKeepsInv(decide, st, move.call);
    } else if move.Fail? && move.call in st.calls {
      FailKeepsInv(decide, st, move.call);
    } else {
      assert Next(decide, st, move) == st;
    }
  }

  lemma NextKeepsInv<K, B, R>(decide: (R, B) -> Decision<B>, st: State<K, B, R>, move: Move<K, B, R>)
    requires Inv(decide, st)
    ensures Inv(decide, Next(decide, st, move))
  {
    if move.Create? {
      CreateKeepsInv(decide, st, move.keys, move.body);
    } else if move.LoseNotice? || move.LoseEviction? {
      LossKeepsInv(decide, st, move);
    } else if move.DropId? || move.DropKey? {
      DropKeepsInv(decide, st, move);
    } else {
      CallMoveKeepsInv(decide, st, move);
    }
  }

  lemma {:induction false} RunKeepsInv<K, B, R>(decide: (R, B) -> Decision<B>, moves: seq<Move<K, B, R>>)
    ensures Inv(decide, Run(decide, moves))
  {
    if moves == [] {
    } else {
      RunKeepsInv(decide, moves[..|moves| - 1]);
      NextKeepsInv(decide, Run(decide, moves[..|moves| - 1]), moves[|moves| - 1]);
    }
  }
}
