/**
 Concurrent update calls on one table behind its cache, as a state machine. Every call is cut at each
 cache access, each statement and each message, so any other call may run in between; cache entries
 may vanish, deletions and messages may get lost, and calls may fail at any point.

 A call looks a row up by key, decides what to make of it, and writes it back with
 `update ... where id = ? and version = ?`. What it decides is the parameter `decide`.
 */
module OptimisticLock {
  import opened Wrappers
  import opened CacheAside

  /** The row may already be as requested, the request may be refused, or the row is to change. */
  datatype Decision<B> = Keep | Refuse | Change(body: B, notify: bool)

  // ----- a cached lookup, one access at a time -----

  datatype Lookup<K(==), B> =
    | AtKey(key: K)
    | QueryKey(key: K)
    | SetRow(key: K, row: Row<K, B>)
    | SetKey(key: K, row: Row<K, B>)
    | SetNoKey(key: K)
    | AtId(id: int)
    | QueryId(id: int)
    | SetId(row: Row<K, B>)
    | SetNoId(id: int)
    | Got(row: Row<K, B>)
    | Absent

  ghost function LookupStep<K, B>(s: Store<K, B>, look: Lookup<K, B>): (Store<K, B>, Lookup<K, B>) {
    match look
    case AtKey(key) =>
      if key in s.byKey then
        match s.byKey[key]
        case Hit(id) => (s, AtId(id))
        case Placeholder => (s, Absent)
      else
        (s, QueryKey(key))
    case QueryKey(key) =>
      (match LiveRowByKey(s.table, key)
       case Some(row) => (s, SetRow(key, row))
       case None => (s, SetNoKey(key)))
    case SetRow(key, row) => (s.(byId := s.byId[row.id := Hit(row)]), SetKey(key, row))
    case SetKey(key, row) => (s.(byKey := s.byKey[key := Hit(row.id)]), Got(row))
    case SetNoKey(key) => (s.(byKey := s.byKey[key := Placeholder]), Absent)
    case AtId(id) =>
      if id in s.byId then
        match s.byId[id]
        case Hit(row) => (s, Got(row))
        case Placeholder => (s, Absent)
      else
        (s, QueryId(id))
    case QueryId(id) =>
      (match LiveRow(s.table, id)
       case Some(row) => (s, SetId(row))
       case None => (s, SetNoId(id)))
    case SetId(row) => (s.(byId := s.byId[row.id := Hit(row)]), Got(row))
    case SetNoId(id) => (s.(byId := s.byId[id := Placeholder]), Absent)
    case Got(_) => (s, look)
    case Absent => (s, look)
  }

  // ----- one call -----

  datatype Job<R> = ReadJob | UpdateJob(req: R)

  /** The row a call wants stored, its version already bumped. */
  datatype Draft<K(==), B> = Draft(row: Row<K, B>, notify: bool)

  datatype Outcome<K(==), B> =
    | Read(found: Option<Row<K, B>>)
    | Missing
    | Unchanged(row: Row<K, B>)
    | Refused
    | Gone
    | Conflict
    | Committed(row: Row<K, B>)
    | Failed
    | FailedAfterCommit(row: Row<K, B>)

  datatype Phase<K(==), B> =
    | Loading(look: Lookup<K, B>)
    | Checking(draft: Draft<K, B>, look: Lookup<K, B>)
    | Writing(draft: Draft<K, B>, cached: Row<K, B>)
    | Evicting(draft: Draft<K, B>, cached: Row<K, B>, changed: bool)
    | Notifying(draft: Draft<K, B>)
    | Returned(outcome: Outcome<K, B>)

  datatype Call<K(==), B, R> = Call(key: K, job: Job<R>, phase: Phase<K, B>)

  // ----- the machine -----

  datatype Commit<R> = Commit(call: nat, job: Job<R>)

  datatype Notice<K(==), B> = Notice(call: nat, row: Row<K, B>)

  /** `trail` and `commits` record, per row, what was stored and which call stored it. */
  datatype State<K(==), B, R> = State(
    store: Store<K, B>,
    calls: map<nat, Call<K, B, R>>,
    trail: map<int, seq<Row<K, B>>>,
    commits: map<int, seq<Commit<R>>>,
    outbox: seq<Notice<K, B>>)

  datatype Move<K(==), B, R> =
    | Spawn(call: nat, key: K, job: Job<R>)
    | Advance(call: nat)
    | Fail(call: nat)
    | LoseNotice(call: nat)
    | LoseEviction(call: nat)
    | DropId(id: int)
    | DropKey(key: K)
    | Create(keys: set<K>, body: B)

  function Empty<K(==), B, R>(): State<K, B, R> {
    State(Store(map[], map[], map[], 1), map[], map[], map[], [])
  }

  ghost function Next<K, B, R>(decide: (R, B) -> Decision<B>, st: State<K, B, R>, move: Move<K, B, R>): State<K, B, R> {
    match move
    case Spawn(c, key, job) =>
      if c in st.calls then st else SetCall(st, c, Call(key, job, Loading(AtKey(key))))
    case Advance(c) =>
      if c in st.calls then AdvanceCall(decide, st, c, st.calls[c]) else st
    case Fail(c) =>
      if c in st.calls then SetPhase(st, c, st.calls[c], FailedPhase(st.calls[c].phase)) else st
    case LoseNotice(c) =>
      if c in st.calls && st.calls[c].phase.Notifying? then
        SetPhase(st, c, st.calls[c], Returned(Committed(st.calls[c].phase.draft.row)))
      else
        st
    case LoseEviction(c) =>
      if c in st.calls && st.calls[c].phase.Evicting? then
        SetPhase(st, c, st.calls[c], AfterEviction(st.calls[c].phase.draft, st.calls[c].phase.changed))
      else
        st
    case DropId(id) => st.(store := st.store.(byId := st.store.byId - {id}))
    case DropKey(key) => st.(store := st.store.(byKey := st.store.byKey - {key}))
    case Create(keys, body) => CreateRow(st, keys, body)
  }

  function SetCall<K(==), B, R>(st: State<K, B, R>, c: nat, call: Call<K, B, R>): State<K, B, R> {
    st.(calls := st.calls[c := call])
  }

  function SetPhase<K(==), B, R>(st: State<K, B, R>, c: nat, call: Call<K, B, R>, phase: Phase<K, B>): State<K, B, R> {
    SetCall(st, c, call.(phase := phase))
  }

  /** The insert statement; the two key deletions after it are Drop moves the schedule may place anywhere. */
  function CreateRow<K(==), B, R>(st: State<K, B, R>, keys: set<K>, body: B): State<K, B, R> {
    var id := st.store.nextId;
    if KeysTaken(st.store.table, id, keys) then
      st.(store := st.store.(nextId := id + 1))
    else
      var row := Row(id, DEL_STATE_NO, 0, keys, body);
      st.(store := st.store.(table := st.store.table[id := row], nextId := id + 1),
          trail := st.trail[id := [row]],
          commits := st.commits[id := []])
  }

  /** Whether the phase lies after a write that matched, and with which row. */
  function CommittedRow<K(==), B>(phase: Phase<K, B>): Option<Row<K, B>> {
    match phase
    case Evicting(draft, _, changed) => if changed then Some(draft.row) else None
    case Notifying(draft) => Some(draft.row)
    case Returned(Committed(row)) => Some(row)
    case Returned(FailedAfterCommit(row)) => Some(row)
    case _ => None
  }

  function FailedPhase<K(==), B>(phase: Phase<K, B>): Phase<K, B> {
    if phase.Returned? then phase
    else
      match CommittedRow(phase)
      case Some(row) => Returned(FailedAfterCommit(row))
      case None => Returned(Failed)
  }

  /** Where a call goes once its deletions were made, or given up and left to a later retry. */
  function AfterEviction<K(==), B>(draft: Draft<K, B>, changed: bool): Phase<K, B> {
    if !changed then Returned(Conflict)
    else if draft.notify then Notifying(draft)
    else Returned(Committed(draft.row))
  }

  ghost function AdvanceCall<K, B, R>(decide: (R, B) -> Decision<B>, st: State<K, B, R>, c: nat, call: Call<K, B, R>): State<K, B, R> {
    match call.phase
    case Loading(Got(row)) => SetPhase(st, c, call, Decide(decide, call.job, row))
    case Loading(Absent) =>
      SetPhase(st, c, call, Returned(if call.job.ReadJob? then Read(None) else Missing))
    case Loading(look) =>
      var (store, look') := LookupStep(st.store, look);
      SetPhase(st.(store := store), c, call, Loading(look'))
    case Checking(draft, Got(cached)) => SetPhase(st, c, call, Writing(draft, cached))
    case Checking(_, Absent) => SetPhase(st, c, call, Returned(Gone))
    case Checking(draft, look) =>
      var (store, look') := LookupStep(st.store, look);
      SetPhase(st.(store := store), c, call, Checking(draft, look'))
    case Writing(draft, cached) => ExecuteWrite(st, c, call, draft, cached)
    case Evicting(draft, cached, changed) =>
      SetPhase(st.(store := Forget(st.store, cached.id, cached.keys)), c, call, AfterEviction(draft, changed))
    case Notifying(draft) =>
      SetPhase(st.(outbox := st.outbox + [Notice(c, draft.row)]), c, call, Returned(Committed(draft.row)))
    case Returned(_) => st
  }

  /** After the lookup: a read returns the row; an update decides, and bumps the version of what it will write. */
  function Decide<K(==), B, R>(decide: (R, B) -> Decision<B>, job: Job<R>, row: Row<K, B>): Phase<K, B> {
    match job
    case ReadJob => Returned(Read(Some(row)))
    case UpdateJob(req) =>
      match decide(req, row.body)
      case Keep => Returned(Unchanged(row))
      case Refuse => Returned(Refused)
      case Change(body, notify) =>
        Checking(Draft(row.(version := row.version + 1, body := body), notify), AtId(row.id))
  }

  function Append<X>(log: map<int, seq<X>>, id: int, x: X): map<int, seq<X>> {
    log[id := (if id in log then log[id] else []) + [x]]
  }

  /** The statement finds the row with the version the call originally read. */
  predicate VersionMatches<K(==), B>(s: Store<K, B>, row: Row<K, B>) {
    row.id in s.table && s.table[row.id].version == row.version - 1
  }

  /** The row stored, and recorded with the call that stored it. */
  function AfterCommit<K(==), B, R>(st: State<K, B, R>, c: nat, job: Job<R>, row: Row<K, B>): State<K, B, R> {
    st.(store := st.store.(table := st.store.table[row.id := row]),
        trail := Append(st.trail, row.id, row),
        commits := Append(st.commits, row.id, Commit(c, job)))
  }

  /** `update ... where id = ? and version = ?` */
  function ExecuteWrite<K(==), B, R>(st: State<K, B, R>, c: nat, call: Call<K, B, R>, draft: Draft<K, B>, cached: Row<K, B>): State<K, B, R> {
    if VersionMatches(st.store, draft.row) then
      SetPhase(AfterCommit(st, c, call.job, draft.row), c, call, Evicting(draft, cached, true))
    else
      SetPhase(st, c, call, Evicting(draft, cached, false))
  }

  /** The state after a schedule of moves, from nothing. */
  ghost function Run<K, B, R>(decide: (R, B) -> Decision<B>, moves: seq<Move<K, B, R>>): State<K, B, R> {
    if moves == [] then Empty()
    else Next(decide, Run(decide, moves[..|moves| - 1]), moves[|moves| - 1])
  }
}
