/**
 An update call run on its own: what it does in one piece, and the proof that the machine, left to
 advance only that call, does exactly this. The sequential services are specified by UpdateCall.
 */
module SequentialCall {
  import opened Wrappers
  import opened CacheAside
  import opened OptimisticLock
  import opened LockSafety
  import opened CacheCoherence

  ghost function UpdateCall<K, B, R>(decide: (R, B) -> Decision<B>, s: Store<K, B>, key: K, req: R): (Store<K, B>, Outcome<K, B>) {
    var (s1, found) := FindByKey(s, key);
    Settle(decide, s1, req, found)
  }

  /** What follows the lookup. */
  function Settle<K(==), B, R>(decide: (R, B) -> Decision<B>, s: Store<K, B>, req: R, found: Option<Row<K, B>>): (Store<K, B>, Outcome<K, B>) {
    match found
    case None => (s, Missing)
    case Some(row) =>
      match decide(req, row.body)
      case Keep => (s, Unchanged(row))
      case Refuse => (s, Refused)
      case Change(body, _) =>
        var (s', reply) := UpdateWithVersion(s, row.(body := body));
        (s', OutcomeOf(reply, row.(version := row.version + 1, body := body)))
  }

  function OutcomeOf<K(==), B>(reply: Reply<K, B>, row: Row<K, B>): Outcome<K, B> {
    match reply
    case Written => Committed(row)
    case NoSuchRow => Gone
    case NoRowsChanged => Conflict
    case _ => Failed
  }

  /** On a store whose key lookups are exact, a call changes the row it names as the rule says, and nothing else. */
  lemma ExactCallAppliesRule<K, B, R>(decide: (R, B) -> Decision<B>, s: Store<K, B>, key: K, req: R, id: int)
    requires KeyExact(s) && HoldsKey(s.table, id, key)
    ensures var row := s.table[id];
      var (s', outcome) := UpdateCall(decide, s, key, req);
      && KeyExact(s')
      && match decide(req, row.body)
         case Keep => s'.table == s.table && outcome == Unchanged(row)
         case Refuse => s'.table == s.table && outcome == Refused
         case Change(body, _) =>
           var row' := row.(version := row.version + 1, body := body);
           s'.table == s.table[id := row'] && outcome == Committed(row')
  {
    var (s1, found) := FindByKey(s, key);
    FindByKeyIsExactIff(s, key);
    KeyHolderIsUnique(s, id, key);
    ApplyKeepsKeyExact(s, OpFindByKey(key));
    var row := s.table[id];
    assert found == Some(row) && s1.table == s.table;
    if decide(req, row.body).Change? {
      var data := row.(body := decide(req, row.body).body);
      FoundByKeyIsVisible(s, key);
      assert !KeysTaken(s.table, id, row.keys);
      ApplyKeepsKeyExact(s1, OpUpdateWithVersion(data));
    }
  }

  /** A lookup by key leaves the id entry of the row it found free of placeholders. */
  lemma FoundByKeyIsVisible<K, B>(s: Store<K, B>, key: K)
    requires Coherent(s)
    ensures var (s1, found) := FindByKey(s, key);
      found.Some? ==> FindOne(s1, found.value.id).1 == found
  {
    FindByKeyKeepsCoherent(s, key);
    if key in s.byKey && s.byKey[key].Hit? {
      KeyHolderIsUnique(s, s.byKey[key].value, key);
    }
  }

  lemma CallWithoutHolder<K, B, R>(decide: (R, B) -> Decision<B>, s: Store<K, B>, key: K, req: R)
    requires KeyExact(s) && LiveRowByKey(s.table, key) == None
    ensures var (s', outcome) := UpdateCall(decide, s, key, req);
      KeyExact(s') && s'.table == s.table && outcome == Missing
  {
    FindByKeyIsExactIff(s, key);
    ApplyKeepsKeyExact(s, OpFindByKey(key));
  }

  // ----- a lookup left alone -----

  function Rank<K(==), B>(look: Lookup<K, B>): nat {
    match look
    case AtKey(_) => 6
    case QueryKey(_) => 5
    case SetRow(_, _) => 4
    case AtId(_) => 3
    case QueryId(_) => 2
    case SetKey(_, _) => 1
    case SetNoKey(_) => 1
    case SetId(_) => 1
    case SetNoId(_) => 1
    case _ => 0
  }

  ghost function Finish<K, B>(s: Store<K, B>, look: Lookup<K, B>): (Store<K, B>, Lookup<K, B>)
    decreases Rank(look)
  {
    if Rank(look) == 0 then (s, look)
    else var (s', look') := LookupStep(s, look); Finish(s', look')
  }

  function Result<K(==), B>(found: Option<Row<K, B>>): Lookup<K, B> {
    match found
    case Some(row) => Got(row)
    case None => Absent
  }

  lemma FinishById<K, B>(s: Store<K, B>, id: int)
    requires WellFormed(s)
    ensures Finish(s, AtId(id)) == (FindOne(s, id).0, Result(FindOne(s, id).1))
  {
    if id !in s.byId {
      match LiveRow(s.table, id)
      case Some(row) =>
        assert Finish(s, SetId(row)) == (s.(byId := s.byId[id := Hit(row)]), Got(row));
        assert Finish(s, QueryId(id)) == Finish(s, SetId(row));
      case None =>
        assert Finish(s, SetNoId(id)) == (s.(byId := s.byId[id := Placeholder]), Absent);
        assert Finish(s, QueryId(id)) == Finish(s, SetNoId(id));
    }
  }

  lemma FinishByKey<K, B>(s: Store<K, B>, key: K)
    requires WellFormed(s)
    ensures Finish(s, AtKey(key)) == (FindByKey(s, key).0, Result(FindByKey(s, key).1))
  {
    if key in s.byKey {
      match s.byKey[key]
      case Hit(id) => FinishById(s, id);
      case Placeholder =>
    } else {
      match LiveRowByKey(s.table, key)
      case Some(row) =>
        assert Finish(s.(byId := s.byId[row.id := Hit(row)]), SetKey(key, row)) == (FindByKey(s, key).0, Got(row));
        assert Finish(s, QueryKey(key)) == Finish(s, SetRow(key, row));
      case None =>
        assert Finish(s, SetNoKey(key)) == (FindByKey(s, key).0, Absent);
        assert Finish(s, QueryKey(key)) == Finish(s, SetNoKey(key));
    }
  }

  // ----- a call left alone -----

  /** Nothing but call `c` moves from each state to the next. */
  ghost predicate Solo<K, B, R>(decide: (R, B) -> Decision<B>, c: nat, states: seq<State<K, B, R>>) {
    forall i | 0 <= i < |states| - 1 :: states[i + 1] == Next(decide, states[i], Advance(c))
  }

  ghost predicate SoloFrom<K, B, R>(decide: (R, B) -> Decision<B>, c: nat, states: seq<State<K, B, R>>, st: State<K, B, R>) {
    states != [] && states[0] == st && Solo(decide, c, states)
  }

  function Last<X>(xs: seq<X>): X
    requires xs != []
  {
    xs[|xs| - 1]
  }

  /** One run, and another that starts where it ends. */
  function Join<X>(a: seq<X>, b: seq<X>): seq<X>
    requires b != []
  {
    a + b[1..]
  }

  lemma JoinIsSolo<K, B, R>(decide: (R, B) -> Decision<B>, c: nat, a: seq<State<K, B, R>>, b: seq<State<K, B, R>>, st: State<K, B, R>)
    requires SoloFrom(decide, c, a, st) && SoloFrom(decide, c, b, Last(a))
    ensures SoloFrom(decide, c, Join(a, b), st) && Last(Join(a, b)) == Last(b)
  {
    var states := Join(a, b);
    forall i | 0 <= i < |states| - 1 ensures states[i + 1] == Next(decide, states[i], Advance(c)) {
      if i + 1 < |a| {
        assert a[i + 1] == Next(decide, a[i], Advance(c));
      } else {
        assert b[i + 1 - |a| + 1] == Next(decide, b[i + 1 - |a|], Advance(c));
      }
    }
  }

  lemma OneAdvance<K, B, R>(decide: (R, B) -> Decision<B>, st: State<K, B, R>, c: nat) returns (states: seq<State<K, B, R>>)
    ensures SoloFrom(decide, c, states, st) && Last(states) == Next(decide, st, Advance(c))
  {
    states := [st, Next(decide, st, Advance(c))];
  }

  ghost predicate Looking<K, B, R>(st: State<K, B, R>, c: nat) {
    c in st.calls && (st.calls[c].phase.Loading? || st.calls[c].phase.Checking?)
  }

  /** The state in which the lookup of call `c` has come to `look`, leaving the store `s`. */
  function Looked<K(==), B, R>(st: State<K, B, R>, c: nat, call: Call<K, B, R>, s: Store<K, B>, look: Lookup<K, B>): State<K, B, R>
    requires call.phase.Loading? || call.phase.Checking?
  {
    SetPhase(st.(store := s), c, call, call.phase.(look := look))
  }

  lemma LookingStep<K, B, R>(decide: (R, B) -> Decision<B>, st: State<K, B, R>, c: nat, call: Call<K, B, R>)
    requires Looking(st, c) && st.calls[c] == call && Rank(call.phase.look) != 0
    ensures var (s, look) := LookupStep(st.store, call.phase.look);
      Next(decide, st, Advance(c)) == Looked(st, c, call, s, look)
  {
  }

  lemma LookedAgain<K, B, R>(st: State<K, B, R>, c: nat, call: Call<K, B, R>, s: Store<K, B>, look: Lookup<K, B>, s': Store<K, B>, look': Lookup<K, B>)
    requires call.phase.Loading? || call.phase.Checking?
    ensures var st1 := Looked(st, c, call, s, look);
      && c in st1.calls && st1.store == s && st1.calls[c] == call.(phase := call.phase.(look := look))
      && Looked(st1, c, st1.calls[c], s', look') == Looked(st, c, call, s', look')
  {
  }

  lemma {:induction false} FinishLooking<K, B, R>(decide: (R, B) -> Decision<B>, st: State<K, B, R>, c: nat) returns (states: seq<State<K, B, R>>)
    requires Looking(st, c)
    ensures var (s, look) := Finish(st.store, st.calls[c].phase.look);
      SoloFrom(decide, c, states, st) && Last(states) == Looked(st, c, st.calls[c], s, look)
    decreases Rank(st.calls[c].phase.look)
  {
    var call := st.calls[c];
    if Rank(call.phase.look) == 0 {
      assert Looked(st, c, call, st.store, call.phase.look) == st;
      states := [st];
    } else {
      var (s, look) := LookupStep(st.store, call.phase.look);
      var (s', look') := Finish(s, look);
      LookingStep(decide, st, c, call);
      LookedAgain(st, c, call, s, look, s', look');
      var first := OneAdvance(decide, st, c);
      var rest := FinishLooking(decide, Last(first), c);
      JoinIsSolo(decide, c, first, rest, st);
      states := Join(first, rest);
    }
  }

  /** The effect of writing `row` after the check found `found`. */
  function AfterCheck<K(==), B>(s: Store<K, B>, row: Row<K, B>, found: Option<Row<K, B>>): (Store<K, B>, Outcome<K, B>) {
    match found
    case None => (s, Gone)
    case Some(cached) =>
      if VersionMatches(s, row) then
        (Forget(s.(table := s.table[row.id := row]), cached.id, cached.keys), Committed(row))
      else
        (Forget(s, cached.id, cached.keys), Conflict)
  }

  lemma UpdateWithVersionIsWritten<K, B>(s: Store<K, B>, data: Row<K, B>)
    requires WellFormed(s) && data.id in s.table && s.table[data.id].keys == data.keys
    ensures var (s1, found) := FindOne(s, data.id);
      var row := data.(version := data.version + 1);
      var (s2, reply) := UpdateWithVersion(s, data);
      AfterCheck(s1, row, found) == (s2, OutcomeOf(reply, row))
  {
    assert !KeysTaken(s.table, data.id, data.keys);
  }

  /** The messages after a call: one more exactly when it committed and its rule has it announced. */
  function WithMessage<K(==), B>(outbox: seq<Notice<K, B>>, c: nat, outcome: Outcome<K, B>, notify: bool): seq<Notice<K, B>> {
    if outcome.Committed? && notify then outbox + [Notice(c, outcome.row)] else outbox
  }

  /** From `st` on, the call has returned with this result and its message, and no other call has moved. */
  ghost predicate Ended<K, B, R>(st: State<K, B, R>, st': State<K, B, R>, c: nat, notify: bool, result: (Store<K, B>, Outcome<K, B>)) {
    && c in st.calls
    && st'.store == result.0
    && st'.calls == st.calls[c := st.calls[c].(phase := Returned(result.1))]
    && st'.outbox == WithMessage(st.outbox, c, result.1, notify)
  }

  /** Only the phase of the call, and perhaps the store, differ. */
  ghost predicate Onward<K, B, R>(st: State<K, B, R>, st': State<K, B, R>, c: nat) {
    && c in st.calls && c in st'.calls
    && st'.calls == st.calls[c := st.calls[c].(phase := st'.calls[c].phase)]
    && st'.outbox == st.outbox
  }

  lemma EndedLater<K, B, R>(st: State<K, B, R>, mid: State<K, B, R>, st': State<K, B, R>, c: nat, notify: bool, result: (Store<K, B>, Outcome<K, B>))
    requires Onward(st, mid, c) && Ended(mid, st', c, notify, result)
    ensures Ended(st, st', c, notify, result)
  {
  }

  /** The cache deletion and the message. */
  lemma FinishEvicting<K, B, R>(decide: (R, B) -> Decision<B>, st: State<K, B, R>, c: nat, draft: Draft<K, B>, cached: Row<K, B>, changed: bool)
    returns (states: seq<State<K, B, R>>)
    requires c in st.calls && st.calls[c].phase == Evicting(draft, cached, changed)
    ensures SoloFrom(decide, c, states, st)
    ensures Ended(st, Last(states), c, draft.notify,
                  (Forget(st.store, cached.id, cached.keys), if changed then Committed(draft.row) else Conflict))
  {
    states := OneAdvance(decide, st, c);
    var after := Last(states);
    if after.calls[c].phase.Notifying? {
      var sent := OneAdvance(decide, after, c);
      JoinIsSolo(decide, c, states, sent, st);
      states := Join(states, sent);
    }
  }

  /** The statement and what follows it. */
  lemma FinishWriting<K, B, R>(decide: (R, B) -> Decision<B>, st: State<K, B, R>, c: nat, draft: Draft<K, B>, cached: Row<K, B>)
    returns (states: seq<State<K, B, R>>)
    requires c in st.calls && st.calls[c].phase == Writing(draft, cached)
    ensures SoloFrom(decide, c, states, st)
    ensures Ended(st, Last(states), c, draft.notify, AfterCheck(st.store, draft.row, Some(cached)))
  {
    var first := OneAdvance(decide, st, c);
    var rest := FinishEvicting(decide, Last(first), c, draft, cached, VersionMatches(st.store, draft.row));
    JoinIsSolo(decide, c, first, rest, st);
    EndedLater(st, Last(first), Last(rest), c, draft.notify, AfterCheck(st.store, draft.row, Some(cached)));
    states := Join(first, rest);
  }

  lemma FinishChecked<K, B, R>(decide: (R, B) -> Decision<B>, st: State<K, B, R>, c: nat, draft: Draft<K, B>, found: Option<Row<K, B>>)
    returns (states: seq<State<K, B, R>>)
    requires c in st.calls && st.calls[c].phase == Checking(draft, Result(found))
    ensures SoloFrom(decide, c, states, st)
    ensures Ended(st, Last(states), c, draft.notify, AfterCheck(st.store, draft.row, found))
  {
    states := OneAdvance(decide, st, c);
    if found.Some? {
      var rest := FinishWriting(decide, Last(states), c, draft, found.value);
      JoinIsSolo(decide, c, states, rest, st);
      EndedLater(st, Last(states), Last(rest), c, draft.notify, AfterCheck(st.store, draft.row, found));
      states := Join(states, rest);
    }
  }

  /** From the version check on. */
  lemma FinishChecking<K, B, R>(decide: (R, B) -> Decision<B>, st: State<K, B, R>, c: nat, draft: Draft<K, B>)
    returns (states: seq<State<K, B, R>>)
    requires WellFormed(st.store) && c in st.calls
    requires st.calls[c].phase == Checking(draft, AtId(draft.row.id))
    ensures SoloFrom(decide, c, states, st)
    ensures var (s1, found) := FindOne(st.store, draft.row.id);
      Ended(st, Last(states), c, draft.notify, AfterCheck(s1, draft.row, found))
  {
    FinishById(st.store, draft.row.id);
    var (s1, found) := FindOne(st.store, draft.row.id);
    var looked := FinishLooking(decide, st, c);
    var rest := FinishChecked(decide, Last(looked), c, draft, found);
    JoinIsSolo(decide, c, looked, rest, st);
    EndedLater(st, Last(looked), Last(rest), c, draft.notify, AfterCheck(s1, draft.row, found));
    states := Join(looked, rest);
  }

  /** A call that has decided on a change goes on as `UpdateWithVersion` does on the row it read. */
  lemma FinishChange<K, B, R>(decide: (R, B) -> Decision<B>, st: State<K, B, R>, c: nat, data: Row<K, B>, notify: bool)
    returns (states: seq<State<K, B, R>>)
    requires Inv(decide, st) && c in st.calls
    requires st.calls[c].phase == Checking(Draft(data.(version := data.version + 1), notify), AtId(data.id))
    ensures SoloFrom(decide, c, states, st)
    ensures var (s, reply) := UpdateWithVersion(st.store, data);
      Ended(st, Last(states), c, notify, (s, OutcomeOf(reply, data.(version := data.version + 1))))
  {
    var draft := Draft(data.(version := data.version + 1), notify);
    DraftKeepsKeys(decide, st, c, draft);
    UpdateWithVersionIsWritten(st.store, data);
    states := FinishChecking(decide, st, c, draft);
  }

  /** What becomes of a call that has its row. */
  lemma DecidedPhase<K, B, R>(decide: (R, B) -> Decision<B>, st: State<K, B, R>, c: nat, call: Call<K, B, R>, found: Option<Row<K, B>>)
    requires Inv(decide, st) && c in st.calls && st.calls[c] == call && call.job.UpdateJob? && call.phase == Loading(Result(found))
    ensures var decided := Next(decide, st, Advance(c));
      && decided == SetPhase(st, c, call, if found.Some? then Decide(decide, call.job, found.value) else Returned(Missing))
      && Inv(decide, decided)
  {
    NextKeepsInv(decide, st, Advance(c));
  }

  /** The rule has the change announced that the request makes of the row. */
  predicate Announces<K(==), B, R>(decide: (R, B) -> Decision<B>, req: R, found: Option<Row<K, B>>) {
    found.Some? && decide(req, found.value.body).Change? && decide(req, found.value.body).notify
  }

  /** A change is checked, and then settled, as an update of `data`. */
  lemma ChangeIsUpdate<K, B, R>(decide: (R, B) -> Decision<B>, s: Store<K, B>, req: R, row: Row<K, B>, data: Row<K, B>, notify: bool)
    requires decide(req, row.body) == Change(data.body, notify) && data == row.(body := data.body)
    ensures Decide(decide, UpdateJob(req), row) == Checking(Draft(data.(version := data.version + 1), notify), AtId(data.id))
    ensures var (s', reply) := UpdateWithVersion(s, data);
      Settle(decide, s, req, Some(row)) == (s', OutcomeOf(reply, data.(version := data.version + 1)))
  {
  }

  lemma FinishDeciding<K, B, R>(decide: (R, B) -> Decision<B>, st: State<K, B, R>, c: nat, call: Call<K, B, R>, req: R, found: Option<Row<K, B>>)
    returns (states: seq<State<K, B, R>>)
    requires Inv(decide, st) && c in st.calls && st.calls[c] == call
    requires call.job == UpdateJob(req) && call.phase == Loading(Result(found))
    ensures SoloFrom(decide, c, states, st)
    ensures Ended(st, Last(states), c, Announces(decide, req, found), Settle(decide, st.store, req, found))
  {
    DecidedPhase(decide, st, c, call, found);
    states := OneAdvance(decide, st, c);
    if found.Some? && decide(req, found.value.body).Change? {
      var Change(body, notify) := decide(req, found.value.body);
      var data := found.value.(body := body);
      ChangeIsUpdate(decide, st.store, req, found.value, data, notify);
      var rest := FinishChange(decide, Last(states), c, data, notify);
      JoinIsSolo(decide, c, states, rest, st);
      EndedLater(st, Last(states), Last(rest), c, notify, Settle(decide, st.store, req, found));
      states := Join(states, rest);
    }
  }

  /** The state after the lookup. */
  lemma FinishLoading<K, B, R>(decide: (R, B) -> Decision<B>, st: State<K, B, R>, c: nat, key: K, job: Job<R>) returns (states: seq<State<K, B, R>>)
    requires WellFormed(st.store) && c in st.calls && st.calls[c] == Call(key, job, Loading(AtKey(key)))
    ensures var (s, found) := FindByKey(st.store, key);
      SoloFrom(decide, c, states, st) && Last(states) == Looked(st, c, st.calls[c], s, Result(found))
  {
    FinishByKey(st.store, key);
    states := FinishLooking(decide, st, c);
  }

  /** A read, left alone, returns what a lookup by key finds. */
  lemma SoloReadReturns<K, B, R>(decide: (R, B) -> Decision<B>, st: State<K, B, R>, c: nat, key: K) returns (states: seq<State<K, B, R>>)
    requires WellFormed(st.store) && c in st.calls && st.calls[c] == Call(key, ReadJob, Loading(AtKey(key)))
    ensures SoloFrom(decide, c, states, st)
    ensures var (s, found) := FindByKey(st.store, key);
      Ended(st, Last(states), c, false, (s, Read(found)))
  {
    var looked := FinishLoading(decide, st, c, key, ReadJob);
    var returned := OneAdvance(decide, Last(looked), c);
    JoinIsSolo(decide, c, looked, returned, st);
    states := Join(looked, returned);
  }

  lemma {:induction false} SoloKeepsInv<K, B, R>(decide: (R, B) -> Decision<B>, c: nat, states: seq<State<K, B, R>>)
    requires states != [] && Inv(decide, states[0]) && Solo(decide, c, states)
    ensures Inv(decide, Last(states))
    decreases |states|
  {
    if |states| == 1 {
    } else {
      NextKeepsInv(decide, states[0], Advance(c));
      assert states[0 + 1] == Next(decide, states[0], Advance(c));
      forall i | 0 <= i < |states[1..]| - 1 ensures states[1..][i + 1] == Next(decide, states[1..][i], Advance(c)) {
        assert states[i + 1 + 1] == Next(decide, states[i + 1], Advance(c));
      }
      SoloKeepsInv(decide, c, states[1..]);
    }
  }

  /** Undisturbed, a call of the machine has the effect and the outcome of UpdateCall, and sends what its rule announces. */
  lemma SoloCallIsUpdateCall<K, B, R>(decide: (R, B) -> Decision<B>, st: State<K, B, R>, c: nat, key: K, req: R) returns (states: seq<State<K, B, R>>)
    requires Inv(decide, st) && c in st.calls && st.calls[c] == Call(key, UpdateJob(req), Loading(AtKey(key)))
    ensures SoloFrom(decide, c, states, st)
    ensures Ended(st, Last(states), c, Announces(decide, req, FindByKey(st.store, key).1), UpdateCall(decide, st.store, key, req))
  {
    var looked := FinishLoading(decide, st, c, key, UpdateJob(req));
    SoloKeepsInv(decide, c, looked);
    var loaded := Last(looked);
    var rest := FinishDeciding(decide, loaded, c, loaded.calls[c], req, FindByKey(st.store, key).1);
    JoinIsSolo(decide, c, looked, rest, st);
    EndedLater(st, loaded, Last(rest), c, Announces(decide, req, FindByKey(st.store, key).1), UpdateCall(decide, st.store, key, req));
    states := Join(looked, rest);
  }

  lemma DraftKeepsKeys<K, B, R>(decide: (R, B) -> Decision<B>, st: State<K, B, R>, c: nat, draft: Draft<K, B>)
    requires Inv(decide, st) && c in st.calls && st.calls[c].phase == Checking(draft, AtId(draft.row.id))
    ensures WellFormed(st.store)
    ensures draft.row.id in st.store.table && st.store.table[draft.row.id].keys == draft.row.keys
  {
    assert CallInv(decide, st, c, st.calls[c]);
  }
}
