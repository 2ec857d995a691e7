/**
 What the cache of a generated model can and cannot get wrong, over every sequence of operations and
 every loss of cache entries in between.
 */
module CacheCoherence {
  import opened Wrappers
  import opened CacheAside

  // ----- cached rows are never wrong -----

  /**
   Every cached row is the live row of that id, and every cached key leads to a live row that holds
   the key and is not hidden by a placeholder. Placeholders are left unconstrained.
   */
  ghost predicate Coherent<K, B>(s: Store<K, B>) {
    && WellFormed(s)
    && (forall id <- s.byId.Keys :: s.byId[id].Hit? ==> LiveRow(s.table, id) == Some(s.byId[id].value))
    && (forall key <- s.byKey.Keys :: s.byKey[key].Hit? ==>
          && HoldsKey(s.table, s.byKey[key].value, key)
          && !HasPlaceholder(s, s.byKey[key].value))
  }

  ghost predicate HasPlaceholder<K, B>(s: Store<K, B>, id: int) {
    id in s.byId && s.byId[id].Placeholder?
  }

  lemma FindOneKeepsCoherent<K, B>(s: Store<K, B>, id: int)
    requires Coherent(s)
    ensures Coherent(FindOne(s, id).0)
    ensures FindOne(s, id).1.Some? ==> LiveRow(s.table, id) == FindOne(s, id).1
  {
  }

  lemma FindByKeyKeepsCoherent<K, B>(s: Store<K, B>, key: K)
    requires Coherent(s)
    ensures Coherent(FindByKey(s, key).0)
  {
    if exists id :: HoldsKey(s.table, id, key) {
      var id :| HoldsKey(s.table, id, key);
      KeyHolderIsUnique(s, id, key);
    }
  }

  /** Replacing a row and forgetting the keys of its *stored* version leaves no wrong entry. */
  lemma ReplaceKeepsCoherent<K, B>(s: Store<K, B>, row: Row<K, B>)
    requires Coherent(s) && row.id in s.table && !KeysTaken(s.table, row.id, row.keys)
    ensures Coherent(Forget(s.(table := s.table[row.id := row]), row.id, s.table[row.id].keys))
  {
    PutKeepsWellFormed(s, row);
  }

  lemma InsertKeepsCoherent<K, B>(s: Store<K, B>, data: Row<K, B>)
    requires Coherent(s)
    ensures Coherent(Insert(s, data).0)
  {
    if !KeysTaken(s.table, s.nextId, data.keys) {
      PutKeepsWellFormed(s.(nextId := s.nextId + 1), data.(id := s.nextId, delState := DEL_STATE_NO));
    }
  }

  lemma UpdateKeepsCoherent<K, B>(s: Store<K, B>, data: Row<K, B>)
    requires Coherent(s)
    ensures Coherent(Update(s, data).0)
  {
    FindOneKeepsCoherent(s, data.id);
    var (s1, found) := FindOne(s, data.id);
    if found.Some? && !KeysTaken(s.table, data.id, data.keys) {
      ReplaceKeepsCoherent(s1, data);
    }
  }

  lemma ForgetKeepsCoherent<K, B>(s: Store<K, B>, id: int, keys: set<K>)
    requires Coherent(s)
    ensures Coherent(Forget(s, id, keys))
  {
  }

  lemma UpdateWithVersionKeepsCoherent<K, B>(s: Store<K, B>, data: Row<K, B>)
    requires Coherent(s)
    ensures Coherent(UpdateWithVersion(s, data).0)
  {
    FindOneKeepsCoherent(s, data.id);
    var (s1, found) := FindOne(s, data.id);
    if found.Some? {
      if s1.table[data.id].version != data.version {
        ForgetKeepsCoherent(s1, data.id, s1.table[data.id].keys);
      } else if !KeysTaken(s.table, data.id, data.keys) {
        ReplaceKeepsCoherent(s1, data.(version := data.version + 1));
      }
    }
  }

  lemma DeleteKeepsCoherent<K, B>(s: Store<K, B>, id: int)
    requires Coherent(s)
    ensures Coherent(Delete(s, id).0)
  {
    FindOneKeepsCoherent(s, id);
  }

  /** The keys to delete come from a row read through this same cache; coherence makes them right. */
  lemma ApplyKeepsCoherent<K, B>(s: Store<K, B>, op: Op<K, B>)
    requires Coherent(s)
    ensures Coherent(Apply(s, op).0)
  {
    match op
    case OpFindOne(id) => FindOneKeepsCoherent(s, id);
    case OpFindByKey(key) => FindByKeyKeepsCoherent(s, key);
    case OpInsert(data) => InsertKeepsCoherent(s, data);
    case OpUpdate(data) => UpdateKeepsCoherent(s, data);
    case OpUpdateWithVersion(data) => UpdateWithVersionKeepsCoherent(s, data);
    case OpDeleteSoft(data) => UpdateWithVersionKeepsCoherent(s, data.(delState := DEL_STATE_YES));
    case OpDelete(id) => DeleteKeepsCoherent(s, id);
    case OpExpireId(id) =>
    case OpExpireKey(key) =>
  }

  lemma {:induction false} RunKeepsCoherent<K, B>(s: Store<K, B>, ops: seq<Op<K, B>>)
    requires Coherent(s)
    ensures Coherent(ApplyAll(s, ops))
    decreases |ops|
  {
    if ops == [] {
    } else {
      ApplyKeepsCoherent(s, ops[0]);
      RunKeepsCoherent(Apply(s, ops[0]).0, ops[1..]);
    }
  }

  // ----- what the cache remembers, and what it forgets -----

  /** A lookup is remembered: until a deletion, the next one gives the same answer whatever the table then holds. */
  lemma LookupIsRemembered<K, B>(s: Store<K, B>, id: int, key: K, later: Table<K, B>)
    ensures var (s1, found) := FindOne(s, id); FindOne(s1.(table := later), id) == (s1.(table := later), found)
    ensures var (s1, found) := FindByKey(s, key); FindByKey(s1.(table := later), key) == (s1.(table := later), found)
  {
  }

  /** The entries of other rows, and of other keys, are as they were. */
  ghost predicate KeepsOthers<K, B>(s: Store<K, B>, s': Store<K, B>, row: Row<K, B>) {
    s'.byId - {row.id} == s.byId - {row.id} && s'.byKey - row.keys == s.byKey - row.keys
  }

  /** A successful versioned update deletes the entries of the row it replaced, and no other. */
  lemma WriteForgetsItsRowOnly<K, B>(s: Store<K, B>, data: Row<K, B>)
    requires Coherent(s) && UpdateWithVersion(s, data).1 == Written
    ensures var s' := UpdateWithVersion(s, data).0;
      && data.id in s.table && KeepsOthers(s, s', s.table[data.id])
      && data.id !in s'.byId && forall key <- s.table[data.id].keys :: key !in s'.byKey
  {
    FindOneKeepsCoherent(s, data.id);
  }

  // ----- a soft-deleted row is gone for good -----

  ghost predicate IsDeleted<K, B>(s: Store<K, B>, id: int) {
    id in s.table && !s.table[id].IsLive()
  }

  ghost predicate Mentions<K, B>(reply: Reply<K, B>, id: int) {
    reply.Found? && reply.row.Some? && reply.row.value.id == id
  }

  lemma ApplyLeavesDeletedRow<K, B>(s: Store<K, B>, op: Op<K, B>, id: int)
    requires Coherent(s) && IsDeleted(s, id)
    ensures IsDeleted(Apply(s, op).0, id)
    ensures Apply(s, op).0.table[id] == s.table[id]
    ensures !Mentions(Apply(s, op).1, id)
  {
  }

  lemma {:induction false} RunLeavesDeletedRow<K, B>(s: Store<K, B>, ops: seq<Op<K, B>>, id: int)
    requires Coherent(s) && IsDeleted(s, id)
    ensures id in ApplyAll(s, ops).table && ApplyAll(s, ops).table[id] == s.table[id]
    ensures forall reply <- Replies(s, ops) :: !Mentions(reply, id)
    decreases |ops|
  {
    if ops == [] {
    } else {
      var s1 := Apply(s, ops[0]).0;
      ApplyKeepsCoherent(s, ops[0]);
      ApplyLeavesDeletedRow(s, ops[0], id);
      RunLeavesDeletedRow(s1, ops[1..], id);
    }
  }

  /** Once a soft delete commits, no later sequence of calls returns or changes the row. */
  lemma SoftDeleteIsFinal<K, B>(s: Store<K, B>, data: Row<K, B>, ops: seq<Op<K, B>>)
    requires Coherent(s) && DeleteSoft(s, data).1 == Written
    ensures var s1 := DeleteSoft(s, data).0;
      && data.id in s1.table
      && s1.table[data.id] == data.(delState := DEL_STATE_YES, version := data.version + 1)
      && data.id in ApplyAll(s1, ops).table
      && ApplyAll(s1, ops).table[data.id] == s1.table[data.id]
      && forall reply <- Replies(s1, ops) :: !Mentions(reply, data.id)
  {
    UpdateWithVersionKeepsCoherent(s, data.(delState := DEL_STATE_YES));
    RunLeavesDeletedRow(DeleteSoft(s, data).0, ops, data.id);
  }

  // ----- when a cached lookup is exact -----

  ghost predicate StaleId<K, B>(s: Store<K, B>, id: int) {
    HasPlaceholder(s, id) && LiveRow(s.table, id).Some?
  }

  ghost predicate StaleKey<K, B>(s: Store<K, B>, key: K) {
    key in s.byKey && s.byKey[key].Placeholder? && LiveRowByKey(s.table, key).Some?
  }

  lemma FindOneIsExactIff<K, B>(s: Store<K, B>, id: int)
    requires Coherent(s)
    ensures FindOne(s, id).1 == LiveRow(s.table, id) <==> !StaleId(s, id)
  {
  }

  /** A lookup by key is exact whatever ids were probed: only its own placeholder can hide the row. */
  lemma FindByKeyIsExactIff<K, B>(s: Store<K, B>, key: K)
    requires Coherent(s)
    ensures FindByKey(s, key).1 == LiveRowByKey(s.table, key) <==> !StaleKey(s, key)
  {
    if key in s.byKey && s.byKey[key].Hit? {
      KeyHolderIsUnique(s, s.byKey[key].value, key);
    }
  }

  ghost predicate Exact<K, B>(s: Store<K, B>) {
    && Coherent(s)
    && (forall id <- s.byId.Keys :: !StaleId(s, id))
    && (forall key <- s.byKey.Keys :: !StaleKey(s, key))
  }

  ghost predicate AlwaysExact<K, B>(s: Store<K, B>, ops: seq<Op<K, B>>)
    decreases |ops|
  {
    Exact(s) && (ops != [] ==> AlwaysExact(Apply(s, ops[0]).0, ops[1..]))
  }

  /**
   What a caller can check before a call. Insert deletes the entry of the caller's own (usually unset)
   id, so a placeholder left under the id about to be assigned survives it; an update deletes only the
   keys the row had, so a placeholder left under a key the row is about to take survives it.
   */
  ghost predicate Guarded<K, B>(s: Store<K, B>, op: Op<K, B>) {
    match op
    case OpInsert(data) =>
      KeysTaken(s.table, s.nextId, data.keys) || data.id == s.nextId || !HasPlaceholder(s, s.nextId)
    case OpUpdate(data) =>
      LiveRow(s.table, data.id).None? || !data.IsLive() || KeysTaken(s.table, data.id, data.keys)
      || NoPlaceholderAmong(s, data.keys - s.table[data.id].keys)
    case OpUpdateWithVersion(data) =>
      LiveRow(s.table, data.id).None? || !data.IsLive() || KeysTaken(s.table, data.id, data.keys)
      || s.table[data.id].version != data.version
      || NoPlaceholderAmong(s, data.keys - s.table[data.id].keys)
    case _ => true
  }

  ghost predicate NoPlaceholderAmong<K, B>(s: Store<K, B>, keys: set<K>) {
    forall key <- keys :: !(key in s.byKey && s.byKey[key].Placeholder?)
  }

  ghost predicate AllGuarded<K, B>(s: Store<K, B>, ops: seq<Op<K, B>>)
    decreases |ops|
  {
    ops != [] ==> Guarded(s, ops[0]) && AllGuarded(Apply(s, ops[0]).0, ops[1..])
  }

  lemma FindOneKeepsExact<K, B>(s: Store<K, B>, id: int)
    requires Exact(s)
    ensures Exact(FindOne(s, id).0)
    ensures FindOne(s, id).1 == LiveRow(s.table, id)
  {
    FindOneKeepsCoherent(s, id);
  }

  lemma FindByKeyKeepsExact<K, B>(s: Store<K, B>, key: K)
    requires Exact(s)
    ensures Exact(FindByKey(s, key).0)
  {
    FindByKeyKeepsCoherent(s, key);
  }

  lemma InsertKeepsExactIff<K, B>(s: Store<K, B>, data: Row<K, B>)
    requires Exact(s)
    ensures Exact(Insert(s, data).0) <==> Guarded(s, OpInsert(data))
  {
    InsertKeepsCoherent(s, data);
    var s' := Insert(s, data).0;
    if !KeysTaken(s.table, s.nextId, data.keys) {
      forall key <- s'.byKey.Keys ensures !StaleKey(s', key) {
        assert !StaleKey(s, key);
        assert forall id :: HoldsKey(s'.table, id, key) ==> HoldsKey(s.table, id, key);
      }
      if !Guarded(s, OpInsert(data)) {
        assert StaleId(s', s.nextId);
      }
    }
  }

  /** Storing `row` over the live row of its id, and forgetting that row's keys. */
  lemma ReplaceKeepsExactIff<K, B>(s: Store<K, B>, row: Row<K, B>)
    requires Exact(s) && LiveRow(s.table, row.id).Some? && !KeysTaken(s.table, row.id, row.keys)
    ensures Exact(Forget(s.(table := s.table[row.id := row]), row.id, s.table[row.id].keys))
            <==> !row.IsLive() || NoPlaceholderAmong(s, row.keys - s.table[row.id].keys)
  {
    ReplaceKeepsCoherent(s, row);
    var s' := Forget(s.(table := s.table[row.id := row]), row.id, s.table[row.id].keys);
    var added := row.keys - s.table[row.id].keys;
    forall key <- s'.byKey.Keys | !(row.IsLive() && key in added) ensures !StaleKey(s', key) {
      assert !StaleKey(s, key);
      assert forall id :: HoldsKey(s'.table, id, key) ==> HoldsKey(s.table, id, key);
    }
    if row.IsLive() && !NoPlaceholderAmong(s, added) {
      var key :| key in added && key in s.byKey && s.byKey[key].Placeholder?;
      assert HoldsKey(s'.table, row.id, key);
      assert StaleKey(s', key);
    }
  }

  lemma ForgetKeepsExact<K, B>(s: Store<K, B>, id: int, keys: set<K>)
    requires Exact(s)
    ensures Exact(Forget(s, id, keys))
  {
    var s' := Forget(s, id, keys);
    forall key <- s'.byKey.Keys ensures !StaleKey(s', key) {
      assert !StaleKey(s, key);
    }
  }

  lemma UpdateKeepsExactIff<K, B>(s: Store<K, B>, data: Row<K, B>)
    requires Exact(s)
    ensures Exact(Update(s, data).0) <==> Guarded(s, OpUpdate(data))
  {
    FindOneKeepsExact(s, data.id);
    var s1 := FindOne(s, data.id).0;
    if LiveRow(s.table, data.id).Some? && !KeysTaken(s.table, data.id, data.keys) {
      ReplaceKeepsExactIff(s1, data);
    }
  }

  lemma UpdateWithVersionKeepsExactIff<K, B>(s: Store<K, B>, data: Row<K, B>)
    requires Exact(s)
    ensures Exact(UpdateWithVersion(s, data).0) <==> Guarded(s, OpUpdateWithVersion(data))
  {
    FindOneKeepsExact(s, data.id);
    var s1 := FindOne(s, data.id).0;
    if LiveRow(s.table, data.id).Some? {
      if s.table[data.id].version != data.version {
        ForgetKeepsExact(s1, data.id, s.table[data.id].keys);
      } else if !KeysTaken(s.table, data.id, data.keys) {
        ReplaceKeepsExactIff(s1, data.(version := data.version + 1));
      }
    }
  }

  lemma DeleteKeepsExact<K, B>(s: Store<K, B>, id: int)
    requires Exact(s)
    ensures Exact(Delete(s, id).0)
  {
    FindOneKeepsExact(s, id);
    DeleteKeepsCoherent(s, id);
    var s' := Delete(s, id).0;
    forall key <- s'.byKey.Keys ensures !StaleKey(s', key) {
      assert !StaleKey(s, key);
      assert forall other :: HoldsKey(s'.table, other, key) ==> HoldsKey(s.table, other, key);
    }
  }

  /** One call keeps every lookup exact if and only if its guard holds. */
  lemma ApplyKeepsExactIff<K, B>(s: Store<K, B>, op: Op<K, B>)
    requires Exact(s)
    ensures Exact(Apply(s, op).0) <==> Guarded(s, op)
  {
    match op
    case OpFindOne(id) => FindOneKeepsExact(s, id);
    case OpFindByKey(key) => FindByKeyKeepsExact(s, key);
    case OpInsert(data) => InsertKeepsExactIff(s, data);
    case OpUpdate(data) => UpdateKeepsExactIff(s, data);
    case OpUpdateWithVersion(data) => UpdateWithVersionKeepsExactIff(s, data);
    case OpDeleteSoft(data) => UpdateWithVersionKeepsExactIff(s, data.(delState := DEL_STATE_YES));
    case OpDelete(id) => DeleteKeepsExact(s, id);
    case OpExpireId(id) => ForgetKeepsExact(s, id, {});
    case OpExpireKey(key) => ExpireKeyKeepsExact(s, key);
  }

  lemma ExpireKeyKeepsExact<K, B>(s: Store<K, B>, key: K)
    requires Exact(s)
    ensures Exact(Apply(s, OpExpireKey(key)).0)
  {
    ApplyKeepsCoherent(s, OpExpireKey(key));
    var s' := Apply(s, OpExpireKey(key)).0;
    forall k <- s'.byKey.Keys ensures !StaleKey(s', k) {
      assert !StaleKey(s, k);
    }
  }

  /** A run keeps every lookup exact throughout if and only if every call meets its guard. */
  lemma {:induction false} RunIsExactIff<K, B>(s: Store<K, B>, ops: seq<Op<K, B>>)
    requires Exact(s)
    ensures AlwaysExact(s, ops) <==> AllGuarded(s, ops)
    decreases |ops|
  {
    if ops == [] {
    } else {
      var s1 := Apply(s, ops[0]).0;
      ApplyKeepsExactIff(s, ops[0]);
      if Exact(s1) {
        RunIsExactIff(s1, ops[1..]);
      }
    }
  }

  // ----- a sufficient condition on the calls alone -----

  /** Ids are used only after their insert, and no write changes a unique index value. */
  ghost predicate Quiet<K, B>(s: Store<K, B>, op: Op<K, B>) {
    match op
    case OpFindOne(id) => id < s.nextId
    case OpDelete(id) => id < s.nextId
    case OpUpdate(data) => data.id < s.nextId && KeepsKeys(s, data)
    case OpUpdateWithVersion(data) => data.id < s.nextId && KeepsKeys(s, data)
    case OpDeleteSoft(data) => data.id < s.nextId
    case _ => true
  }

  ghost predicate KeepsKeys<K, B>(s: Store<K, B>, data: Row<K, B>) {
    data.id in s.table ==> data.keys == s.table[data.id].keys
  }

  ghost predicate AllQuiet<K, B>(s: Store<K, B>, ops: seq<Op<K, B>>)
    decreases |ops|
  {
    ops != [] ==> Quiet(s, ops[0]) && AllQuiet(Apply(s, ops[0]).0, ops[1..])
  }

  ghost predicate OnlyKnownIds<K, B>(s: Store<K, B>) {
    forall id <- s.byId.Keys :: id < s.nextId
  }

  lemma QuietKeepsOnlyKnownIds<K, B>(s: Store<K, B>, op: Op<K, B>)
    requires Coherent(s) && OnlyKnownIds(s) && Quiet(s, op)
    ensures OnlyKnownIds(Apply(s, op).0)
  {
  }

  lemma {:induction false} QuietRunIsExact<K, B>(s: Store<K, B>, ops: seq<Op<K, B>>)
    requires Exact(s) && OnlyKnownIds(s) && AllQuiet(s, ops)
    ensures AlwaysExact(s, ops)
    decreases |ops|
  {
    if ops == [] {
    } else {
      assert Guarded(s, ops[0]);
      ApplyKeepsExactIff(s, ops[0]);
      QuietKeepsOnlyKnownIds(s, ops[0]);
      QuietRunIsExact(Apply(s, ops[0]).0, ops[1..]);
    }
  }

  // ----- the reference: the table with no cache -----

  datatype Plain<K(==), B> = Plain(table: Table<K, B>, nextId: int)

  ghost function PlainApply<K, B>(p: Plain<K, B>, op: Op<K, B>): (Plain<K, B>, Reply<K, B>) {
    match op
    case OpFindOne(id) => (p, Found(LiveRow(p.table, id)))
    case OpFindByKey(key) => (p, Found(LiveRowByKey(p.table, key)))
    case OpInsert(data) =>
      if KeysTaken(p.table, p.nextId, data.keys) then (p.(nextId := p.nextId + 1), DuplicateKey)
      else (Plain(p.table[p.nextId := data.(id := p.nextId, delState := DEL_STATE_NO)], p.nextId + 1), Inserted(p.nextId))
    case OpUpdate(data) =>
      if LiveRow(p.table, data.id).None? then (p, NoSuchRow)
      else PlainStore(p, data)
    case OpUpdateWithVersion(data) => PlainStoreIfVersion(p, data)
    case OpDeleteSoft(data) => PlainStoreIfVersion(p, data.(delState := DEL_STATE_YES))
    case OpDelete(id) =>
      if LiveRow(p.table, id).None? then (p, NoSuchRow) else (p.(table := p.table - {id}), Written)
    case OpExpireId(_) => (p, Dropped)
    case OpExpireKey(_) => (p, Dropped)
  }

  ghost function PlainStore<K, B>(p: Plain<K, B>, row: Row<K, B>): (Plain<K, B>, Reply<K, B>) {
    if KeysTaken(p.table, row.id, row.keys) then (p, DuplicateKey)
    else (p.(table := p.table[row.id := row]), Written)
  }

  ghost function PlainStoreIfVersion<K, B>(p: Plain<K, B>, data: Row<K, B>): (Plain<K, B>, Reply<K, B>) {
    match LiveRow(p.table, data.id)
    case None => (p, NoSuchRow)
    case Some(stored) =>
      if stored.version != data.version then (p, NoRowsChanged)
      else PlainStore(p, data.(version := data.version + 1))
  }

  ghost function PlainReplies<K, B>(p: Plain<K, B>, ops: seq<Op<K, B>>): seq<Reply<K, B>>
    decreases |ops|
  {
    if ops == [] then [] else [PlainApply(p, ops[0]).1] + PlainReplies(PlainApply(p, ops[0]).0, ops[1..])
  }

  ghost function PlainApplyAll<K, B>(p: Plain<K, B>, ops: seq<Op<K, B>>): Plain<K, B>
    decreases |ops|
  {
    if ops == [] then p else PlainApplyAll(PlainApply(p, ops[0]).0, ops[1..])
  }

  ghost function Uncached<K, B>(s: Store<K, B>): Plain<K, B> {
    Plain(s.table, s.nextId)
  }

  lemma ExactApplyIsPlain<K, B>(s: Store<K, B>, op: Op<K, B>)
    requires Exact(s)
    ensures Apply(s, op).1 == PlainApply(Uncached(s), op).1
    ensures Uncached(Apply(s, op).0) == PlainApply(Uncached(s), op).0
  {
    match op
    case OpFindByKey(key) => FindByKeyIsExactIff(s, key);
    case _ =>
  }

  /** While every call meets its guard, the cached model answers and writes exactly as the bare table. */
  lemma {:induction false} ExactRunRefinesTable<K, B>(s: Store<K, B>, ops: seq<Op<K, B>>)
    requires AlwaysExact(s, ops)
    ensures Replies(s, ops) == PlainReplies(Uncached(s), ops)
    ensures Uncached(ApplyAll(s, ops)) == PlainApplyAll(Uncached(s), ops)
    decreases |ops|
  {
    if ops == [] {
    } else {
      ExactApplyIsPlain(s, ops[0]);
      ExactRunRefinesTable(Apply(s, ops[0]).0, ops[1..]);
    }
  }

  /** From an empty store: no id probed before its insert and no key changed gives exact answers. */
  lemma QuietRunRefinesTable<K, B>(ops: seq<Op<K, B>>)
    requires AllQuiet(Store(map[], map[], map[], 1), ops)
    ensures Replies(Store(map[], map[], map[], 1), ops) == PlainReplies(Plain(map[], 1), ops)
  {
    QuietRunIsExact(Store(map[], map[], map[], 1), ops);
    ExactRunRefinesTable(Store(map[], map[], map[], 1), ops);
  }

  /** Both halves of the condition are needed. Here an early probe hides a stored row. */
  lemma EarlyProbeHidesRow(data: Row<string, int>)
    requires data.id == 0
    ensures var ops := [OpFindOne(1), OpInsert(data), OpFindOne(1)];
      && Replies(Store(map[], map[], map[], 1), ops) == [Found(None), Inserted(1), Found(None)]
      && LiveRow(ApplyAll(Store(map[], map[], map[], 1), ops).table, 1)
         == Some(data.(id := 1, delState := DEL_STATE_NO))
  {
    var s0: Store<string, int> := Store(map[], map[], map[], 1);
    var ops := [OpFindOne(1), OpInsert(data), OpFindOne(1)];
    var s1 := Apply(s0, ops[0]).0;
    var s2 := Apply(s1, ops[1]).0;
    assert Replies(s2, ops[2..]) == [Found(None)];
    assert ops[1..][1..] == ops[2..];
    assert ops[2..][1..] == [];
    assert ApplyAll(s2, ops[2..]) == Apply(s2, ops[2]).0;
    assert ApplyAll(s1, ops[1..]) == ApplyAll(s2, ops[2..]);
  }

  /** The other half: a key looked up before a row takes it over. */
  lemma ChangedKeyHidesRow(body: int)
    ensures var row := Row(1, DEL_STATE_NO, 0, {"old"}, body);
      var s := Store(map[1 := row], map[], map[], 2);
      var s1 := Apply(s, OpFindByKey("new")).0;
      var (s2, reply) := Apply(s1, OpUpdate(row.(keys := {"new"})));
      && Exact(s) && reply == Written
      && Apply(s2, OpFindByKey("new")).1 == Found(None)
      && LiveRowByKey(s2.table, "new") == Some(row.(keys := {"new"}))
  {
    var row := Row(1, DEL_STATE_NO, 0, {"old"}, body);
    var s := Store(map[1 := row], map[], map[], 2);
    assert LiveRowByKey(s.table, "new") == None;
    var s1 := Apply(s, OpFindByKey("new")).0;
    assert !KeysTaken(s1.table, 1, {"new"});
    var s2 := Apply(s1, OpUpdate(row.(keys := {"new"}))).0;
    assert Coherent(s);
    assert Coherent(s2) by {
      ApplyKeepsCoherent(s, OpFindByKey("new"));
      ApplyKeepsCoherent(s1, OpUpdate(row.(keys := {"new"})));
    }
    assert HoldsKey(s2.table, 1, "new");
    KeyHolderIsUnique(s2, 1, "new");
  }

  // ----- a snapshot is good for one attempt -----

  /**
   A refused versioned update leaves the caller's copy with the next version. Trying again with that copy
   commits exactly when one other write had come in between, and then overwrites what that write stored.
   */
  lemma ReusedCopyCommitsIff<K, B>(s: Store<K, B>, data: Row<K, B>)
    requires Exact(s) && UpdateWithVersion(s, data).1 == NoRowsChanged
    ensures data.id in s.table
    ensures var s1 := UpdateWithVersion(s, data).0;
      var copy := data.(version := data.version + 1);
      var (s2, reply) := UpdateWithVersion(s1, copy);
      && (reply == Written <==> s.table[data.id].version == data.version + 1 && !KeysTaken(s.table, data.id, data.keys))
      && (reply == Written ==> s2.table == s.table[data.id := data.(version := data.version + 2)])
      && (reply != Written ==> s2.table == s.table)
  {
    UpdateWithVersionKeepsExactIff(s, data);
    FindOneKeepsExact(s, data.id);
    var s1 := UpdateWithVersion(s, data).0;
    assert Guarded(s, OpUpdateWithVersion(data));
    FindOneKeepsExact(s1, data.id);
  }

  // ----- lookups by key survive early id probes -----

  ghost predicate KeyExact<K, B>(s: Store<K, B>) {
    Coherent(s) && forall key <- s.byKey.Keys :: !StaleKey(s, key)
  }

  ghost predicate Rekeys<K, B>(s: Store<K, B>, op: Op<K, B>) {
    match op
    case OpUpdate(data) => !KeepsKeys(s, data)
    case OpUpdateWithVersion(data) => !KeepsKeys(s, data)
    case OpDeleteSoft(data) => !KeepsKeys(s, data)
    case _ => false
  }

  /** Keys that nobody newly holds leave placeholders true. */
  lemma NoNewHolders<K, B>(s: Store<K, B>, s': Store<K, B>, key: K)
    requires KeyExact(s) && key in s.byKey && s.byKey[key].Placeholder?
    requires forall id :: HoldsKey(s'.table, id, key) ==> HoldsKey(s.table, id, key)
    ensures !StaleKey(s', key)
  {
    assert !StaleKey(s, key);
  }

  lemma ReadKeepsKeyExact<K, B>(s: Store<K, B>, op: Op<K, B>)
    requires KeyExact(s) && (op.OpFindOne? || op.OpFindByKey? || op.OpExpireId? || op.OpExpireKey?)
    ensures KeyExact(Apply(s, op).0)
  {
    ApplyKeepsCoherent(s, op);
    var s' := Apply(s, op).0;
    forall key <- s'.byKey.Keys | s'.byKey[key].Placeholder? && key in s.byKey ensures !StaleKey(s', key) {
      NoNewHolders(s, s', key);
    }
  }

  lemma InsertKeepsKeyExact<K, B>(s: Store<K, B>, data: Row<K, B>)
    requires KeyExact(s)
    ensures KeyExact(Insert(s, data).0)
  {
    InsertKeepsCoherent(s, data);
    var s' := Insert(s, data).0;
    forall key <- s'.byKey.Keys | s'.byKey[key].Placeholder? ensures !StaleKey(s', key) {
      NoNewHolders(s, s', key);
    }
  }

  lemma UpdateKeepsKeyExact<K, B>(s: Store<K, B>, data: Row<K, B>)
    requires KeyExact(s) && KeepsKeys(s, data)
    ensures KeyExact(Update(s, data).0)
  {
    UpdateKeepsCoherent(s, data);
    var s' := Update(s, data).0;
    forall key <- s'.byKey.Keys | s'.byKey[key].Placeholder? ensures !StaleKey(s', key) {
      NoNewHolders(s, s', key);
    }
  }

  lemma UpdateWithVersionKeepsKeyExact<K, B>(s: Store<K, B>, data: Row<K, B>)
    requires KeyExact(s) && KeepsKeys(s, data)
    ensures KeyExact(UpdateWithVersion(s, data).0)
  {
    UpdateWithVersionKeepsCoherent(s, data);
    var s' := UpdateWithVersion(s, data).0;
    forall key <- s'.byKey.Keys | s'.byKey[key].Placeholder? ensures !StaleKey(s', key) {
      NoNewHolders(s, s', key);
    }
  }

  lemma DeleteKeepsKeyExact<K, B>(s: Store<K, B>, id: int)
    requires KeyExact(s)
    ensures KeyExact(Delete(s, id).0)
  {
    DeleteKeepsCoherent(s, id);
    var s' := Delete(s, id).0;
    forall key <- s'.byKey.Keys | s'.byKey[key].Placeholder? ensures !StaleKey(s', key) {
      NoNewHolders(s, s', key);
    }
  }

  lemma ApplyKeepsKeyExact<K, B>(s: Store<K, B>, op: Op<K, B>)
    requires KeyExact(s) && !Rekeys(s, op)
    ensures KeyExact(Apply(s, op).0)
  {
    match op
    case OpInsert(data) => InsertKeepsKeyExact(s, data);
    case OpUpdate(data) => UpdateKeepsKeyExact(s, data);
    case OpUpdateWithVersion(data) => UpdateWithVersionKeepsKeyExact(s, data);
    case OpDeleteSoft(data) => UpdateWithVersionKeepsKeyExact(s, data.(delState := DEL_STATE_YES));
    case OpDelete(id) => DeleteKeepsKeyExact(s, id);
    case _ => ReadKeepsKeyExact(s, op);
  }
}
