/**
 The state behind one generated model and what each of its operations does to it: a table, a cache
 entry per row id, and a cache entry per value of each unique index.

 The cache contract is the library's: a query takes the cached entry, or reads the table and then
 sets the entry (a placeholder when nothing was found); a write runs its statement and, if that
 succeeds, deletes the entries it was given.
 */
module CacheAside {
  import opened Wrappers

  const DEL_STATE_NO := 0
  const DEL_STATE_YES := 1

  /**
   One stored row. `keys` holds the row's value in each unique index (a serial, a mobile number, or
   the two composite keys of a user-auth row); `body` holds the remaining columns.
   */
  datatype Row<K(==), B> = Row(id: int, delState: int, version: int, keys: set<K>, body: B) {
    predicate IsLive() {
      delState == DEL_STATE_NO
    }
  }

  /** What a cache key holds: a value, or the mark that the table had none. */
  datatype Entry<V> = Hit(value: V) | Placeholder

  type Table<K(==), B> = map<int, Row<K, B>>

  datatype Store<K(==), B> = Store(
    table: Table<K, B>,
    byId: map<int, Entry<Row<K, B>>>,
    byKey: map<K, Entry<int>>,
    nextId: int)

  /** Everything an operation can report. */
  datatype Reply<K(==), B> =
    | Found(row: Option<Row<K, B>>)
    | Inserted(id: int)
    | Written
    | NoSuchRow
    | DuplicateKey
    | NoRowsChanged
    | Dropped

  // ----- the table alone -----

  /** `select ... where id = ? and del_state = 0` */
  function LiveRow<K(==), B>(table: Table<K, B>, id: int): Option<Row<K, B>> {
    if id in table && table[id].IsLive() then Some(table[id]) else None
  }

  ghost predicate HoldsKey<K, B>(table: Table<K, B>, id: int, key: K) {
    id in table && table[id].IsLive() && key in table[id].keys
  }

  /** `select ... where <index> = ? and del_state = 0 limit 1` */
  ghost function LiveRowByKey<K, B>(table: Table<K, B>, key: K): Option<Row<K, B>> {
    if exists id :: HoldsKey(table, id, key) then
      var id :| HoldsKey(table, id, key);
      Some(table[id])
    else
      None
  }

  /** A unique index rejects keys that another row holds, soft-deleted rows included. */
  predicate KeysTaken<K(==), B>(table: Table<K, B>, id: int, keys: set<K>) {
    exists other <- table.Keys :: other != id && table[other].keys * keys != {}
  }

  /** What the storage engine guarantees: distinct positive ids, and unique index values. */
  ghost predicate WellFormed<K, B>(s: Store<K, B>) {
    && 0 < s.nextId
    && (forall id <- s.table.Keys :: 0 < id < s.nextId && s.table[id].id == id)
    && forall a <- s.table.Keys, b <- s.table.Keys :: a != b ==> s.table[a].keys * s.table[b].keys == {}
  }

  /** Unique indexes make the row that a lookup by key returns the only candidate. */
  lemma KeyHolderIsUnique<K, B>(s: Store<K, B>, id: int, key: K)
    requires WellFormed(s) && HoldsKey(s.table, id, key)
    ensures LiveRowByKey(s.table, key) == Some(s.table[id])
  {
    forall other | HoldsKey(s.table, other, key) ensures other == id {
      assert key in s.table[other].keys * s.table[id].keys;
    }
  }

  lemma PutKeepsWellFormed<K, B>(s: Store<K, B>, row: Row<K, B>)
    requires WellFormed(s) && 0 < row.id < s.nextId
    requires !KeysTaken(s.table, row.id, row.keys)
    ensures WellFormed(s.(table := s.table[row.id := row]))
  {
    var t := s.table[row.id := row];
    forall a <- t.Keys, b <- t.Keys | a != b ensures t[a].keys * t[b].keys == {} {
      if a == row.id {
        assert s.table[b].keys * row.keys == {};
      }
    }
  }

  // ----- the operations -----

  function Forget<K(==), B>(s: Store<K, B>, id: int, keys: set<K>): Store<K, B> {
    s.(byId := s.byId - {id}, byKey := s.byKey - keys)
  }

  function FindOne<K(==), B>(s: Store<K, B>, id: int): (Store<K, B>, Option<Row<K, B>>) {
    if id in s.byId then
      match s.byId[id]
      case Hit(row) => (s, Some(row))
      case Placeholder => (s, None)
    else
      match LiveRow(s.table, id)
      case Some(row) => (s.(byId := s.byId[id := Hit(row)]), Some(row))
      case None => (s.(byId := s.byId[id := Placeholder]), None)
  }

  ghost function FindByKey<K, B>(s: Store<K, B>, key: K): (Store<K, B>, Option<Row<K, B>>) {
    if key in s.byKey then
      match s.byKey[key]
      case Hit(id) => FindOne(s, id)
      case Placeholder => (s, None)
    else
      match LiveRowByKey(s.table, key)
      case Some(row) =>
        (s.(byId := s.byId[row.id := Hit(row)], byKey := s.byKey[key := Hit(row.id)]), Some(row))
      case None =>
        (s.(byKey := s.byKey[key := Placeholder]), None)
  }

  /** A rejected insert still consumes an auto-increment id, as the storage engine does. */
  function Insert<K(==), B>(s: Store<K, B>, data: Row<K, B>): (Store<K, B>, Reply<K, B>) {
    if KeysTaken(s.table, s.nextId, data.keys) then
      (s.(nextId := s.nextId + 1), DuplicateKey)
    else
      var row := data.(id := s.nextId, delState := DEL_STATE_NO);
      (Forget(s.(table := s.table[s.nextId := row], nextId := s.nextId + 1), data.id, data.keys),
       Inserted(s.nextId))
  }

  function Update<K(==), B>(s: Store<K, B>, data: Row<K, B>): (Store<K, B>, Reply<K, B>) {
    var (s1, found) := FindOne(s, data.id);
    match found
    case None => (s1, NoSuchRow)
    case Some(cached) =>
      if data.id !in s.table then
        (Forget(s1, cached.id, cached.keys), Written)
      else if KeysTaken(s.table, data.id, data.keys) then
        (s1, DuplicateKey)
      else
        (Forget(s1.(table := s.table[data.id := data]), cached.id, cached.keys), Written)
  }

  /** `data` carries the version the caller read; the stored row carries the next one. */
  function UpdateWithVersion<K(==), B>(s: Store<K, B>, data: Row<K, B>): (Store<K, B>, Reply<K, B>) {
    var (s1, found) := FindOne(s, data.id);
    match found
    case None => (s1, NoSuchRow)
    case Some(cached) =>
      if data.id !in s.table || s.table[data.id].version != data.version then
        (Forget(s1, cached.id, cached.keys), NoRowsChanged)
      else if KeysTaken(s.table, data.id, data.keys) then
        (s1, DuplicateKey)
      else
        var row := data.(version := data.version + 1);
        (Forget(s1.(table := s.table[data.id := row]), cached.id, cached.keys), Written)
  }

  function DeleteSoft<K(==), B>(s: Store<K, B>, data: Row<K, B>): (Store<K, B>, Reply<K, B>) {
    UpdateWithVersion(s, data.(delState := DEL_STATE_YES))
  }

  function Delete<K(==), B>(s: Store<K, B>, id: int): (Store<K, B>, Reply<K, B>) {
    var (s1, found) := FindOne(s, id);
    match found
    case None => (s1, NoSuchRow)
    case Some(cached) => (Forget(s1.(table := s.table - {id}), id, cached.keys), Written)
  }

  // ----- sequences of operations -----

  /** One call on a model, or the loss of one cache entry. */
  datatype Op<K(==), B> =
    | OpFindOne(id: int)
    | OpFindByKey(key: K)
    | OpInsert(data: Row<K, B>)
    | OpUpdate(data: Row<K, B>)
    | OpUpdateWithVersion(data: Row<K, B>)
    | OpDeleteSoft(data: Row<K, B>)
    | OpDelete(id: int)
    | OpExpireId(id: int)
    | OpExpireKey(key: K)

  ghost function Apply<K, B>(s: Store<K, B>, op: Op<K, B>): (Store<K, B>, Reply<K, B>) {
    match op
    case OpFindOne(id) => var (s', found) := FindOne(s, id); (s', Found(found))
    case OpFindByKey(key) => var (s', found) := FindByKey(s, key); (s', Found(found))
    case OpInsert(data) => Insert(s, data)
    case OpUpdate(data) => Update(s, data)
    case OpUpdateWithVersion(data) => UpdateWithVersion(s, data)
    case OpDeleteSoft(data) => DeleteSoft(s, data)
    case OpDelete(id) => Delete(s, id)
    case OpExpireId(id) => (s.(byId := s.byId - {id}), Dropped)
    case OpExpireKey(key) => (s.(byKey := s.byKey - {key}), Dropped)
  }

  ghost function ApplyAll<K, B>(s: Store<K, B>, ops: seq<Op<K, B>>): Store<K, B>
    decreases |ops|
  {
    if ops == [] then s else ApplyAll(Apply(s, ops[0]).0, ops[1..])
  }

  /** The replies, in order. */
  ghost function Replies<K, B>(s: Store<K, B>, ops: seq<Op<K, B>>): seq<Reply<K, B>>
    decreases |ops|
  {
    if ops == [] then [] else [Apply(s, ops[0]).1] + Replies(Apply(s, ops[0]).0, ops[1..])
  }
}
