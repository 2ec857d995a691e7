/**
 A generated model: an object that owns a table and its cache, with one method per operation. Each
 method is written as the steps the generated code takes and is proved to have the effect that the
 functions of CacheAside describe.
 */
module CachedModels {
  import opened Wrappers
  import opened CacheAside

  /** The caller's copy of a row, which the write methods change in place. */
  class Record<K(==), B> {
    var row: Row<K, B>

    constructor (row: Row<K, B>)
      ensures this.row == row
    {
      this.row := row;
    }
  }

  class CachedModel<K(==), B> {
    var table: Table<K, B>
    var byId: map<int, Entry<Row<K, B>>>
    var byKey: map<K, Entry<int>>
    var nextId: int

    function State(): Store<K, B>
      reads this
    {
      Store(table, byId, byKey, nextId)
    }

    ghost predicate Valid()
      reads this
    {
      WellFormed(State())
    }

    constructor ()
      ensures Valid()
      ensures State() == Store(map[], map[], map[], 1)
    {
      table, byId, byKey, nextId := map[], map[], map[], 1;
    }

    method DeleteCache(id: int, keys: set<K>)
      modifies this
      ensures State() == Forget(old(State()), id, keys)
    {
      byId := byId - {id};
      byKey := byKey - keys;
    }

    method FindOne(id: int) returns (found: Option<Row<K, B>>)
      requires Valid()
      modifies this
      ensures Valid()
      ensures (State(), found) == CacheAside.FindOne(old(State()), id)
    {
      if id in byId {
        match byId[id] {
          case Hit(row) => return Some(row);
          case Placeholder => return None;
        }
      }
      if id in table && table[id].IsLive() {
        byId := byId[id := Hit(table[id])];
        return Some(table[id]);
      }
      byId := byId[id := Placeholder];
      return None;
    }

    /** The lookup through a unique index: key entry, then id entry, each falling back to the table. */
    method FindOneByKey(key: K) returns (found: Option<Row<K, B>>)
      requires Valid()
      modifies this
      ensures Valid()
      ensures (State(), found) == FindByKey(old(State()), key)
    {
      if key in byKey {
        match byKey[key] {
          case Hit(id) => found := FindOne(id);
          case Placeholder => found := None;
        }
      } else if exists id <- table.Keys :: table[id].IsLive() && key in table[id].keys {
        var id :| id in table.Keys && table[id].IsLive() && key in table[id].keys;
        KeyHolderIsUnique(State(), id, key);
        byId := byId[table[id].id := Hit(table[id])];
        byKey := byKey[key := Hit(table[id].id)];
        found := Some(table[id]);
      } else {
        assert forall id :: !HoldsKey(table, id, key);
        byKey := byKey[key := Placeholder];
        found := None;
      }
    }

    method Insert(data: Record<K, B>) returns (reply: Reply<K, B>)
      requires Valid()
      modifies this, data
      ensures Valid()
      ensures data.row == old(data.row).(delState := DEL_STATE_NO)
      ensures (State(), reply) == CacheAside.Insert(old(State()), old(data.row))
    {
      data.row := data.row.(delState := DEL_STATE_NO);
      var id := nextId;
      nextId := nextId + 1;
      if KeysTaken(table, id, data.row.keys) {
        return DuplicateKey;
      }
      PutKeepsWellFormed(State(), data.row.(id := id));
      table := table[id := data.row.(id := id)];
      DeleteCache(data.row.id, data.row.keys);
      return Inserted(id);
    }

    method Update(data: Record<K, B>) returns (reply: Reply<K, B>)
      requires Valid()
      modifies this
      ensures Valid()
      ensures (State(), reply) == CacheAside.Update(old(State()), data.row)
    {
      var found := FindOne(data.row.id);
      if found == None {
        return NoSuchRow;
      }
      if data.row.id in table {
        if KeysTaken(table, data.row.id, data.row.keys) {
          return DuplicateKey;
        }
        PutKeepsWellFormed(State(), data.row);
        table := table[data.row.id := data.row];
      }
      DeleteCache(found.value.id, found.value.keys);
      return Written;
    }

    /** The caller's copy carries the bumped version afterwards, whatever the outcome. */
    method UpdateWithVersion(data: Record<K, B>) returns (reply: Reply<K, B>)
      requires Valid()
      modifies this, data
      ensures Valid()
      ensures data.row == old(data.row).(version := old(data.row.version) + 1)
      ensures (State(), reply) == CacheAside.UpdateWithVersion(old(State()), old(data.row))
    {
      var oldVersion := data.row.version;
      data.row := data.row.(version := data.row.version + 1);
      var found := FindOne(data.row.id);
      if found == None {
        return NoSuchRow;
      }
      var updateCount := 0;
      if data.row.id in table && table[data.row.id].version == oldVersion {
        if KeysTaken(table, data.row.id, data.row.keys) {
          return DuplicateKey;
        }
        PutKeepsWellFormed(State(), data.row);
        table := table[data.row.id := data.row];
        updateCount := 1;
      }
      DeleteCache(found.value.id, found.value.keys);
      if updateCount == 0 {
        return NoRowsChanged;
      }
      return Written;
    }

    method DeleteSoft(data: Record<K, B>) returns (reply: Reply<K, B>)
      requires Valid()
      modifies this, data
      ensures Valid()
      ensures data.row == old(data.row).(delState := DEL_STATE_YES, version := old(data.row.version) + 1)
      ensures (State(), reply) == CacheAside.DeleteSoft(old(State()), old(data.row))
    {
      data.row := data.row.(delState := DEL_STATE_YES);
      reply := UpdateWithVersion(data);
    }

    method Delete(id: int) returns (reply: Reply<K, B>)
      requires Valid()
      modifies this
      ensures Valid()
      ensures (State(), reply) == CacheAside.Delete(old(State()), id)
    {
      var found := FindOne(id);
      if found == None {
        return NoSuchRow;
      }
      table := table - {id};
      DeleteCache(id, found.value.keys);
      return Written;
    }
  }
}
