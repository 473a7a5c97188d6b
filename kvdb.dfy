/** `kvdbManager::KVDBManager`: the table of named databases (column
    families) of one RocksDB store, the default column family kept apart
    from it, and the registry of handlers issued on those databases. */
module Kvdb {
  import opened Base
  import opened RocksDb
  import opened HandlerRegistry

  /** `KVDBHandler`: a capability bound to one database and one scope. */
  datatype KvdbHandler = KvdbHandler(cf: CfHandle, dbName: string, scopeName: string)

  /** The content of the file given to `loadDBFromFile`, once read and parsed:
      the file could not be opened, it is not JSON, its root is not an
      object, or the object's members with each value serialised. */
  datatype Document =
    | Unreadable
    | Unparsable
    | NotObject
    | Object(entries: seq<(string, string)>)

  /** The descriptors `initializeMainDB` opens the store with: the column
      families `ListColumnFamilies` reported (none when it failed), in
      order, followed by the default one when it was not among them. */
  method ColumnFamilyDescriptors(listed: Option<seq<string>>) returns (descriptors: seq<string>)
    ensures var names := if listed.Some? then listed.value else [];
            && |names| <= |descriptors| <= |names| + 1
            && descriptors[..|names|] == names
            && (DefaultColumnFamilyName in names ==> |descriptors| == |names|)
            && (forall n :: n in descriptors <==> n in names || n == DefaultColumnFamilyName)
  {
    var columnNames: seq<string> := [];
    if listed.Some? {
      columnNames := listed.value;
    }
    var hasDefaultCf := false;
    descriptors := [];
    for i := 0 to |columnNames|
      invariant descriptors == columnNames[..i]
      invariant hasDefaultCf <==> DefaultColumnFamilyName in columnNames[..i]
    {
      if columnNames[i] == DefaultColumnFamilyName {
        hasDefaultCf := true;
      }
      descriptors := descriptors + [columnNames[i]];
    }
    assert columnNames[..|columnNames|] == columnNames;
    if !hasDefaultCf {
      descriptors := descriptors + [DefaultColumnFamilyName];
    }
  }

  /** Index of the first Put of a load that the engine refuses, or `n` when
      all `n` Puts succeed. */
  function FirstFailure(putReply: nat -> Status, n: nat): (k: nat)
    ensures k <= n
    ensures forall i :: 0 <= i < k ==> putReply(i).Ok?
    ensures k < n ==> putReply(k).NotOk?
  {
    if n == 0 then 0
    else
      var k := FirstFailure(putReply, n - 1);
      if k < n - 1 || putReply(n - 1).NotOk? then k else n
  }

  /** The writes that storing `entries` into `family` makes, in order. */
  function EntryWrites(family: string, entries: seq<(string, string)>): seq<Write>
  {
    seq(|entries|, i requires 0 <= i < |entries| => Write(family, entries[i].0, entries[i].1))
  }

  /** The names `ListColumnFamilies` reported, as a set (none when it failed). */
  function ListedNames(listed: Option<seq<string>>): set<string>
  {
    if listed.Some? then set n | n in listed.value else {}
  }

  /** The descriptors name exactly the listed families and the default one. */
  lemma DescriptorNames(listed: Option<seq<string>>, descriptors: seq<string>)
    requires forall n :: n in descriptors <==> (listed.Some? && n in listed.value) || n == DefaultColumnFamilyName
    ensures (set d | d in descriptors) == ListedNames(listed) + {DefaultColumnFamilyName}
  {
  }

  /** Tracking every non-default descriptor tracks exactly the listed
      non-default families. */
  lemma TrackedNames(table: map<string, CfHandle>, descriptors: seq<string>, listedNames: set<string>)
    requires forall n :: n in table <==> n in descriptors && n != DefaultColumnFamilyName
    requires (set d | d in descriptors) == listedNames + {DefaultColumnFamilyName}
    ensures table.Keys + {DefaultColumnFamilyName} == listedNames + {DefaultColumnFamilyName}
  {
    forall n ensures n in table.Keys + {DefaultColumnFamilyName} <==> n in listedNames + {DefaultColumnFamilyName} {
      if n in listedNames {
        assert n in (set d | d in descriptors);
      }
    }
  }

  /** The inner loop of `getKVDBScopesInfo`: every scope using `dbName`
      gets `dbName` added to its counter with that scope's handler count.
      Starting from the scope view of `before`, the result is the scope view
      of `before` with `dbName`'s entry added. */
  method AddScopesOf(refCounterMap: Registry, dbName: string, scopesUsingDb: RefInfo, ghost before: Registry)
    returns (r: Registry)
    requires dbName !in before && refCounterMap == Transpose(before)
    ensures r == Transpose(before[dbName := scopesUsingDb])
  {
    r := refCounterMap;
    var scopeNames := scopesUsingDb.Keys;
    ghost var scopesDone: set<string> := {};
    TransposeStart(before, dbName, scopesUsingDb);
    while scopeNames != {}
      invariant scopeNames + scopesDone == scopesUsingDb.Keys && scopeNames !! scopesDone
      invariant r == Transpose(before[dbName := Restrict(scopesUsingDb, scopesDone)])
    {
      var scopeName :| scopeName in scopeNames;
      var countDbsUsingScope := scopesUsingDb[scopeName];
      var counterMap := RefsOf(r, scopeName);
      counterMap := AddRef(counterMap, dbName, countDbsUsingScope);
      r := r[scopeName := counterMap];
      TransposeStep(before, dbName, scopesUsingDb, scopesDone, scopeName);
      scopeNames := scopeNames - {scopeName};
      scopesDone := scopesDone + {scopeName};
    }
    RestrictAll(scopesUsingDb);
  }

  class KvdbManager {
    /** `m_pRocksDB`, and the store behind it. */
    const store: Db
    /** `m_mapCFHandles`: every named database and its column family handle. */
    var table: map<string, CfHandle>
    /** `m_pDefaultCFHandle` */
    var defaultHandle: CfHandle
    /** The state of `m_kvdbHandlerCollection`. */
    var handlers: Registry
    /** `m_isInitialized` */
    var isInitialized: bool

    /** While the store is open every tracked database is a column family of
        the store reached through a handle of this session, the default
        column family is open but never tracked, and the store holds no other
        family; while it is closed nothing is tracked.  No handler count is
        kept at zero and no database is kept in the registry without a scope. */
    ghost predicate Valid()
      reads this, store
    {
      && store.Valid()
      && (!store.open ==> table == map[])
      && (store.open ==> && DefaultColumnFamilyName in store.names
                         && defaultHandle in store.handles
                         && store.handles[defaultHandle] == DefaultColumnFamilyName
                         && store.names == table.Keys + {DefaultColumnFamilyName})
      && DefaultColumnFamilyName !in table
      && (forall n :: n in table ==> && table[n] in store.handles
                                     && store.handles[table[n]] == n
                                     && n in store.names)
      && Positive(handlers)
      && (forall db :: db in handlers ==> handlers[db] != map[])
    }

    constructor (store: Db)
      requires store.Valid() && !store.open
      ensures Valid() && this.store == store
      ensures table == map[] && handlers == map[]
    {
      this.store := store;
      table := map[];
      defaultHandle := 0;
      handlers := map[];
      isInitialized := false;
    }

    /** `initialize`: set up the main database and mark the manager ready. */
    method Initialize(listed: Option<seq<string>>)
      requires Valid() && !store.open
      requires listed.Some? ==> (set n | n in listed.value) == store.names
      requires listed.None? ==> store.names == {}
      modifies this, store
      ensures Valid() && store.open && isInitialized
      ensures forall n :: n in table <==> n != DefaultColumnFamilyName && listed.Some? && n in listed.value
      ensures store.handles[defaultHandle] == DefaultColumnFamilyName
      ensures store.names == old(store.names) + {DefaultColumnFamilyName}
      ensures store.writes == old(store.writes) && handlers == old(handlers)
    {
      InitializeMainDb(listed);
      isInitialized := true;
    }

    /** `finalize`: tear the main database down and mark the manager idle. */
    method Finalize(dropReply: string -> Status)
      requires Valid() && store.open
      modifies this, store
      ensures Valid() && !store.open && !isInitialized && table == map[]
      ensures store.names == old(store.names) - (set n | n in old(table) && dropReply(n).Ok?)
      ensures store.writes == old(store.writes) && handlers == old(handlers)
    {
      FinalizeMainDb(dropReply);
      isInitialized := false;
    }

    /** `initializeMainDB`: open the store with every listed column family
        plus the default one, track every non-default family and keep the
        default handle apart. */
    method InitializeMainDb(listed: Option<seq<string>>)
      requires Valid() && !store.open
      requires listed.Some? ==> (set n | n in listed.value) == store.names
      requires listed.None? ==> store.names == {}
      modifies this, store
      ensures Valid() && store.open
      ensures DefaultColumnFamilyName !in table
      ensures forall n :: n in table <==> n != DefaultColumnFamilyName && listed.Some? && n in listed.value
      ensures DefaultColumnFamilyName in store.names
      ensures store.handles[defaultHandle] == DefaultColumnFamilyName
      ensures store.names == old(store.names) + {DefaultColumnFamilyName}
                             + (if listed.Some? then set n | n in listed.value else {})
      ensures store.names == old(store.names) + {DefaultColumnFamilyName}
      ensures store.writes == old(store.writes) && handlers == old(handlers)
      ensures isInitialized == old(isInitialized)
    {
      var cfDescriptors := ColumnFamilyDescriptors(listed);
      DescriptorNames(listed, cfDescriptors);
      var cfHandles := store.Open(cfDescriptors);
      TrackHandles(cfDescriptors, cfHandles);
      TrackedNames(table, cfDescriptors, ListedNames(listed));
    }

    /** The loop of `initializeMainDB` over the opened handles: every
        non-default family is emplaced in the table, the default one's handle
        is kept apart. */
    method TrackHandles(cfDescriptors: seq<string>, cfHandles: seq<CfHandle>)
      requires |cfHandles| == |cfDescriptors| && table == map[]
      requires forall i :: 0 <= i < |cfHandles| ==>
                 cfHandles[i] in store.handles && store.handles[cfHandles[i]] == cfDescriptors[i]
      requires DefaultColumnFamilyName in cfDescriptors
      modifies this`table, this`defaultHandle
      ensures forall n :: n in table <==> n in cfDescriptors && n != DefaultColumnFamilyName
      ensures forall n :: n in table ==> table[n] in store.handles && store.handles[table[n]] == n
      ensures defaultHandle in store.handles && store.handles[defaultHandle] == DefaultColumnFamilyName
    {
      for i := 0 to |cfDescriptors|
        invariant forall n :: n in table <==> n in cfDescriptors[..i] && n != DefaultColumnFamilyName
        invariant forall n :: n in table ==> table[n] in store.handles && store.handles[table[n]] == n
        invariant DefaultColumnFamilyName in cfDescriptors[..i] ==>
                    defaultHandle in store.handles && store.handles[defaultHandle] == DefaultColumnFamilyName
      {
        var dbName := cfDescriptors[i];
        assert cfDescriptors[..i + 1] == cfDescriptors[..i] + [dbName];
        if dbName != DefaultColumnFamilyName {
          // emplace: an existing key keeps its handle
          if dbName !in table {
            table := table[dbName := cfHandles[i]];
          }
        } else {
          defaultHandle := cfHandles[i];
        }
      }
      assert cfDescriptors[..|cfDescriptors|] == cfDescriptors;
    }

    /** `finalizeMainDB`: drop every tracked column family (ignoring how
        each drop went), forget the table and close the store. */
    method FinalizeMainDb(dropReply: string -> Status)
      requires Valid() && store.open
      modifies this, store
      ensures Valid() && !store.open && table == map[]
      ensures store.names == old(store.names) - (set n | n in old(table) && dropReply(n).Ok?)
      ensures store.writes == old(store.writes) && handlers == old(handlers)
      ensures isInitialized == old(isInitialized)
    {
      var rest := table.Keys;
      while rest != {}
        modifies store`names
        invariant rest <= table.Keys
        invariant store.names == old(store.names) - (set n | n in table.Keys - rest && dropReply(n).Ok?)
      {
        var dbName :| dbName in rest;
        var _ := store.DropColumnFamily(table[dbName], dropReply(dbName));
        rest := rest - {dbName};
      }
      table := map[];
      store.Close();
    }

    /** `createColumnFamily`: ask the engine for a new column family and
        track it on success. */
    method CreateColumnFamily(name: string, reply: Status) returns (r: Result<CfHandle>)
      requires Valid() && store.open
      modifies this, store
      ensures Valid() && store.open && handlers == old(handlers) && store.writes == old(store.writes)
      ensures defaultHandle == old(defaultHandle) && isInitialized == old(isInitialized)
      ensures var s := if name in old(store.names) then ColumnFamilyExists else reply;
              && (s.Ok? ==> && r.Success?
                            && r.value !in old(store.handles)
                            && table == old(table)[name := r.value]
                            && store.handles == old(store.handles)[r.value := name]
                            && store.names == old(store.names) + {name})
              && (s.NotOk? ==> && r == Failure(CreateFailed(s.text))
                               && table == old(table)
                               && store.handles == old(store.handles)
                               && store.names == old(store.names))
    {
      var s, cfHandle := store.CreateColumnFamily(name, reply);
      if s.Ok? {
        table := table[name := cfHandle];
        return Success(cfHandle);
      }
      return Failure(CreateFailed(s.text));
    }

    /** `createDB`: nothing to do for a tracked name, otherwise create it. */
    method CreateDb(name: string, reply: Status) returns (r: Outcome)
      requires Valid() && store.open
      modifies this, store
      ensures Valid() && store.open && handlers == old(handlers) && store.writes == old(store.writes)
      ensures defaultHandle == old(defaultHandle) && isInitialized == old(isInitialized)
      ensures r.Pass? ==> ExistsDb(name)
      ensures name in old(table) ==>
                && r == Pass && table == old(table)
                && store.names == old(store.names) && store.handles == old(store.handles)
      ensures name !in old(table) ==>
                var s := if name in old(store.names) then ColumnFamilyExists else reply;
                && (s.Ok? ==> && r == Pass
                              && table.Keys == old(table).Keys + {name}
                              && (forall n :: n in old(table) ==> table[n] == old(table)[n])
                              && store.names == old(store.names) + {name})
                && (s.NotOk? ==> && r == Fail(CreateFailed(s.text)) && table == old(table)
                                 && store.names == old(store.names)
                                 && store.handles == old(store.handles))
    {
      if ExistsDb(name) {
        return Pass;
      }
      var createResult := CreateColumnFamily(name, reply);
      if createResult.Failure? {
        return Fail(createResult.error);
      }
      return Pass;
    }

    /** `existsDB` */
    function ExistsDb(name: string): (r: bool)
      reads this
      ensures r <==> name in table
    {
      name in table
    }

    /** `listDBs`: every tracked name once.  (`loaded` is unused.) */
    method ListDbs(loaded: bool) returns (spaces: seq<string>)
      ensures forall n :: n in spaces <==> ExistsDb(n)
      ensures forall i, j :: 0 <= i < j < |spaces| ==> spaces[i] != spaces[j]
      ensures |spaces| == |table|
    {
      spaces := [];
      var rest := table.Keys;
      while rest != {}
        invariant rest <= table.Keys
        invariant forall n :: n in spaces <==> n in table.Keys - rest
        invariant forall i, j :: 0 <= i < j < |spaces| ==> spaces[i] != spaces[j]
        invariant |spaces| + |rest| == |table.Keys|
      {
        var dbName :| dbName in rest;
        assert dbName !in spaces;
        spaces := spaces + [dbName];
        rest := rest - {dbName};
      }
    }

    /** `getKVDBHandler`: a handler on a tracked database, counted in the
        registry under (dbName, scopeName). */
    method GetKvdbHandler(dbName: string, scopeName: string) returns (r: Result<KvdbHandler>)
      requires Valid()
      modifies this`handlers
      ensures Valid()
      ensures dbName !in table ==> r == Failure(NotExists) && handlers == old(handlers)
      ensures dbName in table ==> && r == Success(KvdbHandler(table[dbName], dbName, scopeName))
                                  && handlers == Acquire(old(handlers), dbName, scopeName)
    {
      if dbName !in table {
        return Failure(NotExists);
      }
      var cfHandle := table[dbName];
      handlers := Acquire(handlers, dbName, scopeName);
      return Success(KvdbHandler(cfHandle, dbName, scopeName));
    }

    /** `deleteDB`: refused while the registry has an entry for the name
        (reporting that entry count, 0 or 1), then refused for an untracked
        name; otherwise the column family is dropped and, if the engine
        agrees, forgotten. */
    method DeleteDb(name: string, dropReply: Status) returns (r: Outcome)
      requires Valid()
      modifies this`table, store`names
      ensures Valid() && handlers == old(handlers)
      ensures name in handlers ==>
                r == Fail(InUse(1)) && table == old(table) && store.names == old(store.names)
      ensures name !in handlers && name !in old(table) ==>
                r == Fail(NotExists) && table == old(table) && store.names == old(store.names)
      ensures name !in handlers && name in old(table) && dropReply.Ok? ==>
                && r == Pass
                && table == old(table) - {name}
                && store.names == old(store.names) - {name}
                && !ExistsDb(name)
      ensures name !in handlers && name in old(table) && dropReply.NotOk? ==>
                r == Fail(DropFailed(dropReply.text)) && table == old(table) && store.names == old(store.names)
    {
      var handlersInfo := GetKvdbHandlersInfo();
      var refCount := if name in handlersInfo then 1 else 0;
      if refCount != 0 {
        return Fail(InUse(refCount));
      }
      if name in table {
        var cfHandle := table[name];
        var opStatus := store.DropColumnFamily(cfHandle, dropReply);
        if opStatus.Ok? {
          table := table - {name};
        } else {
          return Fail(DropFailed(opStatus.text));
        }
      } else {
        return Fail(NotExists);
      }
      return Pass;
    }

    /** `loadDBFromFile`: after checking that the database is tracked and the
        path is not empty, and that the file held a JSON object, Put its
        members one by one, stopping at the first Put the engine refuses;
        what was written before stays written. */
    method LoadDbFromFile(name: string, path: string, document: Document, putReply: nat -> Status)
      returns (r: Outcome)
      requires Valid()
      modifies store`writes
      ensures Valid()
      ensures name !in table ==> r == Fail(NotExists) && store.writes == old(store.writes)
      ensures name in table && path == [] ==> r == Fail(EmptyPath) && store.writes == old(store.writes)
      ensures name in table && path != [] && !document.Object? ==>
                && r == Fail(match document
                             case Unreadable => FileOpenFailed
                             case Unparsable => ParseFailed
                             case _ => NotAnObject)
                && store.writes == old(store.writes)
      ensures name in table && path != [] && document.Object? ==>
                var entries := document.entries;
                var k := FirstFailure(putReply, |entries|);
                && store.writes == old(store.writes) + EntryWrites(name, entries[..k])
                && r == (if k == |entries| then Pass else Fail(InsertFailed(entries[k].0, entries[k].1)))
    {
      if name !in table {
        return Fail(NotExists);
      }
      var cfHandle := table[name];
      if path == [] {
        return Fail(EmptyPath);
      }
      match document {
        case Unreadable => return Fail(FileOpenFailed);
        case Unparsable => return Fail(ParseFailed);
        case NotObject => return Fail(NotAnObject);
        case Object(entries) =>
          for i := 0 to |entries|
            invariant forall j :: 0 <= j < i ==> putReply(j).Ok?
            invariant store.writes == old(store.writes) + EntryWrites(name, entries[..i])
          {
            var (key, value) := entries[i];
            var status := store.Put(cfHandle, key, value, putReply(i));
            if status.NotOk? {
              return Fail(InsertFailed(key, value));
            }
            assert EntryWrites(name, entries[..i + 1]) == EntryWrites(name, entries[..i]) + [Write(name, key, value)];
          }
          assert entries[..|entries|] == entries;
          return Pass;
      }
    }

    /** `getKVDBHandlersInfo`: the registry, database by database. */
    method GetKvdbHandlersInfo() returns (info: Registry)
      ensures info == handlers
    {
      info := map[];
      var dbNames := handlers.Keys;
      while dbNames != {}
        invariant dbNames <= handlers.Keys
        invariant info == Restrict(handlers, handlers.Keys - dbNames)
      {
        var dbName :| dbName in dbNames;
        info := info[dbName := handlers[dbName]];
        dbNames := dbNames - {dbName};
      }
    }

    /** `getKVDBScopesInfo`: the registry indexed by scope, built by adding
        each (database, scope, count) entry of `getKVDBHandlersInfo` to the
        counter of its scope. */
    method GetKvdbScopesInfo() returns (scopesInfo: Registry)
      requires Valid()
      ensures scopesInfo == Transpose(handlers)
      ensures Transpose(scopesInfo) == handlers
    {
      var handlersInfo := GetKvdbHandlersInfo();
      var refCounterMap: Registry := map[];
      var dbNames := handlersInfo.Keys;
      ghost var done: set<string> := {};
      while dbNames != {}
        invariant dbNames + done == handlersInfo.Keys && dbNames !! done
        invariant refCounterMap == Transpose(Restrict(handlersInfo, done))
      {
        var dbName :| dbName in dbNames;
        ghost var before := Restrict(handlersInfo, done);
        refCounterMap := AddScopesOf(refCounterMap, dbName, handlersInfo[dbName], before);
        RestrictAddOne(handlersInfo, done, dbName);
        dbNames := dbNames - {dbName};
        done := done + {dbName};
      }
      RestrictAll(handlersInfo);
      scopesInfo := refCounterMap;
      TransposeInvolutive(handlers);
    }
  }
}
