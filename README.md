# KVDB manager model

A Dafny model of `KVDBManager`, the engine's key-value database manager. The
manager keeps many named databases in one RocksDB store. Each database is a
column family of that store. The manager keeps:

- a table from database name to column family handle (`m_mapCFHandles`);
- the handle of RocksDB's `default` column family, kept apart from the table
  and never exposed;
- a registry of the handlers it has issued (`m_kvdbHandlerCollection`). For
  each database, the registry records how many handlers each scope holds.

The model has four modules:

- `Base` holds the result types and the error kinds.
- `RocksDb` is the storage engine, seen only at its boundary. Creating and
  dropping a column family and Put take the status the engine reports
  (`reply`) as a parameter. Open is taken to succeed, since the source ignores
  its status, and Close reports nothing. The class
  `RocksDb.Db` records what successful calls do to the store: the column
  families it holds, the handles issued in the current session, and every
  successful Put, in order.
- `HandlerRegistry` is the handler registry as a value
  `map<database, map<scope, count>>`. It holds `Acquire` (one more handler for
  a database and scope) and `Transpose` (the same usage indexed by scope).
- `Kvdb` holds the class `KvdbManager`, with the source's fields and
  operations. Its invariant `Valid()` says:
  - while the store is open, every tracked name reaches a column family of
    that name through a handle of the current session;
  - the default column family is open but never in the table;
  - while the store is open, it holds no family besides the tracked ones and
    `default`;
  - while the store is closed, the table is empty;
  - the registry never keeps a count at zero, nor a database with no scope.

  Every state-changing method keeps this invariant.

The engine decides success or failure, with one rule taken from RocksDB's
documented behaviour. Creating a column family whose name the store already
holds fails with "Column family already exists". This is what keeps `default`
out of the table: `createDB("default")` passes the manager's own check and is
refused by the engine.

The model keeps these quirks of the code:

- `deleteDB` reports `handlersInfo.count(name)`, a map membership count. A
  refused deletion therefore always reports `InUse(1)`, not the number of
  live handlers on the database (kvdbManager.cpp:171-174).
- When a Put fails during a load, the message has two placeholders for three
  arguments, so the engine status never appears in it. `InsertFailed` carries
  only the key and the value (kvdbManager.cpp:262-263).
- `finalizeMainDB` drops every tracked column family. A drop removes the
  family from the store, not just its handle. So after a finalize, every
  database whose drop succeeded is gone from the store (kvdbManager.cpp:119-127).

## Model

| member | source | states |
|---|---|---|
| `Kvdb.KvdbManager.constructor` | src/engine/source/kvdb/src/kvdbManager.cpp:16-22 | A new manager tracks nothing, has an empty registry and a closed store. |
| `Kvdb.KvdbManager.Initialize` | src/engine/source/kvdb/src/kvdbManager.cpp:24-29 | Opens the store, tracks exactly the listed non-default names and sets the initialized flag. The default handle refers to `default`, the store gains only `default`, and the registry and the stored data are unchanged. |
| `Kvdb.KvdbManager.Finalize` | src/engine/source/kvdb/src/kvdbManager.cpp:31-35 | Finalizes the main database and clears the initialized flag. The table is empty, the store is closed and loses exactly the tracked families whose drop succeeded; the registry and the stored data are unchanged. |
| `Kvdb.ColumnFamilyDescriptors` | src/engine/source/kvdb/src/kvdbManager.cpp:67-93 | The descriptors are the listed names in order (none if listing failed). `default` is appended only when absent. The result always contains `default` and nothing beyond the listed names and `default`. |
| `Kvdb.KvdbManager.InitializeMainDb` | src/engine/source/kvdb/src/kvdbManager.cpp:59-113 | The listing must be the store's families (empty when listing fails). Afterwards a name is in the table iff it was listed and is not `default`. `default` is never a key, its handle is kept apart, and the store holds it. The store's families gain exactly the descriptors, that is only `default`. The registry, the stored data and the initialized flag are unchanged. |
| `Kvdb.KvdbManager.TrackHandles` | src/engine/source/kvdb/src/kvdbManager.cpp:101-112 | Given one handle per descriptor, each referring to its descriptor's family, the table holds exactly the non-default descriptors, each with a handle to its own family, and the default handle refers to `default`. |
| `Kvdb.KvdbManager.FinalizeMainDb` | src/engine/source/kvdb/src/kvdbManager.cpp:115-131 | Every tracked family is dropped before the table is cleared. The store loses exactly the tracked families whose drop succeeded. The table is then empty and the store closed; the registry, the stored data and the initialized flag are unchanged. |
| `Kvdb.KvdbManager.CreateColumnFamily` | src/engine/source/kvdb/src/kvdbManager.cpp:37-49 | If the engine creates the family, the name is added to the table and the store with a fresh handle that refers to it. Otherwise the error carries the engine's status text and the table, the store's families and its handles are unchanged. The registry, the stored data, the default handle and the initialized flag never change. |
| `Kvdb.KvdbManager.CreateDb` | src/engine/source/kvdb/src/kvdbManager.cpp:270-287 | A tracked name succeeds with the table and the store unchanged. A new name is added to the table and the store, with the other entries kept, when the engine succeeds. When the engine fails, `CreateFailed` is returned and the table and the store are unchanged. After a success the name exists. The registry, the stored data, the default handle and the initialized flag never change. |
| `Kvdb.KvdbManager.ExistsDb` | src/engine/source/kvdb/src/kvdbManager.cpp:289-292 | True exactly for names in the table. |
| `Kvdb.KvdbManager.ListDbs` | src/engine/source/kvdb/src/kvdbManager.cpp:154-165 | Lists exactly the names for which `ExistsDb` holds, each once. Its length equals the table size. |
| `Kvdb.KvdbManager.GetKvdbHandler` | src/engine/source/kvdb/src/kvdbManager.cpp:133-152 | An untracked name gives `NotExists` and leaves the registry untouched. A tracked name gives a handler bound to its handle, and the registry becomes `Acquire(old, dbName, scopeName)`. |
| `Kvdb.KvdbManager.DeleteDb` | src/engine/source/kvdb/src/kvdbManager.cpp:167-198 | Usage is checked first: a name in the registry gives `InUse(1)` with nothing changed. Otherwise an untracked name gives `NotExists` with nothing changed. A successful drop removes exactly that name from the table and the store. A failed drop returns `DropFailed` with the status and changes nothing. |
| `Kvdb.KvdbManager.LoadDbFromFile` | src/engine/source/kvdb/src/kvdbManager.cpp:200-268 | Checks run in this order: untracked name, empty path, unreadable file, invalid JSON, non-object root. Each failure writes nothing. Otherwise the entries before the first refused Put are written, in order, and no later ones. The result is success iff every Put succeeded, else `InsertFailed` for the refused entry. |
| `Kvdb.FirstFailure` | src/engine/source/kvdb/src/kvdbManager.cpp:257-265 | The index where the Put loop stops: every earlier Put succeeded, and the Put at that index failed unless it equals the entry count. |
| `Kvdb.KvdbManager.GetKvdbHandlersInfo` | src/engine/source/kvdb/src/kvdbManager.cpp:333-344 | The database-to-scopes usage built entry by entry equals the registry. |
| `Kvdb.KvdbManager.GetKvdbScopesInfo` | src/engine/source/kvdb/src/kvdbManager.cpp:294-331 | The scope view built by adding each (database, scope, count) entry to its scope's counter equals `Transpose` of the registry, and transposing it back gives the registry. |
| `Kvdb.AddScopesOf` | src/engine/source/kvdb/src/kvdbManager.cpp:309-319 | Adding every scope of one database to the scope view of the databases done so far gives the scope view with that database added. |
| `HandlerRegistry.AddRef` | src/engine/source/kvdb/src/kvdbManager.cpp:315 | The counter gains `name` (if absent, at `n`) or keeps it and adds `n`; every other counter is unchanged. |
| `HandlerRegistry.Acquire` | src/engine/source/kvdb/src/kvdbManager.cpp:147 | The count for (db, scope) rises by exactly one and no other count changes. Other databases' entries are untouched, and no count becomes zero. |
| `HandlerRegistry.Transpose` | src/engine/source/kvdb/src/kvdbManager.cpp:294-331 | `result[s][d] == info[d][s]` for exactly the pairs present in `info`. `s` is a key iff some database's entry lists `s`. Counts agree pair by pair. |
| `HandlerRegistry.TransposeUnique` | src/engine/source/kvdb/src/kvdbManager.cpp:294-331 | Two maps that are both transposes of the same usage are equal. |
| `HandlerRegistry.TransposeAddRef` | src/engine/source/kvdb/src/kvdbManager.cpp:309-319 | Adding one new (db, scope, n) entry on the database side adds exactly `n` to scope's counter for db on the scope side. |
| `HandlerRegistry.TransposeStep` | src/engine/source/kvdb/src/kvdbManager.cpp:309-319 | One pass of the inner loop: adding scope `s` of the current database moves the scope view by exactly that `addRef`. |
| `HandlerRegistry.TransposeStart` | src/engine/source/kvdb/src/kvdbManager.cpp:306-312 | Starting a database with no scopes added leaves the scope view unchanged. |
| `HandlerRegistry.TransposeInvolutive` | src/engine/source/kvdb/src/kvdbManager.cpp:294-344 | Transposing the scope view gives back the usage info, as long as every database in it is used by some scope. |
| `HandlerRegistry.TransposeAcquire` | src/engine/source/kvdb/src/kvdbManager.cpp:133-152 | After an acquire of (db, scope), the scope view is the old scope view with the acquire of (scope, db). The two views stay exact transposes. |
| `HandlerRegistry.TransposePositive` | src/engine/source/kvdb/src/kvdbManager.cpp:294-331 | The scope view keeps no zero count when the usage info keeps none. |
| `RocksDb.Db.Open` | src/engine/source/kvdb/src/kvdbManager.cpp:95 | The session opens with one fresh handle per descriptor, in order, each referring to its descriptor's family. |
| `RocksDb.Db.CreateColumnFamily` | src/engine/source/kvdb/src/kvdbManager.cpp:40 | An existing name is refused. Otherwise the reported status decides. On success a fresh handle refers to the new family. |
| `RocksDb.Db.DropColumnFamily` | src/engine/source/kvdb/src/kvdbManager.cpp:181 | On success the family leaves the store. The handle stays issued. |
| `RocksDb.Db.Put` | src/engine/source/kvdb/src/kvdbManager.cpp:259 | On success one write to the handle's family is appended to the store's writes. |
| `RocksDb.Db.Close` | src/engine/source/kvdb/src/kvdbManager.cpp:126-130 | Destroying the handles and deleting the engine leaves the store closed with no handles issued. |

## Left out

- `initializeOptions`, `create_directories`, the path formatting in `initializeMainDB`, and the metrics scope are configuration and I/O. They are left out.
- RocksDB itself is reduced to an ok/fail oracle plus the effects above. `ListColumnFamilies` becomes the `listed` parameter (`None` when it fails). The status of `DB::Open`, which the source ignores, is taken as success with one handle per descriptor. `DestroyColumnFamilyHandle` is folded into `Close`.
- Reading the file and parsing JSON in `loadDBFromFile` become the `Document` parameter: unreadable, not JSON, not an object, or the object's members with each value already serialised by `str()`.
- The `KVDBHandler` operations and handler release are out of the model, along with the internals of `KVDBHandlerCollection` and `RefCounter`. Those classes are not part of this model. The registry is the value `HandlerRegistry.Registry`, and only acquire changes it here.
- Concurrency and locking are out of scope: the model is sequential.
- Message texts are out; only error kinds are kept.
- Order: `std::map` iterates in key order, but the model's loops take keys in an unspecified order. `Kvdb.KvdbManager.ListDbs` does not promise sorted output, and `Kvdb.KvdbManager.FinalizeMainDb` does not fix the order of its drops.
- `Kvdb.KvdbManager.InitializeMainDb` requires the listing to be the store's families, and a failed listing to mean an empty store (no database yet). A listing that disagrees with the store, and the failed `DB::Open` that RocksDB gives when families are left out of the descriptors, are not modelled.
- `Kvdb.KvdbManager.InitializeMainDb` requires a closed store. Initializing twice without finalizing overwrites the open `m_pRocksDB` in the source; that case is not modelled.
- `Kvdb.KvdbManager.CreateDb`, `Kvdb.KvdbManager.CreateColumnFamily` and `Kvdb.KvdbManager.FinalizeMainDb` require an open store. In the source they dereference `m_pRocksDB`, which is null before `initialize`.
