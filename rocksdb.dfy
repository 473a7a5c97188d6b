/** The embedded storage engine, seen only at its boundary.  Whether a call
    succeeds is decided by the environment: creating and dropping a column
    family and Put take the status the engine reports as a parameter
    (`reply`), Open is taken to succeed (its status is ignored by the caller)
    and Close reports nothing.  The model records only the effect a
    successful call has on the store. */
module RocksDb {

  /** `rocksdb::ColumnFamilyHandle*`, as an opaque identity. */
  type CfHandle = nat

  /** `rocksdb::kDefaultColumnFamilyName` */
  const DefaultColumnFamilyName: string := "default"

  /** `rocksdb::Status`, reduced to ok or not ok with its `ToString()` text. */
  datatype Status = Ok | NotOk(text: string)

  /** What RocksDB answers when asked to create a column family that exists. */
  const ColumnFamilyExists: Status := NotOk("Invalid argument: Column family already exists")

  /** One successful Put: the column family written, the key and the value. */
  datatype Write = Write(family: string, key: string, value: string)

  /** The physical store at the configured path together with the session
      (`rocksdb::DB*`) opened on it. */
  class Db {
    /** `m_pRocksDB != nullptr` */
    var open: bool
    /** Column families the store holds; persists across sessions. */
    var names: set<string>
    /** Handles issued in the current session, each to the family it refers to. */
    var handles: map<CfHandle, string>
    /** Every handle issued so far is below `next`. */
    var next: nat
    /** Every successful Put, in order; persists across sessions. */
    var writes: seq<Write>

    ghost predicate Valid()
      reads this
    {
      && (forall h :: h in handles ==> h < next)
      && (!open ==> handles == map[])
    }

    constructor ()
      ensures Valid() && !open
      ensures names == {} && handles == map[] && writes == []
    {
      open := false;
      names := {};
      handles := map[];
      next := 0;
      writes := [];
    }

    /** `DB::Open` with one descriptor per column family; its status is
        ignored by the caller, so the model has it succeed and hand out one
        fresh handle per descriptor, in order. */
    method Open(descriptors: seq<string>) returns (hs: seq<CfHandle>)
      requires Valid() && !open
      modifies this
      ensures Valid() && open
      ensures |hs| == |descriptors|
      ensures forall i :: 0 <= i < |hs| ==> hs[i] in handles && handles[hs[i]] == descriptors[i]
      ensures names == old(names) + (set d | d in descriptors)
      ensures writes == old(writes)
    {
      names := names + (set d | d in descriptors);
      hs := [];
      var i := 0;
      while i < |descriptors|
        invariant 0 <= i <= |descriptors| && |hs| == i
        invariant forall h :: h in handles ==> h < next
        invariant forall j :: 0 <= j < i ==> hs[j] in handles && handles[hs[j]] == descriptors[j]
        invariant names == old(names) + (set d | d in descriptors)
        invariant writes == old(writes)
      {
        handles := handles[next := descriptors[i]];
        hs := hs + [next];
        next := next + 1;
        i := i + 1;
      }
      open := true;
    }

    /** `DB::CreateColumnFamily`: refused for a name the store already holds,
        otherwise as `reply` says; on success a fresh handle to the new family. */
    method CreateColumnFamily(name: string, reply: Status) returns (s: Status, h: CfHandle)
      requires Valid() && open
      modifies this
      ensures Valid() && open
      ensures s == (if name in old(names) then ColumnFamilyExists else reply)
      ensures s.Ok? ==> h !in old(handles) && handles == old(handles)[h := name]
                        && names == old(names) + {name}
      ensures s.NotOk? ==> handles == old(handles) && names == old(names)
      ensures writes == old(writes)
    {
      s := if name in names then ColumnFamilyExists else reply;
      h := next;
      if s.Ok? {
        handles := handles[h := name];
        names := names + {name};
        next := next + 1;
      }
    }

    /** `DB::DropColumnFamily`: on success the family is gone from the store;
        the handle itself stays issued until the session closes. */
    method DropColumnFamily(h: CfHandle, reply: Status) returns (s: Status)
      requires open && h in handles
      modifies this`names
      ensures s == reply
      ensures names == if reply.Ok? then old(names) - {handles[h]} else old(names)
    {
      s := reply;
      if s.Ok? {
        names := names - {handles[h]};
      }
    }

    /** `DB::Put` into the family behind `h`. */
    method Put(h: CfHandle, key: string, value: string, reply: Status) returns (s: Status)
      requires open && h in handles
      modifies this`writes
      ensures s == reply
      ensures writes == if reply.Ok? then old(writes) + [Write(handles[h], key, value)] else old(writes)
    {
      s := reply;
      if s.Ok? {
        writes := writes + [Write(handles[h], key, value)];
      }
    }

    /** Destroying the remaining handles and `delete m_pRocksDB`. */
    method Close()
      requires open
      modifies this`open, this`handles
      ensures !open && handles == map[]
    {
      handles := map[];
      open := false;
    }
  }
}
