/** The handler registry (`KVDBHandlerCollection`) as a value: for every
    database, the scopes holding handlers on it and how many each holds. */
module HandlerRegistry {

  /** `kvdbManager::RefInfo`: name -> count. */
  type RefInfo = map<string, nat>

  /** database name -> (scope name -> live handler count) */
  type Registry = map<string, RefInfo>

  /** The entry of `m` under `k`, or the empty map when there is none. */
  function RefsOf(m: Registry, k: string): RefInfo
  {
    if k in m then m[k] else map[]
  }

  /** Number of live handlers `scope` holds on `db`; 0 when there is no entry. */
  function Count(reg: Registry, db: string, scope: string): nat
  {
    if db in reg && scope in reg[db] then reg[db][scope] else 0
  }

  /** No entry is kept at zero. */
  ghost predicate Positive(reg: Registry)
  {
    forall db, scope :: db in reg && scope in reg[db] ==> reg[db][scope] > 0
  }

  /** `addKVDBHandler(db, scope)`: one more handler for (db, scope). */
  function Acquire(reg: Registry, db: string, scope: string): (r: Registry)
    ensures Count(r, db, scope) == Count(reg, db, scope) + 1
    ensures forall d, s :: (d != db || s != scope) ==> Count(r, d, s) == Count(reg, d, s)
    ensures r.Keys == reg.Keys + {db}
    ensures scope in r[db]
    ensures forall d :: d in reg && d != db ==> r[d] == reg[d]
    ensures Positive(reg) ==> Positive(r)
  {
    reg[db := RefsOf(reg, db)[scope := Count(reg, db, scope) + 1]]
  }

  /** `RefCounter::addRef(name, n)`: add `n` to the counter kept for `name`. */
  function AddRef(counter: RefInfo, name: string, n: nat): (r: RefInfo)
    ensures r.Keys == counter.Keys + {name}
    ensures forall k :: k in counter && k != name ==> r[k] == counter[k]
    ensures name in counter ==> r[name] == counter[name] + n
    ensures name !in counter ==> r[name] == n
  {
    counter[name := (if name in counter then counter[name] else 0) + n]
  }

  /** Scopes that appear under some database. */
  function UsedScopes(info: Registry): set<string>
  {
    set db, scope | db in info && scope in info[db] :: scope
  }

  /** `r` is `info` indexed by scope instead of by database: the same
      (database, scope) pairs with the same counts, and no scope without a
      database. */
  ghost predicate IsTransposeOf(r: Registry, info: Registry)
  {
    && (forall scope, db :: scope in r && db in r[scope] ==> db in info && scope in info[db])
    && (forall db, scope :: db in info && scope in info[db] ==> scope in r && db in r[scope])
    && (forall scope, db :: scope in r && db in r[scope] ==> r[scope][db] == info[db][scope])
    && (forall scope :: scope in r ==> r[scope] != map[])
  }

  /** The usage view indexed by scope instead of by database. */
  function Transpose(info: Registry): (r: Registry)
    ensures IsTransposeOf(r, info)
    ensures forall scope :: scope in r <==> exists db :: db in info && scope in info[db]
    ensures forall scope, db :: Count(r, scope, db) == Count(info, db, scope)
  {
    var r := map scope | scope in UsedScopes(info) ::
      map db | db in info && scope in info[db] :: info[db][scope];
    assert forall scope :: scope in r ==> r[scope] != map[] by {
      forall scope | scope in r ensures r[scope] != map[] {
        var db :| db in info && scope in info[db];
        assert db in r[scope];
      }
    }
    r
  }

  /** A registry has at most one transpose. */
  lemma TransposeUnique(r1: Registry, r2: Registry, info: Registry)
    requires IsTransposeOf(r1, info) && IsTransposeOf(r2, info)
    ensures r1 == r2
  {
    forall s | s in r1 ensures s in r2 && r1[s] == r2[s] {
      var d :| d in r1[s];
      assert d in info && s in info[d];
      forall k | k in r1[s] ensures k in r2[s] && r1[s][k] == r2[s][k] {
        assert k in info && s in info[k];
      }
      forall k | k in r2[s] ensures k in r1[s] {
        assert k in info && s in info[k];
      }
    }
    forall s | s in r2 ensures s in r1 {
      var d :| d in r2[s];
      assert d in info && s in info[d];
    }
  }

  /** The transpose of a registry with no zero count has no zero count. */
  lemma TransposePositive(info: Registry)
    requires Positive(info)
    ensures Positive(Transpose(info))
  {
  }

  /** `m` restricted to the keys in `keys`. */
  function Restrict<V>(m: map<string, V>, keys: set<string>): map<string, V>
  {
    map k | k in m && k in keys :: m[k]
  }

  /** Restricting to one more key of `m` adds that key's entry. */
  lemma RestrictAddOne<V>(m: map<string, V>, keys: set<string>, k: string)
    requires k in m
    ensures Restrict(m, keys)[k := m[k]] == Restrict(m, keys + {k})
  {
  }

  /** Restricting to every key changes nothing. */
  lemma RestrictAll<V>(m: map<string, V>)
    ensures Restrict(m, m.Keys) == m
  {
  }

  /** Adding one fresh (db, scope, n) entry on the database side adds `n`
      under (scope, db) on the scope side and changes nothing else. */
  lemma TransposeAddRef(info: Registry, db: string, scope: string, n: nat)
    requires db in info ==> scope !in info[db]
    ensures var t := Transpose(info);
            Transpose(info[db := RefsOf(info, db)[scope := n]])
              == t[scope := AddRef(RefsOf(t, scope), db, n)]
  {
    var info' := info[db := RefsOf(info, db)[scope := n]];
    var t := Transpose(info);
    var expected := t[scope := AddRef(RefsOf(t, scope), db, n)];
    assert db !in RefsOf(t, scope);
    forall s, d | s in expected && d in expected[s] ensures d in info' && s in info'[d] {
      if s != scope || d != db {
        assert d in info && s in info[d];
      }
    }
    forall d, s | d in info' && s in info'[d] ensures s in expected && d in expected[s] {
      if s != scope || d != db {
        assert d in info && s in info[d];
      }
    }
    forall s, d | s in expected && d in expected[s] ensures expected[s][d] == info'[d][s] {
      if s != scope || d != db {
        assert d in info && s in info[d];
      }
    }
    assert IsTransposeOf(expected, info');
    TransposeUnique(Transpose(info'), expected, info');
  }

  /** Adding a database with no scopes changes nothing on the scope side. */
  lemma TransposeAddEmpty(info: Registry, db: string)
    requires db !in info
    ensures Transpose(info[db := map[]]) == Transpose(info)
  {
    var info' := info[db := map[]];
    var t := Transpose(info);
    forall d, s | d in info' && s in info'[d] ensures s in t && d in t[s] {
      assert d in info && s in info[d];
    }
    assert IsTransposeOf(t, info');
    TransposeUnique(Transpose(info'), t, info');
  }

  /** Transposing twice gives back the registry, as long as every database
      in it is used by some scope. */
  lemma TransposeInvolutive(info: Registry)
    requires forall db :: db in info ==> info[db] != map[]
    ensures Transpose(Transpose(info)) == info
  {
    var t := Transpose(info);
    forall d, s | d in info && s in info[d] ensures s in t && d in t[s] && info[d][s] == t[s][d] {
    }
    assert IsTransposeOf(info, t);
    TransposeUnique(Transpose(t), info, t);
  }

  /** One step of building the scope view: the scope `scope` of database
      `db` (not yet in `before`) joins the scopes already added for `db`. */
  lemma TransposeStep(before: Registry, db: string, refs: RefInfo, added: set<string>, scope: string)
    requires db !in before && scope in refs && scope !in added
    ensures var t := Transpose(before[db := Restrict(refs, added)]);
            Transpose(before[db := Restrict(refs, added + {scope})])
              == t[scope := AddRef(RefsOf(t, scope), db, refs[scope])]
  {
    var partial := before[db := Restrict(refs, added)];
    TransposeAddRef(partial, db, scope, refs[scope]);
    StepRegistry(before, db, refs, added, scope);
  }

  lemma StepRegistry(before: Registry, db: string, refs: RefInfo, added: set<string>, scope: string)
    requires scope in refs
    ensures var partial := before[db := Restrict(refs, added)];
            partial[db := RefsOf(partial, db)[scope := refs[scope]]]
              == before[db := Restrict(refs, added + {scope})]
  {
    var partial := before[db := Restrict(refs, added)];
    assert RefsOf(partial, db) == Restrict(refs, added);
    RestrictAddOne(refs, added, scope);
  }

  /** Before any scope of `db` is added, the scope view is that of `before`. */
  lemma TransposeStart(before: Registry, db: string, refs: RefInfo)
    requires db !in before
    ensures Transpose(before[db := Restrict(refs, {})]) == Transpose(before)
  {
    assert Restrict(refs, {}) == map[];
    TransposeAddEmpty(before, db);
  }

  /** The scope view after an acquire is the old scope view with the same
      acquire seen from the scope side: the two views stay transposes. */
  lemma TransposeAcquire(reg: Registry, db: string, scope: string)
    ensures Transpose(Acquire(reg, db, scope)) == Acquire(Transpose(reg), scope, db)
  {
    var a := Acquire(reg, db, scope);
    var t := Transpose(reg);
    var e := Acquire(t, scope, db);
    forall s, d | s in e && d in e[s] ensures d in a && s in a[d] && e[s][d] == a[d][s] {
      if s != scope || d != db {
        assert s in t && d in t[s];
        assert d in reg && s in reg[d];
      }
    }
    forall d, s | d in a && s in a[d] ensures s in e && d in e[s] {
      if s != scope || d != db {
        assert d in reg && s in reg[d];
      }
    }
    forall s | s in e ensures e[s] != map[] {
      if s != scope {
        assert s in t;
      } else {
        assert db in e[s];
      }
    }
    assert IsTransposeOf(e, a);
    TransposeUnique(Transpose(a), e, a);
  }
}
