/** The storage provider: namespaces of byte-string keys and values, and how many bytes they hold. */
module Storage {
  import opened Machine

  type Key = Bytes
  type Namespace = map<Key, Bytes>
  type Database = map<string, Namespace>

  /** A namespace that was never written reads as empty. */
  function Entries(db: Database, ns: string): Namespace {
    if ns in db then db[ns] else map[]
  }

  function Put(db: Database, ns: string, key: Key, value: Bytes): Database {
    db[ns := Entries(db, ns)[key := value]]
  }

  function Remove(db: Database, ns: string, key: Key): Database {
    if ns in db then db[ns := db[ns] - {key}] else db
  }

  function Lookup(m: Namespace, key: Key): Option<Bytes> {
    if key in m then Some(m[key]) else None
  }

  /** A write reaches one key of one namespace: it holds the value afterwards, and every other entry of the
      store is what it was. */
  lemma PutWritesOneEntry(db: Database, ns: string, key: Key, value: Bytes, other: string, k: Key)
    ensures Lookup(Entries(Put(db, ns, key, value), ns), key) == Some(value)
    ensures other != ns || k != key ==>
      Lookup(Entries(Put(db, ns, key, value), other), k) ==
        if other in db && k in db[other] then Some(db[other][k]) else None
  {
  }

  /** So does a removal, after which the key is absent. */
  lemma RemoveErasesOneEntry(db: Database, ns: string, key: Key, other: string, k: Key)
    ensures Lookup(Entries(Remove(db, ns, key), ns), key) == None
    ensures other != ns || k != key ==>
      Lookup(Entries(Remove(db, ns, key), other), k) ==
        if other in db && k in db[other] then Some(db[other][k]) else None
  {
  }

  /** Bytes that `key` accounts for in `m`: key plus value, nothing when absent. */
  function Occupied(m: Namespace, key: Key): nat {
    if key in m then |key| + |m[key]| else 0
  }

  /** The reference notion of usage: key plus value bytes over all entries, in no particular order. */
  ghost function Size(m: Namespace): nat {
    if m == map[] then 0
    else
      var k :| k in m;
      Occupied(m, k) + Size(m - {k})
  }

  lemma {:induction false} SizeWithout(m: Namespace, key: Key)
    requires key in m
    ensures Size(m) == Occupied(m, key) + Size(m - {key})
    decreases |m|
  {
    var k :| k in m && Size(m) == Occupied(m, k) + Size(m - {k});
    if k != key {
      SizeWithout(m - {k}, key);
      SizeWithout(m - {key}, k);
      assert m - {k} - {key} == m - {key} - {k};
      assert Occupied(m - {k}, key) == Occupied(m, key) && Occupied(m - {key}, k) == Occupied(m, k);
    }
  }

  /** Overwriting trades the old entry for the new one. */
  lemma SizeOfPut(m: Namespace, key: Key, value: Bytes)
    ensures Size(m[key := value]) + Occupied(m, key) == Size(m) + |key| + |value|
  {
    var m' := m[key := value];
    SizeWithout(m', key);
    assert m' - {key} == m - {key};
    if key in m {
      SizeWithout(m, key);
    } else {
      assert m - {key} == m;
    }
  }

  lemma SizeOfRemove(m: Namespace, key: Key)
    ensures Size(m - {key}) + Occupied(m, key) == Size(m)
  {
    if key in m {
      SizeWithout(m, key);
    } else {
      assert m - {key} == m;
    }
  }

  /** What `fetch_all` hands over: every entry once, in any order; an empty value may come as None. */
  ghost predicate Lists(rows: seq<(Key, Option<Bytes>)>, m: Namespace) {
    && (forall i, j :: 0 <= i < j < |rows| ==> rows[i].0 != rows[j].0)
    && (forall i :: 0 <= i < |rows| ==> rows[i].0 in m && m[rows[i].0] == Payload(rows[i].1))
    && (forall k :: k in m ==> exists i :: 0 <= i < |rows| && rows[i].0 == k)
  }

  function Payload(value: Option<Bytes>): Bytes {
    if value.Some? then value.value else []
  }

  /** The entries named by the first `n` rows. */
  ghost function Listed(rows: seq<(Key, Option<Bytes>)>, n: nat): Namespace
    requires n <= |rows|
  {
    if n == 0 then map[] else Listed(rows, n - 1)[rows[n - 1].0 := Payload(rows[n - 1].1)]
  }

  lemma {:induction false} ListedWithin(rows: seq<(Key, Option<Bytes>)>, m: Namespace, n: nat)
    requires Lists(rows, m) && n <= |rows|
    ensures forall k :: k in Listed(rows, n) ==> k in m && Listed(rows, n)[k] == m[k]
    ensures forall i :: 0 <= i < n ==> rows[i].0 in Listed(rows, n)
  {
    if n > 0 {
      ListedWithin(rows, m, n - 1);
    }
  }

  lemma {:induction false} NotYetListed(rows: seq<(Key, Option<Bytes>)>, m: Namespace, n: nat, j: nat)
    requires Lists(rows, m) && n <= j < |rows|
    ensures rows[j].0 !in Listed(rows, n)
  {
    if n > 0 {
      NotYetListed(rows, m, n - 1, j);
    }
  }

  /** One turn of the scan. */
  function Scanned(total: nat, row: (Key, Option<Bytes>)): nat {
    AsU64(total + (|row.0| + |Payload(row.1)|))
  }

  lemma ScanStep(rows: seq<(Key, Option<Bytes>)>, m: Namespace, i: nat)
    requires Lists(rows, m) && i < |rows|
    ensures Scanned(AsU64(Size(Listed(rows, i))), rows[i]) == AsU64(Size(Listed(rows, i + 1)))
  {
    NotYetListed(rows, m, i, i);
    SizeOfPut(Listed(rows, i), rows[i].0, Payload(rows[i].1));
    WrapOnce(Size(Listed(rows, i)), |rows[i].0| + |Payload(rows[i].1)|);
  }

  lemma AllListed(rows: seq<(Key, Option<Bytes>)>, m: Namespace)
    requires Lists(rows, m)
    ensures Listed(rows, |rows|) == m
  {
    ListedWithin(rows, m, |rows|);
    forall k | k in m ensures k in Listed(rows, |rows|) {
      var i :| 0 <= i < |rows| && rows[i].0 == k;
    }
  }

  /** The full scan agrees with the reference usage, whatever order the rows come in. */
  method GetNamespaceByteSize(rows: seq<(Key, Option<Bytes>)>, ghost m: Namespace) returns (total: nat)
    requires Lists(rows, m)
    ensures total == AsU64(Size(m))
  {
    total := 0;
    for i := 0 to |rows|
      invariant total == AsU64(Size(Listed(rows, i)))
    {
      ScanStep(rows, m, i);
      total := Scanned(total, rows[i]);
    }
    AllListed(rows, m);
  }
}
