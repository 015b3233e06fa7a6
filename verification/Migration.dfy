/** Migrating a namespace in place: every entry is deleted and its image under a function inserted, in
    whatever order the provider lists the entries. */
module Migration {
  import opened Machine
  import opened Storage

  type Transform = (Key, Bytes) -> (Key, Bytes)

  type Row = (Key, Option<Bytes>)

  function NewKey(f: Transform, m: Namespace, k: Key): Key
    requires k in m
  {
    f(k, m[k]).0
  }

  // ---------- The loop ----------

  /** One entry: delete the old pair, insert the new one; a listed key without a value is skipped. */
  function MigrateRow(m: Namespace, f: Transform, row: Row): Namespace {
    if row.1.None? then m
    else
      var (newKey, newValue) := f(row.0, row.1.value);
      (m - {row.0})[newKey := newValue]
  }

  function MigrateRows(m: Namespace, f: Transform, rows: seq<Row>): Namespace {
    if rows == [] then m else MigrateRow(MigrateRows(m, f, rows[..|rows| - 1]), f, rows[|rows| - 1])
  }

  class Provider {
    var db: Database

    /** A failing provider call ends the migration where it stands: `budget` calls still succeed. */
    method ApplyMigration(ns: string, rows: seq<Row>, f: Transform, budget: nat) returns (ok: bool, done: nat)
      modifies this
      ensures forall other :: other != ns ==> Entries(db, other) == old(Entries(db, other))
      ensures done <= |rows| && (ok ==> done == |rows|)
      ensures ok ==> Entries(db, ns) == MigrateRows(old(Entries(db, ns)), f, rows)
      ensures !ok ==> done < |rows| && rows[done].1.Some?
      ensures !ok ==>
        var before := MigrateRows(old(Entries(db, ns)), f, rows[..done]);
        Entries(db, ns) == if budget % 2 == 0 then before else before - {rows[done].0}
      ensures ok <==> 2 * |Present(rows)| <= budget
    {
      var calls := 0;
      for i := 0 to |rows|
        invariant Entries(db, ns) == MigrateRows(old(Entries(db, ns)), f, rows[..i])
        invariant forall other :: other != ns ==> Entries(db, other) == old(Entries(db, other))
        invariant calls == 2 * |Present(rows[..i])| && calls <= budget
      {
        assert rows[..i + 1][..i] == rows[..i];
        PresentGrows(rows, i + 1);
        var (key, value) := rows[i];
        if value.Some? {
          var (newKey, newValue) := f(key, value.value);
          if calls == budget {
            return false, i;
          }
          db := Remove(db, ns, key);
          if calls + 1 == budget {
            return false, i;
          }
          db := Put(db, ns, newKey, newValue);
          calls := calls + 2;
        }
      }
      assert rows[..|rows|] == rows;
      return true, |rows|;
    }
  }

  /** The rows that are migrated at all. */
  function Present(rows: seq<Row>): seq<Row> {
    if rows == [] then []
    else Present(rows[..|rows| - 1]) + (if rows[|rows| - 1].1.Some? then [rows[|rows| - 1]] else [])
  }

  lemma {:induction false} PresentGrows(rows: seq<Row>, n: nat)
    requires n <= |rows|
    ensures |Present(rows[..n])| <= |Present(rows)|
    ensures n > 0 ==> |Present(rows[..n])| == |Present(rows[..n - 1])| + (if rows[n - 1].1.Some? then 1 else 0)
    decreases |rows| - n
  {
    if n > 0 {
      assert rows[..n][..n - 1] == rows[..n - 1];
    }
    if n == |rows| {
      assert rows[..n] == rows;
    } else {
      PresentGrows(rows, n + 1);
    }
  }

  /** Whatever the rows say, only their keys and the new keys of those with a value are touched: a row
      without a value changes nothing. */
  lemma {:induction false} UntouchedStays(m: Namespace, f: Transform, rows: seq<Row>, x: Key)
    requires forall i :: 0 <= i < |rows| && rows[i].1.Some? ==>
      rows[i].0 != x && f(rows[i].0, rows[i].1.value).0 != x
    ensures Lookup(MigrateRows(m, f, rows), x) == Lookup(m, x)
    decreases |rows|
  {
    if rows != [] {
      UntouchedStays(m, f, rows[..|rows| - 1], x);
    }
  }

  // ---------- What it should amount to ----------

  /** The migrated namespace holds the image of every old entry and nothing else. */
  ghost predicate IsImage(m: Namespace, f: Transform, m': Namespace) {
    && (forall k :: k in m ==> NewKey(f, m, k) in m' && m'[NewKey(f, m, k)] == f(k, m[k]).1)
    && (forall x :: x in m' ==> exists k :: k in m && NewKey(f, m, k) == x)
  }

  ghost predicate Injective(m: Namespace, f: Transform) {
    forall j, k :: j in m && k in m && j != k ==> NewKey(f, m, j) != NewKey(f, m, k)
  }

  /** No new key is another entry's old key. */
  ghost predicate NoClobber(m: Namespace, f: Transform) {
    forall k :: k in m ==> NewKey(f, m, k) == k || NewKey(f, m, k) !in m
  }

  ghost predicate ListsAll(rows: seq<Row>, m: Namespace) {
    Lists(rows, m) && forall i :: 0 <= i < |rows| ==> rows[i].1.Some?
  }

  ghost predicate ImageHeld(m: Namespace, f: Transform, m': Namespace, k: Key) {
    k in m && NewKey(f, m, k) in m' && m'[NewKey(f, m, k)] == f(k, m[k]).1
  }

  ghost predicate OldHeld(m: Namespace, m': Namespace, k: Key) {
    k in m && k in m' && m'[k] == m[k]
  }

  ghost predicate Accounted(m: Namespace, f: Transform, rows: seq<Row>, n: nat, x: Key)
    requires n <= |rows|
  {
    || (exists i :: 0 <= i < n && rows[i].0 in m && NewKey(f, m, rows[i].0) == x)
    || (exists i :: n <= i < |rows| && rows[i].0 == x)
  }

  /** Midway the namespace holds the images of the rows done and the old entries of the others. */
  ghost predicate Midway(m: Namespace, f: Transform, rows: seq<Row>, n: nat, m': Namespace)
    requires n <= |rows|
  {
    && (forall i :: 0 <= i < n ==> ImageHeld(m, f, m', rows[i].0))
    && (forall i :: n <= i < |rows| ==> OldHeld(m, m', rows[i].0))
    && (forall x :: x in m' ==> Accounted(m, f, rows, n, x))
  }

  lemma OneRowMore(m: Namespace, f: Transform, rows: seq<Row>, n: nat)
    requires n < |rows|
    ensures MigrateRows(m, f, rows[..n + 1]) == MigrateRow(MigrateRows(m, f, rows[..n]), f, rows[n])
  {
    assert rows[..n + 1][..n] == rows[..n];
  }

  /** What one row changes. */
  lemma RowEffect(m: Namespace, f: Transform, current: Namespace, key: Key, x: Key)
    requires key in m
    ensures var next := MigrateRow(current, f, (key, Some(m[key])));
      && (x in next <==> x == NewKey(f, m, key) || (x in current && x != key))
      && (x in next ==> next[x] == if x == NewKey(f, m, key) then f(key, m[key]).1 else current[x])
  {
  }

  lemma RowIs(rows: seq<Row>, m: Namespace, i: nat)
    requires ListsAll(rows, m) && i < |rows|
    ensures rows[i].0 in m && rows[i] == (rows[i].0, Some(m[rows[i].0]))
    ensures forall j :: 0 <= j < |rows| && j != i ==> rows[j].0 != rows[i].0
  {
  }

  /** Old entries stay until their row's turn. */
  lemma {:induction false} OldStays(m: Namespace, f: Transform, rows: seq<Row>, n: nat, i: nat)
    requires ListsAll(rows, m) && NoClobber(m, f) && n <= i < |rows|
    ensures OldHeld(m, MigrateRows(m, f, rows[..n]), rows[i].0)
  {
    RowIs(rows, m, i);
    if n > 0 {
      OldStays(m, f, rows, n - 1, i);
      OneRowMore(m, f, rows, n - 1);
      RowIs(rows, m, n - 1);
      assert NewKey(f, m, rows[n - 1].0) != rows[i].0;
      RowEffect(m, f, MigrateRows(m, f, rows[..n - 1]), rows[n - 1].0, rows[i].0);
    }
  }

  /** New entries stay from then on. */
  lemma {:induction false} ImageStays(m: Namespace, f: Transform, rows: seq<Row>, n: nat, i: nat)
    requires ListsAll(rows, m) && Injective(m, f) && NoClobber(m, f) && i < n <= |rows|
    ensures ImageHeld(m, f, MigrateRows(m, f, rows[..n]), rows[i].0)
  {
    OneRowMore(m, f, rows, n - 1);
    RowIs(rows, m, n - 1);
    RowIs(rows, m, i);
    var key, newKey := rows[n - 1].0, NewKey(f, m, rows[i].0);
    RowEffect(m, f, MigrateRows(m, f, rows[..n - 1]), key, newKey);
    if i < n - 1 {
      ImageStays(m, f, rows, n - 1, i);
      assert newKey != NewKey(f, m, key) && newKey != key;
    }
  }

  lemma NothingElseStep(m: Namespace, f: Transform, rows: seq<Row>, n: nat, current: Namespace, x: Key)
    requires n < |rows| && rows[n].0 in m && rows[n] == (rows[n].0, Some(m[rows[n].0]))
    requires x in MigrateRow(current, f, rows[n])
    requires x in current ==> Accounted(m, f, rows, n, x)
    ensures Accounted(m, f, rows, n + 1, x)
  {
    RowEffect(m, f, current, rows[n].0, x);
    if x != NewKey(f, m, rows[n].0) {
      if i :| 0 <= i < n && rows[i].0 in m && NewKey(f, m, rows[i].0) == x {
      } else {
        var i :| n <= i < |rows| && rows[i].0 == x;
      }
    }
  }

  /** Nothing else ever appears. */
  lemma {:induction false} NothingElse(m: Namespace, f: Transform, rows: seq<Row>, n: nat, x: Key)
    requires ListsAll(rows, m) && n <= |rows| && x in MigrateRows(m, f, rows[..n])
    ensures Accounted(m, f, rows, n, x)
  {
    if n == 0 {
      var i :| 0 <= i < |rows| && rows[i].0 == x;
    } else {
      OneRowMore(m, f, rows, n - 1);
      RowIs(rows, m, n - 1);
      if x in MigrateRows(m, f, rows[..n - 1]) {
        NothingElse(m, f, rows, n - 1, x);
      }
      NothingElseStep(m, f, rows, n - 1, MigrateRows(m, f, rows[..n - 1]), x);
    }
  }

  lemma MidwayHolds(m: Namespace, f: Transform, rows: seq<Row>, n: nat)
    requires ListsAll(rows, m) && Injective(m, f) && NoClobber(m, f) && n <= |rows|
    ensures Midway(m, f, rows, n, MigrateRows(m, f, rows[..n]))
  {
    var m' := MigrateRows(m, f, rows[..n]);
    forall i | 0 <= i < n ensures ImageHeld(m, f, m', rows[i].0) {
      ImageStays(m, f, rows, n, i);
    }
    forall i | n <= i < |rows| ensures OldHeld(m, m', rows[i].0) {
      OldStays(m, f, rows, n, i);
    }
    forall x | x in m' ensures Accounted(m, f, rows, n, x) {
      NothingElse(m, f, rows, n, x);
    }
  }

  /** Under the two conditions the order does not matter: the result is the image. */
  lemma MigrationIsImage(m: Namespace, f: Transform, rows: seq<Row>)
    requires ListsAll(rows, m) && Injective(m, f) && NoClobber(m, f)
    ensures IsImage(m, f, MigrateRows(m, f, rows))
  {
    MidwayHolds(m, f, rows, |rows|);
    assert rows[..|rows|] == rows;
    forall k | k in m
      ensures NewKey(f, m, k) in MigrateRows(m, f, rows) && MigrateRows(m, f, rows)[NewKey(f, m, k)] == f(k, m[k]).1
    {
      var i :| 0 <= i < |rows| && rows[i].0 == k;
    }
  }

  /** When the insert of row `n` fails, exactly that entry is lost: it is neither under its old key nor
      under its new one, and everything else is where it was. */
  lemma FailedInsertLosesOneEntry(m: Namespace, f: Transform, rows: seq<Row>, n: nat)
    requires ListsAll(rows, m) && Injective(m, f) && NoClobber(m, f) && n < |rows|
    ensures var key := rows[n].0;
      var before := MigrateRows(m, f, rows[..n]);
      var after := before - {key};
      && NewKey(f, m, key) !in after && key !in after
      && (forall x :: x in before && x != key ==> x in after && after[x] == before[x])
      && Midway(m, f, rows, n, before)
  {
    MidwayHolds(m, f, rows, n);
  }

  // ---------- The condition is necessary ----------

  lemma ListsOneMore(m: Namespace, k: Key, rest: seq<Row>)
    requires k in m && ListsAll(rest, m - {k})
    ensures ListsAll([(k, Some(m[k]))] + rest, m)
  {
    var rows := [(k, Some(m[k]))] + rest;
    forall x | x in m ensures exists i :: 0 <= i < |rows| && rows[i].0 == x {
      if x == k {
        assert rows[0].0 == x;
      } else {
        assert x in m - {k};
        var i :| 0 <= i < |rest| && rest[i].0 == x;
        assert rows[i + 1].0 == x;
      }
    }
  }

  /** Some listing of any namespace exists. */
  lemma {:induction false} SomeListing(m: Namespace) returns (rows: seq<Row>)
    ensures ListsAll(rows, m)
    decreases |m|
  {
    if m == map[] {
      rows := [];
    } else {
      var k :| k in m;
      var rest := SomeListing(m - {k});
      ListsOneMore(m, k, rest);
      rows := [(k, Some(m[k]))] + rest;
    }
  }

  /** A key that no later row produces stays away. */
  lemma {:induction false} StaysAbsent(m: Namespace, f: Transform, front: seq<Row>, rest: seq<Row>, x: Key)
    requires x !in MigrateRows(m, f, front)
    requires forall i :: 0 <= i < |rest| && rest[i].1.Some? ==> f(rest[i].0, rest[i].1.value).0 != x
    ensures x !in MigrateRows(m, f, front + rest)
    decreases |rest|
  {
    if rest == [] {
      assert front + rest == front;
    } else {
      var n := |rest| - 1;
      StaysAbsent(m, f, front, rest[..n], x);
      assert (front + rest)[..|front| + n] == front + rest[..n];
      OneRowMore(m, f, front + rest, |front| + n);
      assert (front + rest)[..|front| + n + 1] == front + rest;
    }
  }

  /** Moving `k` onto `j` and then migrating `j` leaves nothing under `j`. */
  lemma ClobberedAtOnce(m: Namespace, f: Transform, k: Key, j: Key)
    requires Injective(m, f) && k in m && j in m && NewKey(f, m, k) == j && j != k
    ensures j !in MigrateRows(m, f, [(k, Some(m[k])), (j, Some(m[j]))])
  {
    var rows: seq<Row> := [(k, Some(m[k])), (j, Some(m[j]))];
    assert NewKey(f, m, j) != j;
    assert rows[..1] == [rows[0]] && rows[..1][..0] == [];
    assert j !in MigrateRow(MigrateRow(m, f, rows[0]), f, rows[1]);
  }

  lemma LaterRowsAvoid(m: Namespace, f: Transform, k: Key, rest: seq<Row>)
    requires Injective(m, f) && k in m && ListsAll(rest, m - {k} - {NewKey(f, m, k)})
    ensures forall i :: 0 <= i < |rest| ==> rest[i].1.Some? && f(rest[i].0, rest[i].1.value).0 != NewKey(f, m, k)
  {
    forall i | 0 <= i < |rest| ensures rest[i].1.Some? && f(rest[i].0, rest[i].1.value).0 != NewKey(f, m, k) {
      var key := rest[i].0;
      assert key in m - {k} - {NewKey(f, m, k)};
      assert rest[i].1 == Some(m[key]) && NewKey(f, m, key) != NewKey(f, m, k);
    }
  }

  function TwoRows(m: Namespace, k: Key, j: Key): seq<Row>
    requires k in m && j in m
  {
    [(k, Some(m[k])), (j, Some(m[j]))]
  }

  /** A listing that begins with an entry and the one whose old key it moves onto. */
  lemma ListingFrom(m: Namespace, f: Transform, k: Key, j: Key) returns (rest: seq<Row>)
    requires Injective(m, f) && k in m && j in m && k != j && NewKey(f, m, k) == j
    ensures ListsAll(TwoRows(m, k, j) + rest, m)
    ensures forall i :: 0 <= i < |rest| ==> rest[i].1.Some? && f(rest[i].0, rest[i].1.value).0 != j
  {
    rest := SomeListing(m - {k} - {j});
    ListsOneMore(m - {k}, j, rest);
    ListsOneMore(m, k, [(j, Some(m[j]))] + rest);
    assert TwoRows(m, k, j) + rest == [(k, Some(m[k]))] + ([(j, Some(m[j]))] + rest);
    LaterRowsAvoid(m, f, k, rest);
  }

  lemma ClobberedForGood(m: Namespace, f: Transform, k: Key, j: Key, rest: seq<Row>)
    requires Injective(m, f) && k in m && j in m && k != j && NewKey(f, m, k) == j
    requires forall i :: 0 <= i < |rest| ==> rest[i].1.Some? && f(rest[i].0, rest[i].1.value).0 != j
    ensures j !in MigrateRows(m, f, TwoRows(m, k, j) + rest)
  {
    ClobberedAtOnce(m, f, k, j);
    StaysAbsent(m, f, TwoRows(m, k, j), rest, j);
  }

  /** When an entry moves onto another's old key, some order deletes it again. */
  lemma ClobberedInSomeOrder(m: Namespace, f: Transform, k: Key) returns (rows: seq<Row>)
    requires Injective(m, f) && k in m && NewKey(f, m, k) != k && NewKey(f, m, k) in m
    ensures ListsAll(rows, m) && NewKey(f, m, k) !in MigrateRows(m, f, rows)
  {
    var rest := ListingFrom(m, f, k, NewKey(f, m, k));
    ClobberedForGood(m, f, k, NewKey(f, m, k), rest);
    rows := TwoRows(m, k, NewKey(f, m, k)) + rest;
  }

  lemma NoImageWithout(m: Namespace, f: Transform, k: Key, m': Namespace)
    requires k in m && NewKey(f, m, k) !in m'
    ensures !IsImage(m, f, m')
  {
  }

  /** For a migration with distinct new keys: it yields the image in every order if and only if no new
      key is another entry's old key. */
  lemma OrderIrrelevantIffNoClobber(m: Namespace, f: Transform)
    requires Injective(m, f)
    ensures (forall rows :: ListsAll(rows, m) ==> IsImage(m, f, MigrateRows(m, f, rows))) <==> NoClobber(m, f)
  {
    if NoClobber(m, f) {
      forall rows | ListsAll(rows, m) ensures IsImage(m, f, MigrateRows(m, f, rows)) {
        MigrationIsImage(m, f, rows);
      }
    } else {
      var k :| k in m && NewKey(f, m, k) != k && NewKey(f, m, k) in m;
      var rows := ClobberedInSomeOrder(m, f, k);
      NoImageWithout(m, f, k, MigrateRows(m, f, rows));
    }
  }
}
