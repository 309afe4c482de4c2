/** Tables of entities by key: upserts that leave unchanged rows alone, and
    deletion of the rows that are not kept. */
module Tables {

  // A row and when it was inserted and last changed.
  datatype Stamped<+T> = Stamped(data: T, created: int, updated: int)

  type Table<!K, +T> = map<K, Stamped<T>>

  function Data<K, T>(t: Table<K, T>): map<K, T> {
    map k | k in t :: t[k].data
  }

  /** INSERT ... ON CONFLICT DO UPDATE, where only a different row is updated. */
  function Upsert<K, T(==)>(t: Table<K, T>, k: K, d: T, now: int): Table<K, T> {
    if k !in t then t[k := Stamped(d, now, now)]
    else if t[k].data != d then t[k := Stamped(d, t[k].created, now)]
    else t
  }

  function UpsertAll<K, T(==)>(t: Table<K, T>, rows: seq<(K, T)>, now: int): Table<K, T> {
    if rows == [] then t
    else
      var (k, d) := rows[|rows| - 1];
      Upsert(UpsertAll(t, rows[..|rows| - 1], now), k, d, now)
  }

  function Keep<K, T>(t: Table<K, T>, keys: set<K>): Table<K, T> {
    map k | k in t && k in keys :: t[k]
  }

  function KeysOf<K, T(==)>(rows: seq<(K, T)>): set<K> {
    set row <- rows :: row.0
  }

  ghost predicate UniqueKeys<K(!new), T(!new)>(rows: seq<(K, T)>) {
    forall i, j | 0 <= i < j < |rows| :: rows[i].0 != rows[j].0
  }

  /** The table holds exactly these rows. */
  ghost predicate Holds<K(!new), T(!new)>(t: map<K, T>, rows: seq<(K, T)>) {
    t.Keys == KeysOf(rows) && forall row <- rows :: row.0 in t && t[row.0] == row.1
  }

  /** Rows with different keys are as many as their keys. */
  lemma {:induction false} KeyCount<K(!new), T(!new)>(rows: seq<(K, T)>)
    requires UniqueKeys(rows)
    ensures |KeysOf(rows)| == |rows|
  {
    if rows != [] {
      OneMoreKey(rows);
      KeyCount(rows[..|rows| - 1]);
    }
  }

  lemma OneMoreKey<K(!new), T(!new)>(rows: seq<(K, T)>)
    requires UniqueKeys(rows) && rows != []
    ensures var rest := rows[..|rows| - 1];
      UniqueKeys(rest) && |KeysOf(rows)| == |KeysOf(rest)| + 1
  {
    var rest, last := rows[..|rows| - 1], rows[|rows| - 1];
    assert rows == rest + [last];
    assert KeysOf(rows) == KeysOf(rest) + {last.0};
    forall row <- rest ensures row.0 != last.0 {
      var i :| 0 <= i < |rest| && rest[i] == row;
      assert rows[i].0 != rows[|rows| - 1].0;
    }
  }

  /** What replacing a table's rows does to the stamps: a row that was there
      keeps its insertion time, and its update time unless it changed. */
  ghost predicate Stamps<K(!new), T(!new)>(t: Table<K, T>, t': Table<K, T>, now: int) {
    forall k <- t' ::
      if k !in t then t'[k].created == now && t'[k].updated == now
      else t'[k].created == t[k].created && t'[k].updated == if t'[k].data == t[k].data then t[k].updated else now
  }

  lemma UpsertAllNext<K, T>(t: Table<K, T>, rows: seq<(K, T)>, i: nat, now: int)
    requires i < |rows|
    ensures UpsertAll(t, rows[..i + 1], now) == Upsert(UpsertAll(t, rows[..i], now), rows[i].0, rows[i].1, now)
  {
    assert rows[..i + 1][..i] == rows[..i];
  }

  /** The rows are in the table. */
  ghost predicate Added<K(!new), T(!new)>(t: Table<K, T>, t': Table<K, T>, rows: seq<(K, T)>) {
    t'.Keys == t.Keys + KeysOf(rows) && forall row <- rows :: row.0 in t' && t'[row.0].data == row.1
  }

  ghost predicate OthersLeft<K(!new), T(!new)>(t: Table<K, T>, t': Table<K, T>, keys: set<K>) {
    forall k <- t | k !in keys :: k in t' && t'[k] == t[k]
  }

  lemma UpsertAdds<K(!new), T(!new)>(t: Table<K, T>, m: Table<K, T>, rest: seq<(K, T)>, row: (K, T), now: int)
    requires Added(t, m, rest) && row.0 !in KeysOf(rest)
    ensures Added(t, Upsert(m, row.0, row.1, now), rest + [row])
  {
    assert KeysOf(rest + [row]) == KeysOf(rest) + {row.0};
  }

  lemma UpsertStamps<K(!new), T(!new)>(t: Table<K, T>, m: Table<K, T>, keys: set<K>, row: (K, T), now: int)
    requires Stamps(t, m, now) && OthersLeft(t, m, keys) && row.0 !in keys && m.Keys == t.Keys + keys
    ensures Stamps(t, Upsert(m, row.0, row.1, now), now) && OthersLeft(t, Upsert(m, row.0, row.1, now), keys + {row.0})
  {
  }

  lemma NothingUpserted<K(!new), T(!new)>(t: Table<K, T>, rows: seq<(K, T)>, now: int)
    requires rows == []
    ensures Added(t, t, rows) && OthersLeft(t, t, KeysOf(rows)) && Stamps(t, t, now)
  {
    assert KeysOf(rows) == {};
  }

  lemma {:induction false} UpsertAllHolds<K(!new), T(!new)>(t: Table<K, T>, rows: seq<(K, T)>, now: int)
    requires UniqueKeys(rows)
    ensures var t' := UpsertAll(t, rows, now);
      Added(t, t', rows) && OthersLeft(t, t', KeysOf(rows)) && Stamps(t, t', now)
  {
    hide OthersLeft;
    hide Stamps;
    if rows == [] {
      NothingUpserted(t, rows, now);
    } else {
      var rest, row := rows[..|rows| - 1], rows[|rows| - 1];
      UpsertAllHolds(t, rest, now);
      LastKeyIsNew(rest, row);
      UpsertAdds(t, UpsertAll(t, rest, now), rest, row, now);
      UpsertStamps(t, UpsertAll(t, rest, now), KeysOf(rest), row, now);
      assert rows == rest + [row];
    }
  }

  lemma LastKeyIsNew<K(!new), T(!new)>(rest: seq<(K, T)>, row: (K, T))
    requires UniqueKeys(rest + [row])
    ensures UniqueKeys(rest) && row.0 !in KeysOf(rest) && KeysOf(rest + [row]) == KeysOf(rest) + {row.0}
  {
    forall r <- rest ensures r.0 != row.0 {
      var i :| 0 <= i < |rest| && rest[i] == r;
      assert (rest + [row])[i].0 != (rest + [row])[|rest|].0;
    }
    forall i, j | 0 <= i < j < |rest| ensures rest[i].0 != rest[j].0 {
      assert (rest + [row])[i].0 != (rest + [row])[j].0;
    }
  }

  /** Upserting the rows and deleting the others replaces the table's contents. */
  lemma ReplaceHolds<K(!new), T(!new)>(t: Table<K, T>, rows: seq<(K, T)>, now: int)
    requires UniqueKeys(rows)
    ensures var t' := Keep(UpsertAll(t, rows, now), KeysOf(rows)); Holds(Data(t'), rows) && Stamps(t, t', now)
  {
    UpsertAllHolds(t, rows, now);
  }
}
