/** A database table written by "find the row with this key, then update it or insert it". */
module KeyedTable {
  import opened Outcomes

  datatype Row<K, V> = Row(key: K, value: V)

  /** The first row with a key, or the number of rows. */
  function Find<K(==), V>(rows: seq<Row<K, V>>, key: K): (i: nat)
    ensures i <= |rows| && (i < |rows| ==> rows[i].key == key)
    ensures forall j | 0 <= j < i :: rows[j].key != key
  {
    if rows == [] || rows[0].key == key then 0
    else
      var i := 1 + Find(rows[1..], key);
      assert forall j | 1 <= j < i :: rows[j] == rows[1..][j - 1];
      i
  }

  function Lookup<K(==), V>(rows: seq<Row<K, V>>, key: K): Option<V> {
    if Find(rows, key) < |rows| then Some(rows[Find(rows, key)].value) else None
  }

  function Put<K(==), V>(rows: seq<Row<K, V>>, r: Row<K, V>): seq<Row<K, V>> {
    if Find(rows, r.key) < |rows| then rows[Find(rows, r.key) := r] else rows + [r]
  }

  function PutEach<K(==), V>(rows: seq<Row<K, V>>, entries: seq<Row<K, V>>): seq<Row<K, V>> {
    if entries == [] then rows else Put(PutEach(rows, entries[..|entries| - 1]), entries[|entries| - 1])
  }

  /** The value of the last entry with a key. */
  function LastFor<K(==), V>(entries: seq<Row<K, V>>, key: K): Option<V> {
    if entries == [] then None
    else if entries[|entries| - 1].key == key then Some(entries[|entries| - 1].value)
    else LastFor(entries[..|entries| - 1], key)
  }

  ghost predicate KeysUnique<K, V>(rows: seq<Row<K, V>>) { forall i, j | 0 <= i < j < |rows| :: rows[i].key != rows[j].key }

  lemma FindIs<K, V>(rows: seq<Row<K, V>>, key: K, i: nat)
    requires i < |rows| && rows[i].key == key && forall j | 0 <= j < i :: rows[j].key != key
    ensures Find(rows, key) == i
  {
  }

  lemma PutLookup<K, V>(rows: seq<Row<K, V>>, r: Row<K, V>, key: K)
    ensures Lookup(Put(rows, r), key) == if r.key == key then Some(r.value) else Lookup(rows, key)
  {
    var after, i := Put(rows, r), Find(rows, key);
    if r.key == key {
      FindIs(after, key, i);
    } else if i < |rows| {
      FindIs(after, key, i);
    } else {
      assert forall j | 0 <= j < |after| :: after[j].key != key;
    }
  }

  lemma PutKeepsUnique<K, V>(rows: seq<Row<K, V>>, r: Row<K, V>)
    requires KeysUnique(rows)
    ensures KeysUnique(Put(rows, r))
    ensures |rows| <= |Put(rows, r)|
    ensures forall i | 0 <= i < |rows| :: Put(rows, r)[i] == if rows[i].key == r.key then r else rows[i]
  {
  }

  /** The result maps each key to the last entry for it, and every other key to what it was mapped to. */
  lemma {:induction false} PutEachLookup<K, V>(rows: seq<Row<K, V>>, entries: seq<Row<K, V>>, key: K)
    ensures Lookup(PutEach(rows, entries), key)
         == if LastFor(entries, key).Some? then LastFor(entries, key) else Lookup(rows, key)
  {
    hide Lookup, Put;
    if entries != [] {
      var before := entries[..|entries| - 1];
      PutLookup(PutEach(rows, before), entries[|entries| - 1], key);
      PutEachLookup(rows, before, key);
    }
  }

  /** No row moves or disappears, keys stay unique, and every new row is for an entry. */
  lemma {:induction false} PutEachRows<K, V>(rows: seq<Row<K, V>>, entries: seq<Row<K, V>>)
    requires KeysUnique(rows)
    ensures var after := PutEach(rows, entries);
            && KeysUnique(after) && |rows| <= |after|
            && (forall i | 0 <= i < |rows| :: after[i] ==
                  if LastFor(entries, rows[i].key).Some? then Row(rows[i].key, LastFor(entries, rows[i].key).value) else rows[i])
            && (forall i | |rows| <= i < |after| :: LastFor(entries, after[i].key) == Some(after[i].value))
  {
    hide KeysUnique, Put;
    if entries != [] {
      var before, last := entries[..|entries| - 1], entries[|entries| - 1];
      PutEachRows(rows, before);
      PutKeepsUnique(PutEach(rows, before), last);
      PutLength(PutEach(rows, before), last);
    }
  }

  lemma PutLength<K, V>(rows: seq<Row<K, V>>, r: Row<K, V>)
    ensures |Put(rows, r)| <= |rows| + 1 && (|Put(rows, r)| == |rows| + 1 ==> Put(rows, r)[|rows|] == r)
  {
  }

  /** Writing the same entries once more changes nothing. */
  lemma PutEachTwice<K, V>(rows: seq<Row<K, V>>, entries: seq<Row<K, V>>)
    requires KeysUnique(rows)
    ensures PutEach(PutEach(rows, entries), entries) == PutEach(rows, entries)
  {
    var once := PutEach(rows, entries);
    PutEachRows(rows, entries);
    PutEachRows(once, entries);
    forall e | e in entries ensures Lookup(once, e.key).Some? {
      LastForEntry(entries, e);
      PutEachLookup(rows, entries, e.key);
    }
    KnownKeysAddNothing(once, entries);
  }

  lemma {:induction false} KnownKeysAddNothing<K, V>(once: seq<Row<K, V>>, entries: seq<Row<K, V>>)
    requires forall e | e in entries :: Lookup(once, e.key).Some?
    ensures |PutEach(once, entries)| == |once|
  {
    hide Put;
    if entries != [] {
      var before, last := entries[..|entries| - 1], entries[|entries| - 1];
      KnownKeysAddNothing(once, before);
      assert last in entries;
      PutEachLookup(once, before, last.key);
      KnownKey(PutEach(once, before), last);
    }
  }

  lemma KnownKey<K, V>(rows: seq<Row<K, V>>, r: Row<K, V>)
    requires Lookup(rows, r.key).Some?
    ensures |Put(rows, r)| == |rows|
  {
  }

  lemma {:induction false} LastForEntry<K, V>(entries: seq<Row<K, V>>, e: Row<K, V>)
    requires e in entries
    ensures LastFor(entries, e.key).Some?
  {
    if entries[|entries| - 1].key != e.key { LastForEntry(entries[..|entries| - 1], e); }
  }

  lemma {:induction false} PutEachConcat<K, V>(rows: seq<Row<K, V>>, a: seq<Row<K, V>>, b: seq<Row<K, V>>)
    ensures PutEach(rows, a + b) == PutEach(PutEach(rows, a), b)
  {
    hide Put;
    if b == [] {
      assert a + b == a;
    } else {
      assert (a + b)[..|a + b| - 1] == a + b[..|b| - 1];
      PutEachConcat(rows, a, b[..|b| - 1]);
    }
  }

  /** Writing that stopped part-way and is done again from the start ends where writing once would have. */
  lemma PutEachResumes<K, V>(rows: seq<Row<K, V>>, entries: seq<Row<K, V>>, written: nat)
    requires KeysUnique(rows) && written <= |entries|
    ensures PutEach(PutEach(rows, entries[..written]), entries) == PutEach(rows, entries)
  {
    hide PutEach;
    var first, later := entries[..written], entries[written..];
    assert entries == first + later;
    PutEachTwice(rows, first);
    PutEachConcat(PutEach(rows, first), first, later);
    PutEachConcat(rows, first, later);
  }

  lemma {:induction false} LastForIsEntry<K, V>(entries: seq<Row<K, V>>, key: K)
    requires LastFor(entries, key).Some?
    ensures Row(key, LastFor(entries, key).value) in entries
  {
    if entries[|entries| - 1].key != key { LastForIsEntry(entries[..|entries| - 1], key); }
  }
}
