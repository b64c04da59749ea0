/** The list of role keys somebody's access carries: each once, highest sort order first. */
module RoleOrder {
  import opened Common

  datatype RoleRow = RoleRow(key: string, sortOrder: int)

  /** One entry per key, in the order keys were first seen, as an insertion-ordered map keeps them. */
  type Entries = seq<RoleRow>

  /** The greatest sort order any row gives this key. */
  function Highest(rows: seq<RoleRow>, key: string): Option<int> {
    if rows == [] then None
    else
      var before, row := Highest(rows[..|rows| - 1], key), rows[|rows| - 1];
      if row.key != key then before
      else Some(if before.Some? && before.value > row.sortOrder then before.value else row.sortOrder)
  }

  function Put(entries: Entries, row: RoleRow): Entries {
    if entries == [] then [row]
    else if entries[0].key == row.key then
      [if entries[0].sortOrder > row.sortOrder then entries[0] else row] + entries[1..]
    else [entries[0]] + Put(entries[1..], row)
  }

  function Collected(rows: seq<RoleRow>): Entries {
    if rows == [] then [] else Put(Collected(rows[..|rows| - 1]), rows[|rows| - 1])
  }

  function Insert(entries: Entries, e: RoleRow): Entries {
    if entries == [] then [e]
    else if entries[0].sortOrder >= e.sortOrder then [entries[0]] + Insert(entries[1..], e)
    else [e] + entries
  }

  /** A stable sort, greatest first. */
  function Sorted(entries: Entries): Entries {
    if entries == [] then [] else Insert(Sorted(entries[..|entries| - 1]), entries[|entries| - 1])
  }

  function Keys(entries: Entries): seq<string> {
    seq(|entries|, i requires 0 <= i < |entries| => entries[i].key)
  }

  method OrderedKeys(rows: seq<RoleRow>) returns (keys: seq<string>)
    ensures IsOrdered(rows, keys)
  {
    var byKey: Entries := [];
    for i := 0 to |rows|
      invariant byKey == Collected(rows[..i])
    {
      assert rows[..i + 1][..i] == rows[..i];
      byKey := Put(byKey, rows[i]);
    }
    assert rows[..|rows|] == rows;
    CollectedIsHighest(rows);
    SortedKeeps(byKey);
    SortedSays(rows, byKey);
    keys := Keys(Sorted(byKey));
  }

  // ---------------------------------------------------------------- what the list is

  /** Exactly the keys of the rows, each once, and never a lower one before a higher one. */
  ghost predicate IsOrdered(rows: seq<RoleRow>, keys: seq<string>) {
    && (forall k :: k in keys <==> Highest(rows, k).Some?)
    && (forall i, j :: 0 <= i < j < |keys| ==> keys[i] != keys[j])
    && (forall i, j :: 0 <= i < j < |keys| && Highest(rows, keys[i]).Some? && Highest(rows, keys[j]).Some? ==>
          Highest(rows, keys[i]).value >= Highest(rows, keys[j]).value)
  }

  ghost predicate OncePerKey(entries: Entries) {
    forall i, j :: 0 <= i < j < |entries| ==> entries[i].key != entries[j].key
  }

  /** The entries say of each key what the rows say. */
  ghost predicate Says(entries: Entries, key: string, order: Option<int>) {
    if order.None? then forall i :: 0 <= i < |entries| ==> entries[i].key != key
    else RoleRow(key, order.value) in entries
  }

  lemma {:induction false} PutSays(entries: Entries, row: RoleRow, key: string, order: Option<int>)
    requires OncePerKey(entries) && Says(entries, key, order)
    ensures Says(Put(entries, row), key,
      if row.key != key then order
      else Some(if order.Some? && order.value > row.sortOrder then order.value else row.sortOrder))
  {
    if entries != [] {
      var rest := entries[1..];
      if entries[0].key == row.key {
        forall i | 0 < i < |entries| ensures entries[i].key != row.key {}
      } else if entries[0].key != key {
        assert Says(rest, key, order) by { if order.Some? { assert entries[0] != RoleRow(key, order.value); } }
        PutSays(rest, row, key, order);
      } else {
        assert order == Some(entries[0].sortOrder);
      }
    }
  }

  lemma {:induction false} PutKeeps(entries: Entries, row: RoleRow)
    requires OncePerKey(entries)
    ensures OncePerKey(Put(entries, row))
    ensures forall i :: 0 <= i < |Put(entries, row)| ==>
      || Put(entries, row)[i].key == row.key
      || exists j :: 0 <= j < |entries| && entries[j].key == Put(entries, row)[i].key
  {
    if entries != [] && entries[0].key != row.key {
      PutKeeps(entries[1..], row);
      var rest := Put(entries[1..], row);
      forall i | 0 <= i < |rest|
        ensures rest[i].key != entries[0].key
          && (rest[i].key == row.key || exists j :: 0 <= j < |entries| && entries[j].key == rest[i].key)
      {
        if rest[i].key != row.key {
          var j :| 0 <= j < |entries[1..]| && entries[1..][j].key == rest[i].key;
          assert entries[j + 1].key == rest[i].key;
        }
      }
    }
  }

  lemma {:induction false} CollectedIsHighest(rows: seq<RoleRow>)
    ensures OncePerKey(Collected(rows))
    ensures forall key :: Says(Collected(rows), key, Highest(rows, key))
  {
    if rows != [] {
      var front, row := rows[..|rows| - 1], rows[|rows| - 1];
      CollectedIsHighest(front);
      PutKeeps(Collected(front), row);
      forall key ensures Says(Collected(rows), key, Highest(rows, key)) {
        PutSays(Collected(front), row, key, Highest(front, key));
      }
    }
  }

  ghost predicate Descending(entries: Entries) {
    forall i, j :: 0 <= i < j < |entries| ==> entries[i].sortOrder >= entries[j].sortOrder
  }

  lemma {:induction false} InsertKeeps(entries: Entries, e: RoleRow)
    requires Descending(entries) && OncePerKey(entries) && forall x :: x in entries ==> x.key != e.key
    ensures var r := Insert(entries, e);
      Descending(r) && OncePerKey(r) && forall x :: x in r <==> x == e || x in entries
  {
    if entries != [] && entries[0].sortOrder >= e.sortOrder {
      var rest := entries[1..];
      assert forall x :: x in rest ==> x in entries;
      InsertKeeps(rest, e);
      var r := Insert(rest, e);
      forall i | 0 <= i < |r| ensures r[i].key != entries[0].key && entries[0].sortOrder >= r[i].sortOrder {
        assert r[i] in r;
        if r[i] != e {
          var j :| 0 <= j < |rest| && rest[j] == r[i];
          assert entries[j + 1] == r[i];
        } else {
          assert entries[0] in entries;
        }
      }
    }
  }

  lemma {:induction false} SortedKeeps(entries: Entries)
    requires OncePerKey(entries)
    ensures Descending(Sorted(entries)) && OncePerKey(Sorted(entries))
    ensures forall x :: x in Sorted(entries) <==> x in entries
  {
    if entries != [] {
      var front, last := entries[..|entries| - 1], entries[|entries| - 1];
      SortedKeeps(front);
      assert entries == front + [last];
      forall x | x in Sorted(front) ensures x.key != last.key {
        var i :| 0 <= i < |front| && front[i] == x;
        assert entries[i].key != entries[|entries| - 1].key;
      }
      InsertKeeps(Sorted(front), last);
    }
  }

  /** Sorting entries that say what the rows say gives an ordered list of their keys. */
  lemma SortedSays(rows: seq<RoleRow>, entries: Entries)
    requires OncePerKey(entries) && forall key :: Says(entries, key, Highest(rows, key))
    requires var s := Sorted(entries); Descending(s) && OncePerKey(s) && forall x :: x in s <==> x in entries
    ensures IsOrdered(rows, Keys(Sorted(entries)))
  {
    var s := Sorted(entries);
    forall i | 0 <= i < |s| ensures Highest(rows, s[i].key) == Some(s[i].sortOrder) {
      assert s[i] in s && s[i] in entries;
      EntryIsHighest(entries, s[i], Highest(rows, s[i].key));
    }
    forall k ensures k in Keys(s) <==> Highest(rows, k).Some? {
      if k in Keys(s) {
        var i :| 0 <= i < |s| && Keys(s)[i] == k;
      }
      if Highest(rows, k).Some? {
        assert Says(entries, k, Highest(rows, k));
        var i :| 0 <= i < |s| && s[i] == RoleRow(k, Highest(rows, k).value);
        assert Keys(s)[i] == k;
      }
    }
  }

  lemma EntryIsHighest(entries: Entries, e: RoleRow, order: Option<int>)
    requires OncePerKey(entries) && e in entries && Says(entries, e.key, order)
    ensures order == Some(e.sortOrder)
  {
    var i :| 0 <= i < |entries| && entries[i] == e;
    assert entries[i].key == e.key;
    if order.Some? {
      var j :| 0 <= j < |entries| && entries[j] == RoleRow(e.key, order.value);
    }
  }

  // ---------------------------------------------------------------- it depends on nothing else

  /** Rows of an app whose sort orders are distinct, as its manifest numbers them. */
  ghost predicate DistinctOrders(rows: seq<RoleRow>) {
    forall a, b :: a != b && Highest(rows, a).Some? && Highest(rows, b).Some? ==>
        Highest(rows, a).value != Highest(rows, b).value
  }

  /** With equal lists so far, the next key of one is no lower than the next key of the other. */
  lemma NextIsNoLower(rows: seq<RoleRow>, keys: seq<string>, other: seq<string>, i: nat)
    requires IsOrdered(rows, keys) && IsOrdered(rows, other)
    requires i < |keys| && i < |other| && keys[..i] == other[..i]
    ensures Highest(rows, keys[i]).Some? && Highest(rows, other[i]).Some?
    ensures Highest(rows, keys[i]).value >= Highest(rows, other[i]).value
  {
    assert keys[i] in keys && other[i] in other;
    forall j | 0 <= j < i ensures keys[j] == other[j] { assert keys[..i][j] == other[..i][j]; }
    var b :| 0 <= b < |keys| && keys[b] == other[i];
    assert b >= i;
  }

  lemma {:induction false} SamePrefix(rows: seq<RoleRow>, keys: seq<string>, other: seq<string>, i: nat)
    requires DistinctOrders(rows) && IsOrdered(rows, keys) && IsOrdered(rows, other)
    requires i <= |keys| == |other|
    ensures keys[..i] == other[..i]
  {
    if i > 0 {
      SamePrefix(rows, keys, other, i - 1);
      NextIsNoLower(rows, keys, other, i - 1);
      NextIsNoLower(rows, other, keys, i - 1);
      assert keys[i - 1] == other[i - 1];
      assert keys[..i] == keys[..i - 1] + [keys[i - 1]] && other[..i] == other[..i - 1] + [other[i - 1]];
    }
  }

  /** Two queries that return the same rows in different orders give the same list. */
  lemma OrderIsDetermined(rows: seq<RoleRow>, more: seq<RoleRow>, keys: seq<string>, same: seq<string>)
    requires forall k :: Highest(rows, k) == Highest(more, k)
    requires DistinctOrders(rows) && IsOrdered(rows, keys) && IsOrdered(more, same)
    ensures keys == same
  {
    SameLength(keys, same);
    SamePrefix(rows, keys, same, |keys|);
    assert keys[..|keys|] == keys && same[..|keys|] == same;
  }

  lemma {:induction false} SameLength(a: seq<string>, b: seq<string>)
    requires forall k :: k in a <==> k in b
    requires forall i, j :: 0 <= i < j < |a| ==> a[i] != a[j]
    requires forall i, j :: 0 <= i < j < |b| ==> b[i] != b[j]
    ensures |a| == |b|
  {
    SetSize(a);
    SetSize(b);
    assert (set k | k in a) == (set k | k in b);
  }

  lemma {:induction false} SetSize(a: seq<string>)
    requires forall i, j :: 0 <= i < j < |a| ==> a[i] != a[j]
    ensures |set k | k in a| == |a|
  {
    if a != [] {
      var front, last := a[..|a| - 1], a[|a| - 1];
      SetSize(front);
      assert (set k | k in a) == (set k | k in front) + {last};
    }
  }
}
