/** Newest-first ordering, as produced by `ORDER BY created_at DESC`. The order among rows
    with equal keys is left to the database and is not fixed here. */
module Ordering {

  predicate NewestFirst<T>(key: T -> int, s: seq<T>)
  {
    forall i, j :: 0 <= i < j < |s| ==> key(s[i]) >= key(s[j])
  }

  /** Inserts `x` in front of the first element that is not newer than it. */
  function InsertNewestFirst<T>(key: T -> int, x: T, s: seq<T>): (r: seq<T>)
    ensures multiset(r) == multiset(s) + multiset{x}
    ensures |r| == |s| + 1
  {
    if s == [] || key(x) >= key(s[0]) then [x] + s
    else
      assert s == [s[0]] + s[1..];
      [s[0]] + InsertNewestFirst(key, x, s[1..])
  }

  lemma {:induction false} InsertKeepsOrder<T>(key: T -> int, x: T, s: seq<T>)
    requires NewestFirst(key, s)
    ensures NewestFirst(key, InsertNewestFirst(key, x, s))
  {
    if s != [] && key(x) < key(s[0]) {
      var rest := InsertNewestFirst(key, x, s[1..]);
      InsertKeepsOrder(key, x, s[1..]);
      assert multiset(rest) == multiset(s[1..]) + multiset{x};
      forall j | 0 <= j < |rest| ensures key(s[0]) >= key(rest[j]) {
        assert rest[j] in multiset(rest);
        if rest[j] == x {
        } else {
          assert rest[j] in multiset(s[1..]);
          var k :| 0 <= k < |s[1..]| && s[1..][k] == rest[j];
          assert s[k + 1] == rest[j];
        }
      }
      var r := [s[0]] + rest;
      forall i, j | 0 <= i < j < |r| ensures key(r[i]) >= key(r[j]) {
        if i > 0 {
          assert r[i] == rest[i - 1] && r[j] == rest[j - 1];
        } else {
          assert r[j] == rest[j - 1];
        }
      }
    }
  }

  /** An element strictly newer than every other one comes first. */
  lemma NewestComesFirst<T>(key: T -> int, s: seq<T>, x: T)
    requires NewestFirst(key, s)
    requires x in s
    requires forall k :: 0 <= k < |s| && s[k] != x ==> key(s[k]) < key(x)
    ensures s[0] == x
  {
    var j :| 0 <= j < |s| && s[j] == x;
    assert key(s[0]) >= key(x) by {
      if j > 0 {
        assert key(s[0]) >= key(s[j]);
      }
    }
  }

  // ---------------------------------------------------------------------------
  // Queries over a table keyed by autoincrement ids

  /** The ids of the rows of `table` that `keep` selects (a `WHERE` clause). */
  function Selected<V>(table: map<int, V>, keep: V -> bool): (r: set<int>)
    ensures r <= table.Keys
  {
    set id | id in table && keep(table[id])
  }

  /** The selected ids below `bound`: what a scan in id order has seen so far. */
  function SelectedBelow<V>(table: map<int, V>, keep: V -> bool, bound: int): (r: set<int>)
    ensures r <= Selected(table, keep)
  {
    set id | id in table && keep(table[id]) && id < bound
  }

  lemma SelectedBelowStep<V>(table: map<int, V>, keep: V -> bool, bound: int)
    ensures bound !in SelectedBelow(table, keep, bound)
    ensures SelectedBelow(table, keep, bound + 1) ==
              SelectedBelow(table, keep, bound) + (if bound in table && keep(table[bound]) then {bound} else {})
  {
  }

  /** The same step, counted with multiplicity. */
  lemma SelectedBelowStepMultiset<V>(table: map<int, V>, keep: V -> bool, bound: int)
    ensures multiset(SelectedBelow(table, keep, bound + 1)) ==
              multiset(SelectedBelow(table, keep, bound))
              + (if bound in table && keep(table[bound]) then multiset{bound} else multiset{})
  {
    SelectedBelowStep(table, keep, bound);
    var below := SelectedBelow(table, keep, bound);
    if bound in table && keep(table[bound]) {
      assert multiset(below + {bound}) == multiset(below) + multiset{bound};
    }
  }

  lemma SelectedBelowAll<V>(table: map<int, V>, keep: V -> bool, bound: int)
    requires forall id :: id in table ==> id < bound
    ensures SelectedBelow(table, keep, bound) == Selected(table, keep)
  {
  }

  /** A sort key read through the row id. */
  function KeyOf<V>(table: map<int, V>, key: V -> int): int -> int
  {
    id => if id in table then key(table[id]) else 0
  }

  /** A listing of the selected rows (every one exactly once) holds only selected ids. */
  lemma SelectedOrderMembers<V>(table: map<int, V>, keep: V -> bool, order: seq<int>)
    requires multiset(order) == multiset(Selected(table, keep))
    ensures |order| == |Selected(table, keep)|
    ensures forall k :: 0 <= k < |order| ==> order[k] in table && keep(table[order[k]])
    ensures forall id :: id in Selected(table, keep) ==> id in order
  {
    assert |order| == |multiset(order)|;
    forall k | 0 <= k < |order| ensures order[k] in table && keep(table[order[k]]) {
      assert order[k] in multiset(order);
    }
    forall id | id in Selected(table, keep) ensures id in order {
      assert id in multiset(order);
    }
  }

  /** `SELECT ... WHERE keep ORDER BY key DESC` over a table whose ids lie in
      `[1, bound)`: a scan in id order that inserts every selected id into place. */
  method SelectNewestFirst<V>(table: map<int, V>, keep: V -> bool, key: V -> int, bound: int)
    returns (sorted: seq<int>)
    requires forall id :: id in table ==> 1 <= id < bound
    ensures multiset(sorted) == multiset(Selected(table, keep))
    ensures NewestFirst(KeyOf(table, key), sorted)
  {
    var k := KeyOf(table, key);
    sorted := [];
    var id := 1;
    while id < bound
      invariant bound < 1 || 1 <= id <= bound
      invariant multiset(sorted) == multiset(SelectedBelow(table, keep, id))
      invariant NewestFirst(k, sorted)
    {
      SelectedBelowStepMultiset(table, keep, id);
      if id in table && keep(table[id]) {
        InsertKeepsOrder(k, id, sorted);
        sorted := InsertNewestFirst(k, id, sorted);
      }
      id := id + 1;
    }
    SelectedBelowAll(table, keep, if bound < 1 then 1 else bound);
  }

  /** The table without the selected rows. */
  function Unselected<V>(table: map<int, V>, keep: V -> bool): (r: map<int, V>)
    ensures r.Keys == table.Keys - Selected(table, keep)
    ensures forall id :: id in r ==> r[id] == table[id]
  {
    map id | id in table && !keep(table[id]) :: table[id]
  }

  /** The table once the selected rows below `bound` are deleted. */
  function KeptBelow<V>(table: map<int, V>, keep: V -> bool, bound: int): map<int, V>
  {
    map k | k in table && k !in SelectedBelow(table, keep, bound) :: table[k]
  }

  /** Scanning one id further deletes that row exactly when it is selected. */
  lemma KeptBelowStep<V>(table: map<int, V>, keep: V -> bool, bound: int)
    ensures var sel := bound in table && keep(table[bound]);
            KeptBelow(table, keep, bound + 1) ==
              if sel then KeptBelow(table, keep, bound) - {bound} else KeptBelow(table, keep, bound)
  {
    SelectedBelowStep(table, keep, bound);
  }

  /** Before the scan nothing is deleted; after it, exactly the selected rows are. */
  lemma KeptBelowEnds<V>(table: map<int, V>, keep: V -> bool, bound: int)
    requires forall id :: id in table ==> 1 <= id < bound
    ensures KeptBelow(table, keep, 1) == table
    ensures KeptBelow(table, keep, bound) == Unselected(table, keep)
  {
    SelectedBelowAll(table, keep, bound);
  }

  /** The id SQLite gives the next row of a table whose `INTEGER PRIMARY KEY` is declared
      without AUTOINCREMENT: one more than the largest id in the table, or 1 when the table is
      empty. */
  predicate IsNextRowId<V>(table: map<int, V>, next: int)
  {
    && next >= 1
    && (forall id :: id in table ==> 1 <= id < next)
    && (next == 1 || next - 1 in table)
  }

  /** The next row id, found by scanning down from a bound above every id. */
  function NextRowId<V>(table: map<int, V>, bound: int): (next: int)
    requires forall id :: id in table ==> 1 <= id < bound
    ensures IsNextRowId(table, next)
    ensures next <= if bound < 1 then 1 else bound
    decreases bound
  {
    if bound <= 1 then 1
    else if bound - 1 in table then bound
    else NextRowId(table, bound - 1)
  }

  /** A table has one next row id. */
  lemma NextRowIdUnique<V>(table: map<int, V>, a: int, b: int)
    requires IsNextRowId(table, a) && IsNextRowId(table, b)
    ensures a == b
  {
  }

  /** Ids are reused: once the row with the largest id is deleted, the next row is given an id
      no larger than the deleted one, so a row inserted later can take that id again. */
  lemma NewestIdReused<V>(table: map<int, V>, next: int)
    requires IsNextRowId(table, next) && next > 1
    ensures NextRowId(table - {next - 1}, next) <= next - 1
  {
    var n := NextRowId(table - {next - 1}, next);
    assert n == 1 || n - 1 in table - {next - 1};
  }

  /** Deleting the selected rows one by one in id order, counting them. */
  method DeleteSelected<V>(table: map<int, V>, keep: V -> bool, bound: int)
    returns (kept: map<int, V>, removed: nat)
    requires forall id :: id in table ==> 1 <= id < bound
    ensures kept == Unselected(table, keep)
    ensures removed == |Selected(table, keep)|
  {
    kept := table;
    removed := 0;
    var id := 1;
    if bound >= 1 {
      KeptBelowEnds(table, keep, bound);
    }
    while id < bound
      invariant bound < 1 || 1 <= id <= bound
      invariant removed == |SelectedBelow(table, keep, id)|
      invariant kept == KeptBelow(table, keep, id)
    {
      SelectedBelowStep(table, keep, id);
      KeptBelowStep(table, keep, id);
      if id in kept && keep(kept[id]) {
        kept := kept - {id};
        removed := removed + 1;
      }
      id := id + 1;
    }
    SelectedBelowAll(table, keep, if bound < 1 then 1 else bound);
  }
}
