/**
  `groupby(col)[measure].sum()` and the operations the report applies to
  its result: `idxmax`, and `sort_values(ascending=False)`.

  A group table is a sequence of entries, one per distinct key. As pandas
  builds it (with the default `sort=True`) the keys are strictly ascending.
 */
module Groups {
  import opened Lex
  import opened Table
  import opened Wrappers

  /** One row of a grouped table: a key and its accumulated measure. */
  datatype Entry = Entry(key: string, total: int)

  predicate Ascending(g: seq<Entry>) {
    forall i, j :: 0 <= i < j < |g| ==> Less(g[i].key, g[j].key)
  }

  predicate DistinctKeys(g: seq<Entry>) {
    forall i, j :: 0 <= i < j < |g| ==> g[i].key != g[j].key
  }

  predicate NonIncreasing(g: seq<Entry>) {
    forall i, j :: 0 <= i < j < |g| ==> g[i].total >= g[j].total
  }

  function KeySet(g: seq<Entry>): set<string> {
    if g == [] then {} else {g[0].key} + KeySet(g[1..])
  }

  function SumTotals(g: seq<Entry>): int {
    if g == [] then 0 else g[0].total + SumTotals(g[1..])
  }

  /** The total stored under `k`, or 0 when `k` has no entry. */
  function Lookup(g: seq<Entry>, k: string): int {
    if g == [] then 0 else if g[0].key == k then g[0].total else Lookup(g[1..], k)
  }

  // ---------------------------------------------------------------------
  // Facts about group tables

  lemma {:induction false} KeySetMember(g: seq<Entry>, k: string)
    ensures k in KeySet(g) <==> exists i :: 0 <= i < |g| && g[i].key == k
  {
    if g != [] {
      KeySetMember(g[1..], k);
      if exists i :: 0 <= i < |g| && g[i].key == k {
        var i :| 0 <= i < |g| && g[i].key == k;
        if i > 0 {
          assert g[1..][i - 1].key == k;
        }
      }
      if exists i :: 0 <= i < |g[1..]| && g[1..][i].key == k {
        var i :| 0 <= i < |g[1..]| && g[1..][i].key == k;
        assert g[i + 1].key == k;
      }
    }
  }

  lemma AscendingDistinct(g: seq<Entry>)
    requires Ascending(g)
    ensures DistinctKeys(g)
  {
    forall i, j | 0 <= i < j < |g|
      ensures g[i].key != g[j].key
    {
      LessIrreflexive(g[i].key);
    }
  }

  /** With distinct keys there are as many entries as keys. */
  lemma {:induction false} DistinctCount(g: seq<Entry>)
    requires DistinctKeys(g)
    ensures |KeySet(g)| == |g|
  {
    if g != [] {
      DistinctCount(g[1..]);
      KeySetMember(g[1..], g[0].key);
      assert forall i :: 0 <= i < |g[1..]| ==> g[1..][i].key == g[i + 1].key != g[0].key;
    }
  }

  /** In a table with distinct keys, looking an entry's key up finds that entry. */
  lemma {:induction false} LookupAt(g: seq<Entry>, i: nat)
    requires DistinctKeys(g) && i < |g|
    ensures Lookup(g, g[i].key) == g[i].total
  {
    if i > 0 {
      assert g[0].key != g[i].key;
      assert g[1..][i - 1] == g[i];
      LookupAt(g[1..], i - 1);
    }
  }

  lemma {:induction false} LookupAbsent(g: seq<Entry>, k: string)
    requires k !in KeySet(g)
    ensures Lookup(g, k) == 0
  {
    if g != [] {
      LookupAbsent(g[1..], k);
    }
  }

  // ---------------------------------------------------------------------
  // groupby(...).sum()

  /** Adds `v` to the entry for `k`, creating it in key order if it is new. */
  function AddTo(g: seq<Entry>, k: string, v: int): (r: seq<Entry>)
    requires Ascending(g)
    ensures Ascending(r)
    ensures KeySet(r) == KeySet(g) + {k}
    ensures SumTotals(r) == SumTotals(g) + v
    ensures forall j :: Lookup(r, j) == Lookup(g, j) + (if j == k then v else 0)
  {
    if g == [] then
      [Entry(k, v)]
    else if g[0].key == k then
      assert g == [g[0]] + g[1..];
      [Entry(k, g[0].total + v)] + g[1..]
    else if Less(k, g[0].key) then
      AddBeforeAll(g, k);
      KeySetMember(g, k);
      LookupAbsent(g, k);
      [Entry(k, v)] + g
    else
      LessTotal(k, g[0].key);
      var rest := AddTo(g[1..], k, v);
      AboveFirst(g, rest, k);
      [g[0]] + rest
  }

  lemma AddBeforeAll(g: seq<Entry>, k: string)
    requires Ascending(g) && g != [] && Less(k, g[0].key)
    ensures forall i :: 0 <= i < |g| ==> Less(k, g[i].key) && g[i].key != k
    ensures Ascending([Entry(k, 0)] + g)
  {
    forall i | 0 < i < |g|
      ensures Less(k, g[i].key)
    {
      LessTransitive(k, g[0].key, g[i].key);
    }
    forall i | 0 <= i < |g|
      ensures g[i].key != k
    {
      LessIrreflexive(k);
    }
  }

  lemma AboveFirst(g: seq<Entry>, rest: seq<Entry>, k: string)
    requires Ascending(g) && g != [] && Ascending(rest) && Less(g[0].key, k)
    requires KeySet(rest) == KeySet(g[1..]) + {k}
    ensures Ascending([g[0]] + rest)
  {
    forall i | 0 <= i < |rest|
      ensures Less(g[0].key, rest[i].key)
    {
      KeySetMember(rest, rest[i].key);
      KeySetMember(g[1..], rest[i].key);
      if rest[i].key != k {
        var j :| 0 <= j < |g[1..]| && g[1..][j].key == rest[i].key;
        assert g[j + 1].key == rest[i].key;
      }
    }
  }

  /**
    The grouped table of column `col`: one entry per distinct key, keys
    strictly ascending, each holding the measure summed over its rows.
   */
  function Group(rows: seq<Record>, col: Column, m: Measure): (g: seq<Entry>)
    ensures Ascending(g)
    ensures KeySet(g) == KeysOf(rows, col)
    ensures SumTotals(g) == Total(rows, m)
    ensures forall k :: Lookup(g, k) == TotalFor(rows, col, m, k)
  {
    if rows == [] then []
    else AddTo(Group(rows[1..], col, m), Key(rows[0], col), Value(rows[0], m))
  }

  /** Each entry of the grouped table holds exactly its key's total. */
  lemma GroupEntry(rows: seq<Record>, col: Column, m: Measure, i: nat)
    requires i < |Group(rows, col, m)|
    ensures Group(rows, col, m)[i].key in KeysOf(rows, col)
    ensures Group(rows, col, m)[i].total == TotalFor(rows, col, m, Group(rows, col, m)[i].key)
  {
    var g := Group(rows, col, m);
    AscendingDistinct(g);
    LookupAt(g, i);
    KeySetMember(g, g[i].key);
  }

  /** There is one entry per distinct key. */
  lemma GroupSize(rows: seq<Record>, col: Column, m: Measure)
    ensures |Group(rows, col, m)| == |KeysOf(rows, col)|
  {
    AscendingDistinct(Group(rows, col, m));
    DistinctCount(Group(rows, col, m));
  }

  // ---------------------------------------------------------------------
  // idxmax

  /** The position of the first largest total, as `idxmax` chooses it. */
  function MaxIndex(g: seq<Entry>): (i: nat)
    requires g != []
    ensures i < |g|
    ensures forall j :: 0 <= j < |g| ==> g[j].total <= g[i].total
    ensures forall j :: 0 <= j < i ==> g[j].total < g[i].total
  {
    if |g| == 1 then 0
    else
      var i := MaxIndex(g[..|g| - 1]);
      assert forall j :: 0 <= j < |g| - 1 ==> g[..|g| - 1][j] == g[j];
      if g[|g| - 1].total > g[i].total then |g| - 1 else i
  }

  /**
    `k` has the largest total of column `col`, and among the keys sharing
    that total it sorts first.
   */
  ghost predicate IsTop(rows: seq<Record>, col: Column, m: Measure, k: string) {
    && k in KeysOf(rows, col)
    && forall k' :: k' in KeysOf(rows, col) ==>
         && TotalFor(rows, col, m, k') <= TotalFor(rows, col, m, k)
         && (TotalFor(rows, col, m, k') == TotalFor(rows, col, m, k) ==> LessEq(k, k'))
  }

  /**
    `groupby(col)[measure].sum().idxmax()`: the key with the largest total,
    the first one in key order when several tie; no key for an empty table,
    where pandas raises instead.
   */
  function ArgMax(rows: seq<Record>, col: Column, m: Measure): Option<string> {
    var g := Group(rows, col, m);
    if g == [] then None else Some(g[MaxIndex(g)].key)
  }

  lemma ArgMaxIsTop(rows: seq<Record>, col: Column, m: Measure)
    ensures ArgMax(rows, col, m).Some? <==> rows != []
    ensures ArgMax(rows, col, m).Some? ==> IsTop(rows, col, m, ArgMax(rows, col, m).value)
  {
    var g := Group(rows, col, m);
    if rows != [] {
      assert Key(rows[0], col) in KeysOf(rows, col);
    }
    if g != [] {
      var i := MaxIndex(g);
      KeySetMember(g, g[i].key);
      forall k' | k' in KeysOf(rows, col)
        ensures TotalFor(rows, col, m, k') <= TotalFor(rows, col, m, g[i].key)
        ensures TotalFor(rows, col, m, k') == TotalFor(rows, col, m, g[i].key) ==> LessEq(g[i].key, k')
      {
        MaxEntryFirst(g, k');
      }
    }
  }

  /** The entry `MaxIndex` picks beats every key, and ties only with keys after it. */
  lemma MaxEntryFirst(g: seq<Entry>, k: string)
    requires Ascending(g) && k in KeySet(g)
    ensures g != []
    ensures Lookup(g, k) <= Lookup(g, g[MaxIndex(g)].key)
    ensures Lookup(g, k) == Lookup(g, g[MaxIndex(g)].key) ==> LessEq(g[MaxIndex(g)].key, k)
  {
    KeySetMember(g, k);
    var j :| 0 <= j < |g| && g[j].key == k;
    var i := MaxIndex(g);
    AscendingDistinct(g);
    LookupAt(g, i);
    LookupAt(g, j);
  }

  /** At most one key is the top key, so `IsTop` pins the answer down. */
  lemma TopUnique(rows: seq<Record>, col: Column, m: Measure, k1: string, k2: string)
    requires IsTop(rows, col, m, k1) && IsTop(rows, col, m, k2)
    ensures k1 == k2
  {
    LessEqAntisymmetric(k1, k2);
  }

  // ---------------------------------------------------------------------
  // sort_values(ascending=False)

  /** Places `e` before the first entry whose total does not exceed it. */
  function InsertDesc(e: Entry, s: seq<Entry>): (r: seq<Entry>)
    requires NonIncreasing(s)
    ensures NonIncreasing(r)
    ensures multiset(r) == multiset(s) + multiset{e}
    ensures KeySet(r) == KeySet(s) + {e.key}
    ensures SumTotals(r) == SumTotals(s) + e.total
  {
    if s == [] || e.total >= s[0].total then
      InsertFront(e, s);
      [e] + s
    else
      var rest := InsertDesc(e, s[1..]);
      InsertBehind(e, s, rest);
      [s[0]] + rest
  }

  lemma InsertFront(e: Entry, s: seq<Entry>)
    requires NonIncreasing(s) && (s == [] || e.total >= s[0].total)
    ensures NonIncreasing([e] + s)
  {
    forall i | 0 <= i < |s|
      ensures s[i].total <= e.total
    {
      assert s[0].total >= s[i].total || i == 0;
    }
  }

  lemma InsertBehind(e: Entry, s: seq<Entry>, rest: seq<Entry>)
    requires NonIncreasing(s) && s != [] && e.total < s[0].total
    requires NonIncreasing(rest) && multiset(rest) == multiset(s[1..]) + multiset{e}
    ensures NonIncreasing([s[0]] + rest)
    ensures multiset([s[0]] + rest) == multiset(s) + multiset{e}
  {
    assert s == [s[0]] + s[1..];
    forall i | 0 <= i < |rest|
      ensures rest[i].total <= s[0].total
    {
      assert rest[i] in multiset(rest);
      if rest[i] != e {
        assert rest[i] in s[1..];
        var j :| 0 <= j < |s[1..]| && s[1..][j] == rest[i];
        assert s[j + 1] == rest[i];
      }
    }
  }

  /** The entries reordered by non-increasing total. */
  function SortDesc(g: seq<Entry>): (r: seq<Entry>)
    ensures NonIncreasing(r)
    ensures multiset(r) == multiset(g)
    ensures |r| == |g|
    ensures KeySet(r) == KeySet(g)
    ensures SumTotals(r) == SumTotals(g)
  {
    if g == [] then []
    else
      assert g == [g[0]] + g[1..];
      InsertDesc(g[0], SortDesc(g[1..]))
  }

  /** A table never has more keys than entries. */
  lemma {:induction false} KeySetBound(g: seq<Entry>)
    ensures |KeySet(g)| <= |g|
  {
    if g != [] {
      KeySetBound(g[1..]);
    }
  }

  /** As many keys as entries means no key repeats. */
  lemma {:induction false} CountDistinct(g: seq<Entry>)
    requires |KeySet(g)| == |g|
    ensures DistinctKeys(g)
  {
    if g != [] {
      KeySetBound(g[1..]);
      assert g[0].key !in KeySet(g[1..]);
      CountDistinct(g[1..]);
      KeySetMember(g[1..], g[0].key);
      forall i, j | 0 <= i < j < |g|
        ensures g[i].key != g[j].key
      {
        if i > 0 {
          assert g[i].key == g[1..][i - 1].key && g[j].key == g[1..][j - 1].key;
        } else {
          assert g[j].key == g[1..][j - 1].key;
        }
      }
    }
  }

  /** Sorting a table with distinct keys keeps them distinct. */
  lemma SortDescDistinct(g: seq<Entry>)
    requires DistinctKeys(g)
    ensures DistinctKeys(SortDesc(g))
  {
    DistinctCount(g);
    CountDistinct(SortDesc(g));
  }
}
