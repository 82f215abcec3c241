/** How the route handlers read a table: a scan of the rows in rowid order,
    a WHERE filter, and an ORDER BY on a tuple of TEXT columns. */
module Query {
  import opened Base
  import opened TextOrder

  /** r[i] comes no later than r[j] under `ORDER BY key [DESC]`. */
  predicate Before(a: seq<string>, b: seq<string>, desc: bool) {
    if desc then KeyLe(b, a) else KeyLe(a, b)
  }

  predicate SortedByKey<T>(s: seq<T>, key: T -> seq<string>, desc: bool) {
    forall i, j :: 0 <= i < j < |s| ==> Before(key(s[i]), key(s[j]), desc)
  }

  lemma BeforeTotal(a: seq<string>, b: seq<string>, desc: bool)
    ensures Before(a, b, desc) || Before(b, a, desc)
  {
    KeyLeTotal(a, b);
  }

  lemma BeforeTrans(a: seq<string>, b: seq<string>, c: seq<string>, desc: bool)
    requires Before(a, b, desc) && Before(b, c, desc)
    ensures Before(a, c, desc)
  {
    if desc { KeyLeTrans(c, b, a); } else { KeyLeTrans(a, b, c); }
  }

  /** If x comes before the head of a sorted sequence it comes before all of it. */
  lemma BeforeAll<T>(x: T, s: seq<T>, key: T -> seq<string>, desc: bool)
    requires SortedByKey(s, key, desc) && s != [] && Before(key(x), key(s[0]), desc)
    ensures forall j :: 0 <= j < |s| ==> Before(key(x), key(s[j]), desc)
  {
    forall j | 0 <= j < |s| ensures Before(key(x), key(s[j]), desc) {
      if j > 0 { BeforeTrans(key(x), key(s[0]), key(s[j]), desc); }
    }
  }

  /** Putting the head of a sorted sequence in front of a sorted sequence made
      of its tail and one element it precedes gives a sorted sequence. */
  lemma ConsSorted<T>(x: T, s: seq<T>, rest: seq<T>, key: T -> seq<string>, desc: bool)
    requires s != [] && SortedByKey(s, key, desc) && Before(key(s[0]), key(x), desc)
    requires SortedByKey(rest, key, desc) && multiset(rest) == multiset(s[1..]) + multiset{x}
    ensures SortedByKey([s[0]] + rest, key, desc)
  {
    var r := [s[0]] + rest;
    forall j | 0 < j < |r| ensures Before(key(s[0]), key(r[j]), desc) {
      var e := r[j];
      assert e == rest[j - 1];
      assert e in multiset(rest);
      if e != x {
        assert e in multiset(s[1..]);
        var k :| 0 <= k < |s[1..]| && s[1..][k] == e;
        assert s[k + 1] == e;
      }
    }
    forall i, j | 0 <= i < j < |r| ensures Before(key(r[i]), key(r[j]), desc) {
      if i > 0 {
        assert r[i] == rest[i - 1] && r[j] == rest[j - 1];
      }
    }
  }

  /** Inserts x into a sorted sequence, after every element it does not precede. */
  function InsertByKey<T>(x: T, s: seq<T>, key: T -> seq<string>, desc: bool): (r: seq<T>)
    requires SortedByKey(s, key, desc)
    ensures SortedByKey(r, key, desc)
    ensures multiset(r) == multiset(s) + multiset{x}
    decreases |s|
  {
    if s == [] then [x]
    else if Before(key(x), key(s[0]), desc) then
      BeforeAll(x, s, key, desc);
      [x] + s
    else
      BeforeTotal(key(x), key(s[0]), desc);
      var rest := InsertByKey(x, s[1..], key, desc);
      assert s == [s[0]] + s[1..];
      ConsSorted(x, s, rest, key, desc);
      [s[0]] + rest
  }

  /** `ORDER BY key [DESC]` over the rows s. */
  function SortByKey<T>(s: seq<T>, key: T -> seq<string>, desc: bool): (r: seq<T>)
    ensures SortedByKey(r, key, desc)
    ensures multiset(r) == multiset(s)
    decreases |s|
  {
    if s == [] then []
    else
      assert s == [s[0]] + s[1..];
      InsertByKey(s[0], SortByKey(s[1..], key, desc), key, desc)
  }

  predicate Increasing(s: seq<int>) {
    forall i, j :: 0 <= i < j < |s| ==> s[i] < s[j]
  }

  lemma {:induction false} IncreasingCard(s: seq<int>)
    requires Increasing(s)
    ensures |set x | x in s| == |s|
  {
    if s != [] {
      var last := s[|s| - 1];
      var init := s[..|s| - 1];
      IncreasingCard(init);
      assert (set x | x in s) == (set x | x in init) + {last};
      assert last !in (set x | x in init);
    }
  }

  /** The first of an increasing sequence is its least element. */
  lemma IncreasingFirstLeast(s: seq<int>)
    requires Increasing(s) && s != []
    ensures forall k :: k in s ==> s[0] <= k
  {
    forall k | k in s ensures s[0] <= k {
      var i :| 0 <= i < |s| && s[i] == k;
      assert i == 0 || s[0] < s[i];
    }
  }

  /** The ids in 1..n of the rows of m that `keep` selects, in rowid order. */
  function ScanIds<T>(m: map<int, T>, n: int, keep: T -> bool): (ids: seq<int>)
    ensures Increasing(ids)
    ensures forall i :: 0 <= i < |ids| ==> 1 <= ids[i] <= n
    ensures forall k :: k in ids <==> k in m && 1 <= k <= n && keep(m[k])
    decreases n
  {
    if n <= 0 then []
    else ScanIds(m, n - 1, keep) + (if n in m && keep(m[n]) then [n] else [])
  }

  /** The first id a scan yields is the least key whose row `keep`
      selects; the scan yields none exactly when no row is selected. */
  lemma ScanFirst<T>(m: map<int, T>, n: int, keep: T -> bool)
    requires forall k :: k in m ==> 1 <= k <= n
    ensures var ids := ScanIds(m, n, keep);
      && (ids == [] <==> forall k :: k in m ==> !keep(m[k]))
      && (ids != [] ==> ids[0] in m && keep(m[ids[0]]) && forall k :: k in m && k < ids[0] ==> !keep(m[k]))
  {
    var ids := ScanIds(m, n, keep);
    if ids != [] {
      assert ids[0] in ids;
      IncreasingFirstLeast(ids);
    }
  }

  /** `SELECT ... WHERE ...` read with `.get`: the key of the first selected
      row in rowid order, if any. */
  function First<T>(m: map<int, T>, n: int, keep: T -> bool): (r: Option<int>)
    requires forall k :: k in m ==> 1 <= k <= n
    ensures r.None? <==> forall k :: k in m ==> !keep(m[k])
    ensures r.Some? ==> r.value in m && keep(m[r.value]) && forall k :: k in m && k < r.value ==> !keep(m[k])
  {
    var ids := ScanIds(m, n, keep);
    ScanFirst(m, n, keep);
    if ids == [] then None else Some(ids[0])
  }

  /** Two orderings of the same rows hold the same rows, equally many. */
  lemma PermutationMembers<T>(a: seq<T>, b: seq<T>)
    requires multiset(a) == multiset(b)
    ensures |a| == |b|
    ensures forall x :: x in a <==> x in b
  {
    assert |a| == |multiset(a)| && |b| == |multiset(b)|;
    forall x ensures x in a <==> x in b {
      assert x in a <==> x in multiset(a);
      assert x in b <==> x in multiset(b);
    }
  }

  /** Each row through f, in order: the projection of a SELECT list or a
      JOIN applied row by row. */
  function Mapped<A, B>(rows: seq<A>, f: A -> B): (r: seq<B>)
    ensures |r| == |rows| && forall i :: 0 <= i < |rows| ==> r[i] == f(rows[i])
  {
    seq(|rows|, i requires 0 <= i < |rows| => f(rows[i]))
  }

  /** The rows of m at the given ids, in that order. */
  function RowsAt<T>(m: map<int, T>, ids: seq<int>): (rows: seq<T>)
    requires forall i :: 0 <= i < |ids| ==> ids[i] in m
    ensures |rows| == |ids|
    ensures forall i :: 0 <= i < |ids| ==> rows[i] == m[ids[i]]
  {
    seq(|ids|, i requires 0 <= i < |ids| => m[ids[i]])
  }

  lemma ScanRows<T>(m: map<int, T>, n: int, keep: T -> bool)
    requires forall k :: k in m ==> 1 <= k <= n
    ensures var rows := RowsAt(m, ScanIds(m, n, keep));
      && (forall i :: 0 <= i < |rows| ==> exists k :: k in m && keep(m[k]) && m[k] == rows[i])
      && (forall k :: k in m && keep(m[k]) ==> m[k] in rows)
      && |rows| == |SelectedKeys(m, keep)|
  {
    var ids := ScanIds(m, n, keep);
    var rows := RowsAt(m, ids);
    forall k | k in m && keep(m[k]) ensures m[k] in rows {
      var i :| 0 <= i < |ids| && ids[i] == k;
      assert rows[i] == m[k];
    }
    IncreasingCard(ids);
    assert (set x | x in ids) == SelectedKeys(m, keep);
  }

  /** The keys of the rows of m that `keep` selects. */
  function SelectedKeys<T>(m: map<int, T>, keep: T -> bool): set<int> {
    set k | k in m && keep(m[k])
  }

  /** `SELECT * FROM m WHERE keep ORDER BY key [DESC]`, for a table whose rows
      sit under their own id (`id`) in 1..n. */
  function SelectSorted<T(!new)>(m: map<int, T>, n: int, id: T -> int, keep: T -> bool,
                                 key: T -> seq<string>, desc: bool): (r: seq<T>)
    requires forall k :: k in m ==> 1 <= k <= n && id(m[k]) == k
    ensures SortedByKey(r, key, desc)
    ensures forall x :: x in r ==> id(x) in m && m[id(x)] == x && keep(x)
    ensures forall k :: k in m && keep(m[k]) ==> m[k] in r
    ensures |r| == |SelectedKeys(m, keep)|
  {
    var rows := RowsAt(m, ScanIds(m, n, keep));
    var r := SortByKey(rows, key, desc);
    PermutationMembers(r, rows);
    ScanRows(m, n, keep);
    SelectedRows(m, id, keep, rows);
    r
  }

  lemma SelectedRows<T>(m: map<int, T>, id: T -> int, keep: T -> bool, rows: seq<T>)
    requires forall k :: k in m ==> id(m[k]) == k
    requires forall i :: 0 <= i < |rows| ==> exists k :: k in m && keep(m[k]) && m[k] == rows[i]
    ensures forall x :: x in rows ==> id(x) in m && m[id(x)] == x && keep(x)
  {
    forall x | x in rows ensures id(x) in m && m[id(x)] == x && keep(x) {
      var i :| 0 <= i < |rows| && rows[i] == x;
      var k :| k in m && keep(m[k]) && m[k] == rows[i];
    }
  }
}
