/** How the store evaluates the two orderings the queries ask for:
    newest-first listings (ORDER BY created_at DESC) and the category picker
    sorted by title (ORDER BY title). */
module Queries {
  import opened Records

  /** The keys of `keys` within 1..hi, largest first.  Serial ids start at 1
      and grow with every insert, so a table scanned this way comes out
      newest-first. */
  function IdsDescending(keys: set<int>, hi: int): (r: seq<int>)
    ensures forall k :: k in r <==> k in keys && 1 <= k <= hi
    ensures forall i, j :: 0 <= i < j < |r| ==> r[i] > r[j]
    decreases hi
  {
    if hi < 1 then []
    else
      var rest := IdsDescending(keys, hi - 1);
      if hi in keys then
        assert forall j :: 0 <= j < |rest| ==> rest[j] in rest;
        [hi] + rest
      else rest
  }

  /** The set of elements of a list of ids. */
  function IdSet(r: seq<int>): (ks: set<int>)
    ensures forall k :: k in ks <==> k in r
  {
    if r == [] then {} else {r[0]} + IdSet(r[1..])
  }

  /** A list without repeated ids is as long as the set of its ids. */
  lemma {:induction false} IdSetSize(r: seq<int>)
    requires forall i, j :: 0 <= i < j < |r| ==> r[i] > r[j]
    ensures |IdSet(r)| == |r|
  {
    if r != [] {
      IdSetSize(r[1..]);
      assert r[0] !in IdSet(r[1..]);
    }
  }

  /** The rows of `m` at the given ids, in that order. */
  function Select<R>(m: map<int, R>, ids: seq<int>): (rows: seq<R>)
    requires forall i :: 0 <= i < |ids| ==> ids[i] in m
    ensures |rows| == |ids|
    ensures forall i :: 0 <= i < |ids| ==> rows[i] == m[ids[i]]
  {
    seq(|ids|, i requires 0 <= i < |ids| => m[ids[i]])
  }

  /** Scanning every id of a table yields each of its rows exactly once. */
  lemma ListingCovers<R>(m: map<int, R>, hi: int)
    requires forall k :: k in m ==> 1 <= k <= hi
    ensures |IdsDescending(m.Keys, hi)| == |m|
    ensures forall x :: x in Select(m, IdsDescending(m.Keys, hi)) <==> exists k :: k in m && m[k] == x
  {
    var ids := IdsDescending(m.Keys, hi);
    ListingCount(m.Keys, hi);
    assert |m.Keys| == |m|;
    var rows := Select(m, ids);
    forall x
      ensures x in rows <==> exists k :: k in m && m[k] == x
    {
      if exists k :: k in m && m[k] == x {
        var k :| k in m && m[k] == x;
        assert k in ids;
        var i :| 0 <= i < |ids| && ids[i] == k;
        assert rows[i] == x;
      }
      if x in rows {
        var i :| 0 <= i < |rows| && rows[i] == x;
        assert ids[i] in m && m[ids[i]] == x;
      }
    }
  }

  lemma ListingCount(keys: set<int>, hi: int)
    requires forall k :: k in keys ==> 1 <= k <= hi
    ensures |IdsDescending(keys, hi)| == |keys|
  {
    var ids := IdsDescending(keys, hi);
    IdSetSize(ids);
    assert IdSet(ids) == keys;
  }

  // ---------------------------------------------------------------------
  // ORDER BY title

  /** Lexicographic order of titles, character by character. */
  predicate TitleLe(a: string, b: string)
    decreases |a|
  {
    |a| == 0 || (|b| > 0 && (a[0] < b[0] || (a[0] == b[0] && TitleLe(a[1..], b[1..]))))
  }

  lemma {:induction false} TitleLeTotal(a: string, b: string)
    ensures TitleLe(a, b) || TitleLe(b, a)
    decreases |a|
  {
    if |a| > 0 && |b| > 0 && a[0] == b[0] {
      TitleLeTotal(a[1..], b[1..]);
    }
  }

  lemma {:induction false} TitleLeTransitive(a: string, b: string, c: string)
    requires TitleLe(a, b) && TitleLe(b, c)
    ensures TitleLe(a, c)
    decreases |a|
  {
    if |a| > 0 && a[0] == b[0] && b[0] == c[0] {
      TitleLeTransitive(a[1..], b[1..], c[1..]);
    }
  }

  predicate SortedByTitle(s: seq<CategoryOption>)
  {
    forall i :: 0 < i < |s| ==> TitleLe(s[i - 1].title, s[i].title)
  }

  /** A list sorted neighbour by neighbour is sorted between any two positions. */
  lemma {:induction false} SortedByTitleAll(s: seq<CategoryOption>)
    requires SortedByTitle(s)
    ensures forall i, j :: 0 <= i < j < |s| ==> TitleLe(s[i].title, s[j].title)
  {
    forall i, j | 0 <= i < j < |s|
      ensures TitleLe(s[i].title, s[j].title)
    {
      var k := i + 1;
      while k < j
        invariant i < k <= j
        invariant TitleLe(s[i].title, s[k].title)
      {
        TitleLeTransitive(s[i].title, s[k].title, s[k + 1].title);
        k := k + 1;
      }
    }
  }

  function InsertByTitle(x: CategoryOption, s: seq<CategoryOption>): (r: seq<CategoryOption>)
    requires SortedByTitle(s)
    ensures SortedByTitle(r)
    ensures multiset(r) == multiset(s) + multiset{x}
    ensures |r| > 0 && (r[0] == x || (|s| > 0 && r[0] == s[0]))
  {
    if s == [] then [x]
    else if TitleLe(x.title, s[0].title) then [x] + s
    else
      TitleLeTotal(x.title, s[0].title);
      assert s == [s[0]] + s[1..];
      [s[0]] + InsertByTitle(x, s[1..])
  }

  /** The options sorted by title: a permutation of the input, in title order. */
  function SortByTitle(s: seq<CategoryOption>): (r: seq<CategoryOption>)
    ensures SortedByTitle(r)
    ensures multiset(r) == multiset(s)
  {
    if s == [] then []
    else
      assert s == [s[0]] + s[1..];
      InsertByTitle(s[0], SortByTitle(s[1..]))
  }
}
