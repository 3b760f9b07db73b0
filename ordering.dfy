/** What the document store's cursors do with a query result: the natural
    order of a collection, filtering, `sort({ createdAt: -1 })`, and the
    `skip`/`limit` window with the page arithmetic the list endpoints report. */
module Ordering {
  import opened Json

  /** The records of a collection held under ids below `n`, in ascending id
      order (the collection's natural order). */
  function Entries<T>(m: map<ObjectId, T>, n: nat): (r: seq<T>)
    ensures |r| <= n
  {
    if n == 0 then [] else Entries(m, n - 1) + (if n - 1 in m then [m[n - 1]] else [])
  }

  /** The ids of `m` below `n`. */
  function KeysBelow<T>(m: map<ObjectId, T>, n: nat): set<ObjectId> {
    set k | k in m && k < n
  }

  /** Every record stored under an id below `n` is listed. */
  lemma {:induction false} EntriesComplete<T>(m: map<ObjectId, T>, n: nat, k: ObjectId)
    requires k in m && k < n
    ensures m[k] in Entries(m, n)
  {
    if k < n - 1 {
      EntriesComplete(m, n - 1, k);
    }
  }

  /** Every listed record is stored under some id below `n`. */
  lemma {:induction false} EntryKey<T>(m: map<ObjectId, T>, n: nat, i: nat) returns (k: ObjectId)
    requires i < |Entries(m, n)|
    ensures k in m && k < n && m[k] == Entries(m, n)[i]
  {
    var prefix := Entries(m, n - 1);
    if i < |prefix| {
      k := EntryKey(m, n - 1, i);
    } else {
      k := n - 1;
    }
  }

  /** The listing has one entry per stored id below `n`. */
  lemma {:induction false} EntriesCount<T>(m: map<ObjectId, T>, n: nat)
    ensures |Entries(m, n)| == |KeysBelow(m, n)|
  {
    if n > 0 {
      EntriesCount(m, n - 1);
      if n - 1 in m {
        assert KeysBelow(m, n) == KeysBelow(m, n - 1) + {n - 1};
      } else {
        assert KeysBelow(m, n) == KeysBelow(m, n - 1);
      }
    }
  }

  /** `findOne`: the smallest id below `n` whose record satisfies `p`. */
  function FirstKey<T>(m: map<ObjectId, T>, n: nat, p: T -> bool): (r: Option<ObjectId>)
    ensures r.Some? ==> r.value in m && r.value < n && p(m[r.value])
    ensures r.Some? ==> forall k :: k in m && k < r.value ==> !p(m[k])
    ensures r.None? <==> forall k :: k in m && k < n ==> !p(m[k])
  {
    if n == 0 then None
    else match FirstKey(m, n - 1, p)
      case Some(k) => Some(k)
      case None => if n - 1 in m && p(m[n - 1]) then Some(n - 1) else None
  }

  function Filter<T(==)>(xs: seq<T>, p: T -> bool): (r: seq<T>)
    ensures |r| <= |xs|
    ensures forall i :: 0 <= i < |r| ==> p(r[i])
  {
    if xs == [] then []
    else
      var rest := Filter(xs[1..], p);
      if p(xs[0]) then [xs[0]] + rest else rest
  }

  lemma {:induction false} FilterMembership<T>(xs: seq<T>, p: T -> bool, x: T)
    ensures x in Filter(xs, p) <==> x in xs && p(x)
  {
    if xs != [] {
      FilterMembership(xs[1..], p, x);
      assert x in xs <==> x == xs[0] || x in xs[1..];
    }
  }

  lemma {:induction false} FilterConcat<T>(a: seq<T>, b: seq<T>, p: T -> bool)
    ensures Filter(a + b, p) == Filter(a, p) + Filter(b, p)
  {
    if a != [] {
      assert (a + b)[1..] == a[1..] + b;
      FilterConcat(a[1..], b, p);
    } else {
      assert a + b == b;
    }
  }

  /** Only records with a bigger or equal key come before a record. */
  predicate NewestFirst<T>(xs: seq<T>, key: T -> int) {
    forall i, j :: 0 <= i < j < |xs| ==> key(xs[i]) >= key(xs[j])
  }

  function Insert<T(==)>(x: T, xs: seq<T>, key: T -> int): (r: seq<T>)
    requires NewestFirst(xs, key)
    ensures NewestFirst(r, key)
    ensures multiset(r) == multiset(xs) + multiset{x}
    ensures |r| == |xs| + 1
    ensures r != [] && (r[0] == x || (xs != [] && r[0] == xs[0]))
  {
    if xs == [] || key(x) >= key(xs[0]) then
      [x] + xs
    else
      var rest := Insert(x, xs[1..], key);
      assert xs == [xs[0]] + xs[1..];
      [xs[0]] + rest
  }

  /** `sort({ createdAt: -1 })` with `key` the creation time: a stable sort,
      newest first, of exactly the given records. */
  function SortNewestFirst<T(==)>(xs: seq<T>, key: T -> int): (r: seq<T>)
    ensures NewestFirst(r, key)
    ensures multiset(r) == multiset(xs)
    ensures |r| == |xs|
  {
    if xs == [] then []
    else
      assert xs == [xs[0]] + xs[1..];
      Insert(xs[0], SortNewestFirst(xs[1..], key), key)
  }

  lemma SortedMembership<T>(xs: seq<T>, key: T -> int, x: T)
    ensures x in SortNewestFirst(xs, key) <==> x in xs
  {
    var r := SortNewestFirst(xs, key);
    assert x in r <==> x in multiset(r);
    assert x in xs <==> x in multiset(xs);
  }

  function Abs(x: int): nat {
    if x < 0 then -x else x
  }

  function Min(a: int, b: int): int {
    if a <= b then a else b
  }

  /** The documents a cursor yields after `.skip(skip).limit(limit)`: a limit
      of 0 means no limit; a negative limit is taken by its absolute value. */
  function Window<T>(xs: seq<T>, skip: nat, limit: int): (r: seq<T>)
    ensures var from := Min(skip, |xs|);
      && |r| == (if limit == 0 then |xs| - from else Min(|xs| - from, Abs(limit)))
      && r == xs[from..from + |r|]
  {
    var from := Min(skip, |xs|);
    var upto := if limit == 0 then |xs| else Min(|xs|, from + Abs(limit));
    xs[from..upto]
  }

  /** `(page - 1) * limit`, the number of documents a list endpoint skips. */
  function Offset(page: int, limit: int): int {
    (page - 1) * limit
  }

  /** `Math.ceil(total / limit)` on a non-negative total; None stands for the
      non-finite quotient of a zero limit, which JSON renders as null. */
  function Pages(total: nat, limit: int): (r: Option<int>)
    ensures r.None? <==> limit == 0
    ensures limit > 0 ==> r.value >= 0 && r.value * limit >= total && (r.value == 0 || (r.value - 1) * limit < total)
    ensures limit < 0 ==> r.value <= 0 && r.value * limit <= total < (r.value - 1) * limit
  {
    if limit == 0 then None
    else if limit > 0 then
      var p := (total + limit - 1) / limit;
      CeilDivision(total, limit);
      Some(p)
    else
      NegativeCeiling(total, -limit);
      Some(-(total / -limit))
  }

  /** For a negative divisor `-m`, `-(total / m)` is the ceiling of `total / -m`. */
  lemma NegativeCeiling(total: nat, m: int)
    requires m > 0
    ensures var p := -(total / m);
      p * -m <= total < (p - 1) * -m
  {
    var q := total / m;
    assert total == q * m + total % m;
    assert -q * -m == q * m;
    assert (-q - 1) * -m == q * m + m;
  }

  lemma CeilDivision(total: nat, limit: int)
    requires limit > 0
    ensures var p := (total + limit - 1) / limit;
      p >= 0 && p * limit >= total && (p == 0 || (p - 1) * limit < total)
  {
    var p := (total + limit - 1) / limit;
    var rem := (total + limit - 1) % limit;
    assert total + limit - 1 == p * limit + rem && 0 <= rem < limit;
    assert p * limit >= total;
    if p > 0 {
      assert (p - 1) * limit == p * limit - limit;
    }
  }

  /** Index `i` of a result of `total` records falls on page `i / limit + 1`,
      which is one of the pages 1 .. pages. */
  lemma PageOfIndex(total: nat, limit: int, i: nat)
    requires limit > 0 && i < total
    ensures var page := i / limit + 1;
      && 1 <= page <= Pages(total, limit).value
      && 0 <= Offset(page, limit) <= i < Offset(page, limit) + limit
  {
    var q, rem := i / limit, i % limit;
    assert i == q * limit + rem && 0 <= rem < limit;
    assert Offset(q + 1, limit) == q * limit;
    var pages := Pages(total, limit).value;
    assert pages * limit > q * limit;
    ScaleMonotone(pages, q, limit);
  }

  lemma ScaleMonotone(a: int, b: int, c: int)
    requires c >= 0
    ensures a <= b ==> a * c <= b * c
  {
    if a <= b {
      assert b * c - a * c == (b - a) * c;
    }
  }

  /** With a positive limit, the pages 1 .. pages together show every record. */
  lemma PageOfRecord<T>(xs: seq<T>, limit: int, i: nat)
    requires limit > 0 && i < |xs|
    ensures var page := i / limit + 1;
      && 1 <= page <= Pages(|xs|, limit).value
      && Offset(page, limit) >= 0
      && xs[i] in Window(xs, Offset(page, limit), limit)
  {
    PageOfIndex(|xs|, limit, i);
    var from := Offset(i / limit + 1, limit);
    var w := Window(xs, from, limit);
    assert w[i - from] == xs[i];
  }

  /** The ids below `n` whose record satisfies `p`: what `countDocuments` counts. */
  function KeysWhere<T>(m: map<ObjectId, T>, n: nat, p: T -> bool): set<ObjectId> {
    set k | k in m && k < n && p(m[k])
  }

  /** Filtering the listing counts exactly the matching records. */
  lemma {:induction false} FilterEntriesCount<T>(m: map<ObjectId, T>, n: nat, p: T -> bool)
    ensures |Filter(Entries(m, n), p)| == |KeysWhere(m, n, p)|
  {
    if n > 0 {
      FilterEntriesCount(m, n - 1, p);
      var last := if n - 1 in m then [m[n - 1]] else [];
      FilterConcat(Entries(m, n - 1), last, p);
      if n - 1 in m && p(m[n - 1]) {
        assert Filter(last, p) == last;
        assert KeysWhere(m, n, p) == KeysWhere(m, n - 1, p) + {n - 1};
      } else {
        assert Filter(last, p) == [];
        assert KeysWhere(m, n, p) == KeysWhere(m, n - 1, p);
      }
    }
  }

  /** Every listed record is one of the stored ones. */
  lemma EntriesValues<T>(m: map<ObjectId, T>, n: nat, x: T)
    requires x in Entries(m, n)
    ensures x in m.Values
  {
    var i :| 0 <= i < |Entries(m, n)| && Entries(m, n)[i] == x;
    var k := EntryKey(m, n, i);
  }

  /** A contiguous part of a newest-first sequence is newest first. */
  lemma SliceNewestFirst<T>(xs: seq<T>, key: T -> int, a: nat, b: nat)
    requires NewestFirst(xs, key) && a <= b <= |xs|
    ensures NewestFirst(xs[a..b], key)
  {
    var s := xs[a..b];
    forall i, j | 0 <= i < j < |s|
      ensures key(s[i]) >= key(s[j])
    {
      assert s[i] == xs[a + i] && s[j] == xs[a + j];
    }
  }

  /** `.skip((page - 1) * limit).limit(limit)` on a result: None when the
      skip is negative, which the database rejects. */
  function Paginate<T>(xs: seq<T>, page: int, limit: int): (r: Option<seq<T>>)
    ensures r.None? <==> Offset(page, limit) < 0
    ensures r.Some? ==>
      var from := Min(Offset(page, limit), |xs|);
      && |r.value| == (if limit == 0 then |xs| - from else Min(|xs| - from, Abs(limit)))
      && (limit != 0 ==> |r.value| <= Abs(limit))
      && from + |r.value| <= |xs|
      && r.value == xs[from..from + |r.value|]
  {
    var skip := Offset(page, limit);
    if skip < 0 then None else Some(Window(xs, skip, limit))
  }

  /** Whatever the sorted listing of the matches holds is a stored record that matches. */
  lemma ListedMatch<T>(m: map<ObjectId, T>, n: nat, p: T -> bool, key: T -> int, x: T)
    requires x in SortNewestFirst(Filter(Entries(m, n), p), key)
    ensures x in m.Values && p(x)
  {
    var matches := Filter(Entries(m, n), p);
    SortedMembership(matches, key, x);
    FilterMembership(Entries(m, n), p, x);
    EntriesValues(m, n, x);
  }

  /** One page of the matches, newest first, holds stored matching records,
      newest first. */
  lemma PageOfMatches<T>(m: map<ObjectId, T>, n: nat, p: T -> bool, key: T -> int,
                         sorted: seq<T>, window: seq<T>, page: int, limit: int)
    requires sorted == SortNewestFirst(Filter(Entries(m, n), p), key)
    requires Paginate(sorted, page, limit) == Some(window)
    ensures forall i :: 0 <= i < |window| ==> window[i] in m.Values && p(window[i])
    ensures NewestFirst(window, key)
  {
    WindowNewestFirst(sorted, key, window, page, limit);
    ListedMatches(m, n, p, key);
    WindowWithin(m, p, sorted, window, page, limit);
  }

  lemma WindowNewestFirst<T>(sorted: seq<T>, key: T -> int, window: seq<T>, page: int, limit: int)
    requires NewestFirst(sorted, key) && Paginate(sorted, page, limit) == Some(window)
    ensures NewestFirst(window, key)
  {
    var from := Min(Offset(page, limit), |sorted|);
    SliceNewestFirst(sorted, key, from, from + |window|);
  }

  /** Every record of the sorted listing of the matches is stored and matches. */
  lemma ListedMatches<T>(m: map<ObjectId, T>, n: nat, p: T -> bool, key: T -> int)
    ensures forall x :: x in SortNewestFirst(Filter(Entries(m, n), p), key) ==> x in m.Values && p(x)
  {
    forall x | x in SortNewestFirst(Filter(Entries(m, n), p), key)
      ensures x in m.Values && p(x)
    {
      ListedMatch(m, n, p, key, x);
    }
  }

  /** A page of a listing of stored matching records holds only such records. */
  lemma WindowWithin<T>(m: map<ObjectId, T>, p: T -> bool, sorted: seq<T>, window: seq<T>, page: int, limit: int)
    requires forall x :: x in sorted ==> x in m.Values && p(x)
    requires Paginate(sorted, page, limit) == Some(window)
    ensures forall i :: 0 <= i < |window| ==> window[i] in m.Values && p(window[i])
  {
    var from := Min(Offset(page, limit), |sorted|);
    forall i | 0 <= i < |window|
      ensures window[i] in m.Values && p(window[i])
    {
      assert window[i] == sorted[from + i];
    }
  }
}
