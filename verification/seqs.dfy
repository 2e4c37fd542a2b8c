/** Sequence helpers behind the table queries: filtering (a SQL `WHERE`),
    newest-first ordering (`ORDER BY ... DESC` over insertion order), a
    `LIMIT`, and the ordering facts the queries rely on. */
module Seqs {
  import opened Results

  /** The first element of `xs` satisfying `p` (a query's `fetchone`). */
  function FindFirst<T(!new)>(xs: seq<T>, p: T -> bool): (r: Option<T>)
    ensures r.Some? ==> r.value in xs && p(r.value)
    ensures r.None? <==> forall x :: x in xs ==> !p(x)
  {
    if |xs| == 0 then None
    else if p(xs[0]) then Some(xs[0])
    else FindFirst(xs[1..], p)
  }

  /** When `x` is the only element satisfying `p`, it is the one found. */
  lemma FindFirstUnique<T(!new)>(xs: seq<T>, p: T -> bool, x: T)
    requires x in xs && p(x)
    requires forall y :: y in xs && p(y) ==> y == x
    ensures FindFirst(xs, p) == Some(x)
  {
  }

  /** The elements of `xs` that satisfy `p`, in their original order. */
  function Filter<T(!new)>(xs: seq<T>, p: T -> bool): (r: seq<T>)
    ensures |r| <= |xs|
    ensures forall x :: x in r <==> x in xs && p(x)
  {
    if |xs| == 0 then []
    else if p(xs[0]) then [xs[0]] + Filter(xs[1..], p)
    else Filter(xs[1..], p)
  }

  /** `xs` back to front. */
  function Reverse<T(!new)>(xs: seq<T>): (r: seq<T>)
    ensures |r| == |xs|
    ensures forall i :: 0 <= i < |xs| ==> r[i] == xs[|xs| - 1 - i]
    ensures multiset(r) == multiset(xs)
    ensures forall x :: x in r <==> x in xs
  {
    if |xs| == 0 then []
    else
      assert xs == [xs[0]] + xs[1..];
      Reverse(xs[1..]) + [xs[0]]
  }

  /** At most the first `n` elements of `xs` (a SQL `LIMIT n`). */
  function Take<T>(xs: seq<T>, n: nat): seq<T>
  {
    if |xs| <= n then xs else xs[..n]
  }

  /** Keys strictly increase from front to back. */
  predicate Ascending<T>(xs: seq<T>, key: T -> int)
  {
    forall i, j :: 0 <= i < j < |xs| ==> key(xs[i]) < key(xs[j])
  }

  /** Keys strictly decrease from front to back. */
  predicate Descending<T>(xs: seq<T>, key: T -> int)
  {
    forall i, j :: 0 <= i < j < |xs| ==> key(xs[i]) > key(xs[j])
  }

  /** Every key is below `bound`. */
  predicate Below<T>(xs: seq<T>, key: T -> int, bound: int)
  {
    forall i :: 0 <= i < |xs| ==> key(xs[i]) < bound
  }

  /** Filtering by a predicate every element meets changes nothing. */
  lemma {:induction false} FilterKeepsAll<T(!new)>(xs: seq<T>, p: T -> bool)
    requires forall i :: 0 <= i < |xs| ==> p(xs[i])
    ensures Filter(xs, p) == xs
  {
    if |xs| > 0 {
      FilterKeepsAll(xs[1..], p);
      assert [xs[0]] + xs[1..] == xs;
    }
  }

  /** When exactly the element at `k` fails `p`, filtering removes exactly that element. */
  lemma {:induction false} FilterRemovesOne<T(!new)>(xs: seq<T>, p: T -> bool, k: nat)
    requires k < |xs| && !p(xs[k])
    requires forall i :: 0 <= i < |xs| && i != k ==> p(xs[i])
    ensures Filter(xs, p) == xs[..k] + xs[k + 1..]
  {
    if k == 0 {
      FilterKeepsAll(xs[1..], p);
    } else {
      FilterRemovesOne(xs[1..], p, k - 1);
      assert xs[1..][..k - 1] == xs[1..k];
      assert xs[1..][k..] == xs[k + 1..];
      assert [xs[0]] + xs[1..k] == xs[..k];
    }
  }

  /** Filtering keeps ascending keys ascending. */
  lemma {:induction false} FilterAscending<T(!new)>(xs: seq<T>, p: T -> bool, key: T -> int)
    requires Ascending(xs, key)
    ensures Ascending(Filter(xs, p), key)
  {
    if |xs| > 0 {
      FilterAscending(xs[1..], p, key);
      var rest := Filter(xs[1..], p);
      forall j | 0 <= j < |rest|
        ensures key(xs[0]) < key(rest[j])
      {
        assert rest[j] in xs[1..];
      }
    }
  }

  /** Reversing turns ascending keys into descending ones. */
  lemma ReverseDescending<T(!new)>(xs: seq<T>, key: T -> int)
    requires Ascending(xs, key)
    ensures Descending(Reverse(xs), key)
  {
  }

  /** The first `n` of the reversed sequence are the `n` with the largest
      keys: everything left out has a smaller key than everything kept. */
  lemma TakeNewest<T(!new)>(xs: seq<T>, key: T -> int, n: nat)
    requires Ascending(xs, key)
    ensures forall x, y :: x in xs && x !in Take(Reverse(xs), n) && y in Take(Reverse(xs), n) ==> key(x) < key(y)
  {
    var rev := Reverse(xs);
    var r := Take(rev, n);
    forall x, y | x in xs && x !in r && y in r
      ensures key(x) < key(y)
    {
      var a :| 0 <= a < |xs| && xs[a] == x;
      var b :| 0 <= b < |r| && r[b] == y;
      assert rev[|xs| - 1 - a] == x;
      assert |xs| - 1 - a >= |r|;
      assert y == xs[|xs| - 1 - b];
    }
  }

  /** Appending an element whose key is the bound keeps the keys ascending
      and moves the bound up by one (an auto-increment insert). */
  lemma AppendAscending<T>(xs: seq<T>, key: T -> int, x: T, bound: int)
    requires Ascending(xs, key) && Below(xs, key, bound) && key(x) == bound
    ensures Ascending(xs + [x], key) && Below(xs + [x], key, bound + 1)
  {
  }

  /** Rewriting elements without touching their keys keeps keys ascending
      and below the same bound. */
  lemma SameKeysAscending<T>(xs: seq<T>, ys: seq<T>, key: T -> int, bound: int)
    requires |xs| == |ys| && forall i :: 0 <= i < |xs| ==> key(xs[i]) == key(ys[i])
    requires Ascending(xs, key) && Below(xs, key, bound)
    ensures Ascending(ys, key) && Below(ys, key, bound)
  {
  }

  /** Filtering keeps every key below a bound the input was below. */
  lemma FilterBelow<T(!new)>(xs: seq<T>, p: T -> bool, key: T -> int, bound: int)
    requires Below(xs, key, bound)
    ensures Below(Filter(xs, p), key, bound)
  {
    var r := Filter(xs, p);
    forall i | 0 <= i < |r|
      ensures key(r[i]) < bound
    {
      assert r[i] in xs;
    }
  }
}
