/**
 * `Array.prototype.sort` with a comparator. JavaScript's sort is stable, so
 * it is modelled as an insertion sort that places each element after every
 * element it does not have to precede. `le(a, b)` stands for "the comparator
 * applied to (a, b) is not positive", i.e. `a` may stay before `b`.
 */
module Sorting {

  /** The comparator is a total preorder: any two elements compare, and comparison is transitive. */
  ghost predicate TotalPreorder<T(!new)>(le: (T, T) -> bool) {
    && (forall a, b :: le(a, b) || le(b, a))
    && (forall a, b, c :: le(a, b) && le(b, c) ==> le(a, c))
  }

  /** Every element may stand before every later one. */
  ghost predicate SortedBy<T>(xs: seq<T>, le: (T, T) -> bool) {
    forall i, j :: 0 <= i < j < |xs| ==> le(xs[i], xs[j])
  }

  /** Places `x` after the longest prefix of `s` whose elements may precede it. */
  function Insert<T>(x: T, s: seq<T>, le: (T, T) -> bool): (r: seq<T>)
    ensures multiset(r) == multiset(s) + multiset{x}
    decreases |s|
  {
    if s == [] then [x]
    else if le(s[0], x) then
      assert s == [s[0]] + s[1..];
      [s[0]] + Insert(x, s[1..], le)
    else [x] + s
  }

  /** The stable sort of `xs` under the comparator `le`: a permutation of `xs`. */
  function Sort<T>(xs: seq<T>, le: (T, T) -> bool): (r: seq<T>)
    ensures multiset(r) == multiset(xs)
    ensures |r| == |xs|
    decreases |xs|
  {
    if xs == [] then []
    else
      var init, last := xs[..|xs| - 1], xs[|xs| - 1];
      assert xs == init + [last];
      assert multiset(xs) == multiset(init) + multiset{last};
      Insert(last, Sort(init, le), le)
  }

  /** Sorting keeps exactly the elements it is given. */
  lemma SortedMembers<T>(xs: seq<T>, le: (T, T) -> bool)
    ensures forall i :: 0 <= i < |Sort(xs, le)| ==> Sort(xs, le)[i] in xs
  {
    var s := Sort(xs, le);
    forall i | 0 <= i < |s|
      ensures s[i] in xs
    {
      assert s[i] in multiset(s);
    }
  }

  lemma {:induction false} InsertSorted<T(!new)>(x: T, s: seq<T>, le: (T, T) -> bool)
    requires TotalPreorder(le)
    requires SortedBy(s, le)
    ensures SortedBy(Insert(x, s, le), le)
    decreases |s|
  {
    if s != [] {
      if le(s[0], x) {
        var rest := Insert(x, s[1..], le);
        InsertSorted(x, s[1..], le);
        forall y | y in rest
          ensures le(s[0], y)
        {
          assert y in multiset(rest);
          if y != x {
            assert y in multiset(s[1..]);
            var j :| 0 <= j < |s[1..]| && s[1..][j] == y;
            assert s[j + 1] == y;
          }
        }
        var r := [s[0]] + rest;
        forall i, j | 0 <= i < j < |r|
          ensures le(r[i], r[j])
        {
          if i == 0 {
            assert r[j] == rest[j - 1];
            assert r[j] in rest;
          } else {
            assert r[i] == rest[i - 1] && r[j] == rest[j - 1];
          }
        }
      } else {
        var r := [x] + s;
        forall i, j | 0 <= i < j < |r|
          ensures le(r[i], r[j])
        {
          if i == 0 {
            assert le(x, s[0]);
            if j > 1 {
              assert le(s[0], s[j - 1]);
            }
          } else {
            assert r[i] == s[i - 1] && r[j] == s[j - 1];
          }
        }
      }
    }
  }

  /** Under a total preorder the result of `Sort` is sorted. */
  lemma {:induction false} SortSorted<T(!new)>(xs: seq<T>, le: (T, T) -> bool)
    requires TotalPreorder(le)
    ensures SortedBy(Sort(xs, le), le)
    decreases |xs|
  {
    if xs != [] {
      SortSorted(xs[..|xs| - 1], le);
      InsertSorted(xs[|xs| - 1], Sort(xs[..|xs| - 1], le), le);
    }
  }

  /**
   * Cutting a sorted sequence at `k` splits its multiset in two, and every
   * element of the first part may precede every element of the second: the
   * first `k` are the least ones.
   */
  lemma SortedSplit<T>(s: seq<T>, k: nat, le: (T, T) -> bool)
    requires SortedBy(s, le)
    requires k <= |s|
    ensures multiset(s[..k]) + multiset(s[k..]) == multiset(s)
    ensures forall i, j :: 0 <= i < k <= j < |s| ==> le(s[i], s[j])
  {
    assert s == s[..k] + s[k..];
  }

  /** An integer key read as a comparator `key(a) - key(b)`: ascending order. */
  function Ascending<T(!new)>(key: T -> int): (le: (T, T) -> bool)
    ensures forall a, b :: le(a, b) == (key(a) <= key(b))
  {
    (a: T, b: T) => key(a) <= key(b)
  }

  /** The comparator `key(b) - key(a)`: descending order. */
  function Descending<T(!new)>(key: T -> int): (le: (T, T) -> bool)
    ensures forall a, b :: le(a, b) == (key(a) >= key(b))
  {
    (a: T, b: T) => key(a) >= key(b)
  }

  lemma AscendingIsTotalPreorder<T(!new)>(key: T -> int)
    ensures TotalPreorder(Ascending(key))
  {
  }

  lemma DescendingIsTotalPreorder<T(!new)>(key: T -> int)
    ensures TotalPreorder(Descending(key))
  {
  }
}
