/**
 * The array methods the core is written in (`filter`, `find`, `findIndex`,
 * `map`, `slice`, `splice`, `flatMap`), as functions on sequences, with the
 * facts about them that the rest of the model relies on.
 */
module Lists {
  import opened Wrappers

  /** `xs.filter(p)`: the elements satisfying `p`, in their original order. */
  function Filter<T>(xs: seq<T>, p: T -> bool): (r: seq<T>)
    ensures |r| <= |xs|
    ensures forall i :: 0 <= i < |r| ==> p(r[i]) && r[i] in xs
    ensures forall i :: 0 <= i < |xs| && p(xs[i]) ==> xs[i] in r
    decreases |xs|
  {
    if xs == [] then []
    else if p(xs[0]) then [xs[0]] + Filter(xs[1..], p)
    else Filter(xs[1..], p)
  }

  /**
   * `idx` lists strictly increasing positions of `xs` holding the elements
   * of `r` in turn, and every position whose element satisfies `p` is among them.
   */
  ghost predicate InOrderAt<T>(xs: seq<T>, p: T -> bool, r: seq<T>, idx: seq<nat>) {
    && |idx| == |r|
    && (forall i :: 0 <= i < |idx| ==> idx[i] < |xs| && xs[idx[i]] == r[i])
    && (forall i, j :: 0 <= i < j < |idx| ==> idx[i] < idx[j])
    && (forall k :: 0 <= k < |xs| && p(xs[k]) ==> k in idx)
  }

  function Shift(idx: seq<nat>): (r: seq<nat>)
    ensures |r| == |idx| && forall i :: 0 <= i < |idx| ==> r[i] == idx[i] + 1
  {
    seq(|idx|, i requires 0 <= i < |idx| => idx[i] + 1)
  }

  /** Positions in a tail, shifted by one, hold the same elements of the whole and cover every position after the head. */
  lemma ShiftInOrderAt<T>(x: T, tail: seq<T>, p: T -> bool, r: seq<T>, idx: seq<nat>)
    requires InOrderAt(tail, p, r, idx)
    ensures var xs, sh := [x] + tail, Shift(idx);
      && (forall i :: 0 <= i < |sh| ==> 1 <= sh[i] < |xs| && xs[sh[i]] == r[i])
      && (forall k :: 1 <= k < |xs| && p(xs[k]) ==> k in sh)
  {
    var xs, sh := [x] + tail, Shift(idx);
    forall i | 0 <= i < |sh|
      ensures 1 <= sh[i] < |xs| && xs[sh[i]] == r[i]
    {
      assert xs[idx[i] + 1] == tail[idx[i]];
    }
    forall k | 1 <= k < |xs| && p(xs[k])
      ensures k in sh
    {
      assert tail[k - 1] == xs[k];
      var i :| 0 <= i < |idx| && idx[i] == k - 1;
      assert sh[i] == k;
    }
  }

  /** A head that is kept takes position 0, before the tail's positions shifted by one. */
  lemma KeepHeadInOrderAt<T>(x: T, tail: seq<T>, p: T -> bool, r: seq<T>, idx: seq<nat>)
    requires InOrderAt(tail, p, r, idx) && p(x)
    ensures InOrderAt([x] + tail, p, [x] + r, [0] + Shift(idx))
  {
    var xs, sh, r', idx' := [x] + tail, Shift(idx), [x] + r, [0] + Shift(idx);
    ShiftInOrderAt(x, tail, p, r, idx);
    forall i | 0 <= i < |idx'|
      ensures idx'[i] < |xs| && xs[idx'[i]] == r'[i]
    {
      if i > 0 {
        assert idx'[i] == sh[i - 1] && r'[i] == r[i - 1];
      }
    }
    forall i, j | 0 <= i < j < |idx'|
      ensures idx'[i] < idx'[j]
    {
      assert idx'[j] == sh[j - 1];
      if i > 0 {
        assert idx'[i] == sh[i - 1];
      }
    }
    forall k | 0 <= k < |xs| && p(xs[k])
      ensures k in idx'
    {
      if k > 0 {
        assert k in sh;
      }
    }
  }

  /** A head that is dropped leaves the tail's positions, shifted by one. */
  lemma DropHeadInOrderAt<T>(x: T, tail: seq<T>, p: T -> bool, r: seq<T>, idx: seq<nat>)
    requires InOrderAt(tail, p, r, idx) && !p(x)
    ensures InOrderAt([x] + tail, p, r, Shift(idx))
  {
    var xs, sh := [x] + tail, Shift(idx);
    ShiftInOrderAt(x, tail, p, r, idx);
    forall i, j | 0 <= i < j < |sh|
      ensures sh[i] < sh[j]
    {
      assert idx[i] < idx[j];
    }
    forall k | 0 <= k < |xs| && p(xs[k])
      ensures k in sh
    {
      assert k != 0;
    }
  }

  /**
   * The filtered elements sit in `xs` at strictly increasing positions,
   * and every position whose element satisfies `p` is among them:
   * `filter` keeps the order and drops nothing it should keep.
   */
  lemma {:induction false} FilterPositions<T>(xs: seq<T>, p: T -> bool) returns (idx: seq<nat>)
    ensures InOrderAt(xs, p, Filter(xs, p), idx)
    decreases |xs|
  {
    if xs == [] {
      idx := [];
    } else {
      var rest := FilterPositions(xs[1..], p);
      assert [xs[0]] + xs[1..] == xs;
      if p(xs[0]) {
        KeepHeadInOrderAt(xs[0], xs[1..], p, Filter(xs[1..], p), rest);
        idx := [0] + Shift(rest);
      } else {
        DropHeadInOrderAt(xs[0], xs[1..], p, Filter(xs[1..], p), rest);
        idx := Shift(rest);
      }
    }
  }

  /** Filtering distributes over concatenation, so it keeps the relative order. */
  lemma {:induction false} FilterConcat<T>(a: seq<T>, b: seq<T>, p: T -> bool)
    ensures Filter(a + b, p) == Filter(a, p) + Filter(b, p)
    decreases |a|
  {
    if a != [] {
      assert (a + b)[0] == a[0] && (a + b)[1..] == a[1..] + b;
      FilterConcat(a[1..], b, p);
    } else {
      assert a + b == b;
    }
  }

  /** Filtering with a predicate every element satisfies changes nothing. */
  lemma {:induction false} FilterKeepsAll<T>(xs: seq<T>, p: T -> bool)
    requires forall i :: 0 <= i < |xs| ==> p(xs[i])
    ensures Filter(xs, p) == xs
    decreases |xs|
  {
    if xs != [] {
      FilterKeepsAll(xs[1..], p);
    }
  }

  /** Filtering with a predicate no element satisfies leaves nothing. */
  lemma {:induction false} FilterDropsAll<T>(xs: seq<T>, p: T -> bool)
    requires forall i :: 0 <= i < |xs| ==> !p(xs[i])
    ensures Filter(xs, p) == []
    decreases |xs|
  {
    if xs != [] {
      FilterDropsAll(xs[1..], p);
    }
  }

  /** A predicate and its complement split a sequence: the two counts add up. */
  lemma {:induction false} FilterSplitCount<T>(xs: seq<T>, p: T -> bool, q: T -> bool)
    requires forall x :: q(x) == !p(x)
    ensures |Filter(xs, p)| + |Filter(xs, q)| == |xs|
    decreases |xs|
  {
    if xs != [] {
      FilterSplitCount(xs[1..], p, q);
    }
  }

  /** Filtering keeps a sub-multiset of the input. */
  lemma {:induction false} FilterSubMultiset<T>(xs: seq<T>, p: T -> bool)
    ensures multiset(Filter(xs, p)) <= multiset(xs)
    decreases |xs|
  {
    if xs != [] {
      FilterSubMultiset(xs[1..], p);
      assert xs == [xs[0]] + xs[1..];
    }
  }

  /** Filtering by `p` and then by a stronger `q` is filtering by `q` alone. */
  lemma {:induction false} FilterNested<T>(xs: seq<T>, p: T -> bool, q: T -> bool)
    requires forall x :: q(x) ==> p(x)
    ensures Filter(Filter(xs, p), q) == Filter(xs, q)
    decreases |xs|
  {
    if xs != [] {
      FilterNested(xs[1..], p, q);
      if p(xs[0]) {
        assert Filter(xs, p) == [xs[0]] + Filter(xs[1..], p);
        assert ([xs[0]] + Filter(xs[1..], p))[1..] == Filter(xs[1..], p);
      }
    }
  }

  /** Counting with a predicate that is the disjoint union of two counts their sum. */
  lemma {:induction false} FilterDisjointUnionCount<T>(xs: seq<T>, p: T -> bool, q: T -> bool, pq: T -> bool)
    requires forall x :: !(p(x) && q(x))
    requires forall x :: pq(x) == (p(x) || q(x))
    ensures |Filter(xs, pq)| == |Filter(xs, p)| + |Filter(xs, q)|
    decreases |xs|
  {
    if xs != [] {
      FilterDisjointUnionCount(xs[1..], p, q, pq);
    }
  }

  /** Filtering with two predicates that agree on every element gives the same result. */
  lemma {:induction false} FilterCongruent<T>(xs: seq<T>, p: T -> bool, q: T -> bool)
    requires forall i :: 0 <= i < |xs| ==> p(xs[i]) == q(xs[i])
    ensures Filter(xs, p) == Filter(xs, q)
    decreases |xs|
  {
    if xs != [] {
      FilterCongruent(xs[1..], p, q);
    }
  }

  /** `xs.slice(0, k)`: the first `k` elements, or all of them when there are fewer. */
  function Take<T>(xs: seq<T>, k: nat): (r: seq<T>)
    ensures |r| == if |xs| <= k then |xs| else k
    ensures r == xs[..|r|]
  {
    if |xs| <= k then xs else xs[..k]
  }

  /** `xs.reverse()` on a copy. */
  function Reverse<T>(xs: seq<T>): (r: seq<T>)
    ensures |r| == |xs|
    ensures forall i :: 0 <= i < |xs| ==> r[i] == xs[|xs| - 1 - i]
  {
    seq(|xs|, i requires 0 <= i < |xs| => xs[|xs| - 1 - i])
  }

  /** Reversing keeps the multiset of elements. */
  lemma {:induction false} ReverseMultiset<T>(xs: seq<T>)
    ensures multiset(Reverse(xs)) == multiset(xs)
    decreases |xs|
  {
    if xs != [] {
      var init := xs[..|xs| - 1];
      ReverseMultiset(init);
      assert Reverse(xs) == [xs[|xs| - 1]] + Reverse(init);
      assert xs == init + [xs[|xs| - 1]];
    }
  }

  /** `xs.findIndex(p)`: the first index whose element satisfies `p`, or -1. */
  function FirstIndex<T>(xs: seq<T>, p: T -> bool): (r: int)
    ensures -1 <= r < |xs|
    ensures r >= 0 ==> p(xs[r]) && forall j :: 0 <= j < r ==> !p(xs[j])
    ensures r == -1 ==> forall j :: 0 <= j < |xs| ==> !p(xs[j])
    decreases |xs|
  {
    if xs == [] then -1
    else if p(xs[0]) then 0
    else
      var k := FirstIndex(xs[1..], p);
      if k == -1 then -1 else k + 1
  }

  /** `xs.find(p)`: the first element satisfying `p`, if any. */
  function Find<T>(xs: seq<T>, p: T -> bool): (r: Option<T>)
    ensures r.None? <==> forall j :: 0 <= j < |xs| ==> !p(xs[j])
    ensures r.Some? ==> r.value == xs[FirstIndex(xs, p)] && p(r.value)
  {
    var i := FirstIndex(xs, p);
    if i < 0 then None else Some(xs[i])
  }

  /** `xs.map(f)`. */
  function Map<T, U>(xs: seq<T>, f: T -> U): (r: seq<U>)
    ensures |r| == |xs|
    ensures forall i :: 0 <= i < |xs| ==> r[i] == f(xs[i])
  {
    seq(|xs|, i requires 0 <= i < |xs| => f(xs[i]))
  }

  /** `xs.splice(i, 1)` on a copy: drops the element at index `i`. */
  function RemoveAt<T>(xs: seq<T>, i: nat): (r: seq<T>)
    requires i < |xs|
    ensures |r| == |xs| - 1
    ensures r[..i] == xs[..i] && r[i..] == xs[i + 1..]
  {
    xs[..i] + xs[i + 1..]
  }

  /** `xss.flat()`: the inner sequences one after another. */
  function Flatten<T>(xss: seq<seq<T>>): seq<T>
    decreases |xss|
  {
    if xss == [] then [] else xss[0] + Flatten(xss[1..])
  }

  /** Flattening distributes over concatenation of the outer sequence. */
  lemma {:induction false} FlattenConcat<T>(a: seq<seq<T>>, b: seq<seq<T>>)
    ensures Flatten(a + b) == Flatten(a) + Flatten(b)
    decreases |a|
  {
    if a != [] {
      assert (a + b)[0] == a[0] && (a + b)[1..] == a[1..] + b;
      FlattenConcat(a[1..], b);
    } else {
      assert a + b == b;
    }
  }

  /** The sum of a sequence of counts. */
  function Sum(xs: seq<nat>): nat
    decreases |xs|
  {
    if xs == [] then 0 else xs[0] + Sum(xs[1..])
  }

  /** Sums add over concatenation. */
  lemma {:induction false} SumConcat(a: seq<nat>, b: seq<nat>)
    ensures Sum(a + b) == Sum(a) + Sum(b)
    decreases |a|
  {
    if a != [] {
      assert (a + b)[0] == a[0] && (a + b)[1..] == a[1..] + b;
      SumConcat(a[1..], b);
    } else {
      assert a + b == b;
    }
  }

  /** No element occurs twice. */
  ghost predicate Distinct<T>(xs: seq<T>) {
    forall i, j :: 0 <= i < j < |xs| ==> xs[i] != xs[j]
  }

  /** An element of a flattened sequence comes from one of the inner sequences, and every inner element is in it. */
  lemma {:induction false} FlattenMember<T>(xss: seq<seq<T>>, x: T)
    ensures x in Flatten(xss) <==> exists i :: 0 <= i < |xss| && x in xss[i]
    decreases |xss|
  {
    if xss != [] {
      FlattenMember(xss[1..], x);
      if exists i :: 0 <= i < |xss[1..]| && x in xss[1..][i] {
        var i :| 0 <= i < |xss[1..]| && x in xss[1..][i];
        assert x in xss[i + 1];
      }
      if exists i :: 0 <= i < |xss| && x in xss[i] {
        var i :| 0 <= i < |xss| && x in xss[i];
        if i > 0 {
          assert xss[1..][i - 1] == xss[i];
        }
      }
    }
  }

  /** In a duplicate-free sequence every element occurs once. */
  lemma {:induction false} DistinctCountsOne<T>(xs: seq<T>, x: T)
    requires Distinct(xs)
    ensures multiset(xs)[x] <= 1
    decreases |xs|
  {
    if xs != [] {
      DistinctCountsOne(xs[1..], x);
      assert xs == [xs[0]] + xs[1..];
      if xs[0] == x {
        assert x !in xs[1..];
      }
    }
  }

  /** A permutation of a duplicate-free sequence is duplicate-free. */
  lemma DistinctPermutation<T>(a: seq<T>, b: seq<T>)
    requires Distinct(a) && multiset(a) == multiset(b)
    ensures Distinct(b)
  {
    forall i, j | 0 <= i < j < |b|
      ensures b[i] != b[j]
    {
      if b[i] == b[j] {
        var x := b[i];
        assert b == b[..i] + [x] + b[i + 1..j] + [x] + b[j + 1..];
        assert multiset(b)[x] >= 2;
        DistinctCountsOne(a, x);
        assert false;
      }
    }
  }

  function IdIs<T>(idOf: T -> string, id: string): T -> bool {
    (x: T) => idOf(x) == id
  }

  function IdIsNot<T>(idOf: T -> string, id: string): T -> bool {
    (x: T) => idOf(x) != id
  }

  /**
   * `items.filter(x => x.id !== id)`, as the form's `removeContact` and
   * the app's delete handlers write it: every entry with the id goes, every
   * other entry stays.
   */
  function RemoveById<T(!new)>(items: seq<T>, idOf: T -> string, id: string): (r: seq<T>)
    ensures r == Filter(items, IdIsNot(idOf, id))
    ensures forall x :: x in r <==> x in items && idOf(x) != id
    ensures |r| + |Filter(items, IdIs(idOf, id))| == |items|
  {
    FilterSplitCount(items, IdIsNot(idOf, id), IdIs(idOf, id));
    var r := Filter(items, IdIsNot(idOf, id));
    forall x | x in items && idOf(x) != id
      ensures x in r
    {
      var i :| 0 <= i < |items| && items[i] == x;
    }
    r
  }

  /** The entries that survive a removal keep their relative order. */
  lemma RemoveByIdInOrder<T(!new)>(items: seq<T>, idOf: T -> string, id: string) returns (idx: seq<nat>)
    ensures InOrderAt(items, IdIsNot(idOf, id), RemoveById(items, idOf, id), idx)
  {
    idx := FilterPositions(items, IdIsNot(idOf, id));
  }

  /** Removing an id no entry has changes nothing. */
  lemma RemoveMissingId<T(!new)>(items: seq<T>, idOf: T -> string, id: string)
    requires forall i :: 0 <= i < |items| ==> idOf(items[i]) != id
    ensures RemoveById(items, idOf, id) == items
  {
    FilterKeepsAll(items, IdIsNot(idOf, id));
  }

  /** Removing the entry just added under a fresh id restores the list. */
  lemma RemoveUndoesAdd<T(!new)>(items: seq<T>, idOf: T -> string, entry: T)
    requires forall i :: 0 <= i < |items| ==> idOf(items[i]) != idOf(entry)
    ensures RemoveById(items + [entry], idOf, idOf(entry)) == items
  {
    var p := IdIsNot(idOf, idOf(entry));
    FilterConcat(items, [entry], p);
    FilterKeepsAll(items, p);
    assert Filter([entry], p) == [];
  }
}
