/** Result types and facts about sequences shared by every module. */
module Prelude {

  datatype Option<+T> = None | Some(value: T)

  datatype Result<+R, +E> = Success(value: R) | Failure(error: E)

  const U64_MAX: nat := 0xFFFF_FFFF_FFFF_FFFF

  /** Rust's `u64::saturating_add`, and `usize::saturating_add` on a 64-bit target. */
  function SaturatingAdd(a: nat, b: nat): nat
  {
    if a + b <= U64_MAX then a + b else U64_MAX
  }

  /** Rust's `saturating_sub` on unsigned integers. */
  function SaturatingSub(a: nat, b: nat): nat
  {
    if b <= a then a - b else 0
  }

  function Min(a: nat, b: nat): nat
  {
    if a <= b then a else b
  }

  /** No value occurs twice. */
  ghost predicate Distinct<T>(xs: seq<T>)
  {
    forall i, j :: 0 <= i < j < |xs| ==> xs[i] != xs[j]
  }

  /** The keys never fall. */
  ghost predicate Ascending<T>(key: T -> nat, xs: seq<T>)
  {
    forall i, j :: 0 <= i < j < |xs| ==> key(xs[i]) <= key(xs[j])
  }

  ghost predicate Permutes<T>(xs: seq<T>, ys: seq<T>)
  {
    multiset(xs) == multiset(ys)
  }

  lemma {:induction false} PermutationKeepsMembers<T>(xs: seq<T>, ys: seq<T>, x: T)
    requires Permutes(xs, ys)
    ensures x in xs <==> x in ys
  {
    assert x in multiset(xs) <==> x in multiset(ys);
  }

  /** Re-bracketing a concatenation around its first element. */
  lemma {:induction false} HeadThen<T>(x: T, a: seq<T>, b: seq<T>, c: seq<T>)
    ensures ([x] + a + b) + c == [x] + (a + (b + c))
    ensures [x] + a + (b + c) == [x] + (a + (b + c))
    ensures ([x] + (a + (b + c)))[1..] == a + (b + c)
  {
  }

  lemma {:induction false} PermutationLengths<T>(xs: seq<T>, ys: seq<T>)
    requires Permutes(xs, ys)
    ensures |xs| == |ys|
  {
    assert |multiset(xs)| == |multiset(ys)|;
  }

  function WithoutAt<T>(xs: seq<T>, k: nat): seq<T>
    requires k < |xs|
  {
    xs[..k] + xs[k + 1..]
  }

  lemma {:induction false} WithoutAtMultiset<T>(xs: seq<T>, k: nat)
    requires k < |xs|
    ensures multiset(xs) == multiset(WithoutAt(xs, k)) + multiset{xs[k]}
  {
    assert xs == xs[..k] + [xs[k]] + xs[k + 1..];
  }

  /** Removing the same element keeps permutations permutations. */
  lemma {:induction false} WithoutSame<T>(xs: seq<T>, j: nat, ys: seq<T>, k: nat)
    requires j < |xs| && k < |ys| && xs[j] == ys[k]
    ensures Permutes(xs, ys) <==> Permutes(WithoutAt(xs, j), WithoutAt(ys, k))
  {
    WithoutAtMultiset(xs, j);
    WithoutAtMultiset(ys, k);
    if Permutes(xs, ys) {
      assert multiset(WithoutAt(xs, j)) == multiset(xs) - multiset{xs[j]};
      assert multiset(WithoutAt(ys, k)) == multiset(ys) - multiset{ys[k]};
    }
  }

  function Mapped<T, U>(f: T -> U, xs: seq<T>): (r: seq<U>)
    ensures |r| == |xs|
    ensures forall i :: 0 <= i < |xs| ==> r[i] == f(xs[i])
  {
    seq(|xs|, i requires 0 <= i < |xs| => f(xs[i]))
  }

  /** A function takes permutations to permutations. */
  lemma {:induction false} MapPermutes<T, U>(f: T -> U, xs: seq<T>, ys: seq<T>)
    requires Permutes(xs, ys)
    ensures Permutes(Mapped(f, xs), Mapped(f, ys))
    decreases |xs|
  {
    PermutationLengths(xs, ys);
    if xs != [] {
      hide Permutes;
      var n := |xs| - 1;
      PermutationKeepsMembers(xs, ys, xs[n]);
      var k :| 0 <= k < |ys| && ys[k] == xs[n];
      WithoutSame(xs, n, ys, k);
      MapPermutes(f, WithoutAt(xs, n), WithoutAt(ys, k));
      assert Mapped(f, WithoutAt(xs, n)) == WithoutAt(Mapped(f, xs), n);
      assert Mapped(f, WithoutAt(ys, k)) == WithoutAt(Mapped(f, ys), k);
      WithoutSame(Mapped(f, xs), n, Mapped(f, ys), k);
    }
  }

  // ---- sorting ----

  ghost predicate TotalPreorder<T(!new)>(leq: (T, T) -> bool)
  {
    && (forall a, b :: leq(a, b) || leq(b, a))
    && forall a, b, c :: leq(a, b) && leq(b, c) ==> leq(a, c)
  }

  ghost predicate Ordered<T>(leq: (T, T) -> bool, xs: seq<T>)
  {
    forall i, j :: 0 <= i < j < |xs| ==> leq(xs[i], xs[j])
  }

  function Insert<T>(leq: (T, T) -> bool, xs: seq<T>, x: T): seq<T>
    decreases |xs|
  {
    if xs == [] || leq(xs[|xs| - 1], x) then xs + [x]
    else Insert(leq, xs[..|xs| - 1], x) + [xs[|xs| - 1]]
  }

  lemma {:induction false} InsertPermutes<T>(leq: (T, T) -> bool, xs: seq<T>, x: T)
    ensures Permutes(Insert(leq, xs, x), xs + [x])
    decreases |xs|
  {
    if !(xs == [] || leq(xs[|xs| - 1], x)) {
      InsertPermutes(leq, xs[..|xs| - 1], x);
      assert xs == xs[..|xs| - 1] + [xs[|xs| - 1]];
    }
  }

  /** A bound on the elements and the inserted one bounds the result. */
  lemma {:induction false} InsertBounded<T>(leq: (T, T) -> bool, xs: seq<T>, x: T, bound: T)
    requires leq(x, bound) && forall i :: 0 <= i < |xs| ==> leq(xs[i], bound)
    ensures forall i :: 0 <= i < |Insert(leq, xs, x)| ==> leq(Insert(leq, xs, x)[i], bound)
    decreases |xs|
  {
    if !(xs == [] || leq(xs[|xs| - 1], x)) {
      InsertBounded(leq, xs[..|xs| - 1], x, bound);
    }
  }

  lemma {:induction false} InsertOrders<T(!new)>(leq: (T, T) -> bool, xs: seq<T>, x: T)
    requires TotalPreorder(leq) && Ordered(leq, xs)
    ensures Ordered(leq, Insert(leq, xs, x))
    decreases |xs|
  {
    if xs == [] || leq(xs[|xs| - 1], x) {
      forall i | 0 <= i < |xs|
        ensures leq(xs[i], x)
      {
        assert i < |xs| - 1 ==> leq(xs[i], xs[|xs| - 1]);
      }
    } else {
      InsertOrders(leq, xs[..|xs| - 1], x);
      InsertBounded(leq, xs[..|xs| - 1], x, xs[|xs| - 1]);
    }
  }

  /** A stable sort. */
  function Sort<T>(leq: (T, T) -> bool, xs: seq<T>): seq<T>
    decreases |xs|
  {
    if xs == [] then [] else Insert(leq, Sort(leq, xs[..|xs| - 1]), xs[|xs| - 1])
  }

  lemma {:induction false} SortOrders<T(!new)>(leq: (T, T) -> bool, xs: seq<T>)
    requires TotalPreorder(leq)
    ensures Ordered(leq, Sort(leq, xs)) && Permutes(Sort(leq, xs), xs)
    decreases |xs|
  {
    if xs != [] {
      var n := |xs| - 1;
      SortOrders(leq, xs[..n]);
      InsertOrders(leq, Sort(leq, xs[..n]), xs[n]);
      InsertPermutes(leq, Sort(leq, xs[..n]), xs[n]);
      assert xs == xs[..n] + [xs[n]];
    }
  }

  // ---- filtering ----

  function Filter<T>(p: T -> bool, xs: seq<T>): seq<T>
  {
    if xs == [] then []
    else Filter(p, xs[..|xs| - 1]) + if p(xs[|xs| - 1]) then [xs[|xs| - 1]] else []
  }

  lemma {:induction false} FilterMember<T>(p: T -> bool, xs: seq<T>, x: T)
    ensures x in Filter(p, xs) <==> x in xs && p(x)
  {
    if xs != [] {
      FilterMember(p, xs[..|xs| - 1], x);
      assert xs == xs[..|xs| - 1] + [xs[|xs| - 1]];
    }
  }

  lemma {:induction false} FilterConcat<T>(p: T -> bool, xs: seq<T>, ys: seq<T>)
    ensures Filter(p, xs + ys) == Filter(p, xs) + Filter(p, ys)
    decreases |ys|
  {
    if ys == [] {
      assert xs + ys == xs;
    } else {
      FilterConcat(p, xs, ys[..|ys| - 1]);
      assert (xs + ys)[..|xs + ys| - 1] == xs + ys[..|ys| - 1];
    }
  }

  lemma {:induction false} FilterWithout<T>(p: T -> bool, xs: seq<T>, k: nat)
    requires k < |xs|
    ensures multiset(Filter(p, xs)) == multiset(Filter(p, WithoutAt(xs, k))) + if p(xs[k]) then multiset{xs[k]} else multiset{}
  {
    FilterConcat(p, xs[..k], xs[k + 1..]);
    FilterConcat(p, xs[..k], [xs[k]] + xs[k + 1..]);
    FilterConcat(p, [xs[k]], xs[k + 1..]);
    assert xs == xs[..k] + ([xs[k]] + xs[k + 1..]);
    assert [xs[k]][..0] == [];
  }

  lemma {:induction false} FilterPermutes<T>(p: T -> bool, xs: seq<T>, ys: seq<T>)
    requires Permutes(xs, ys)
    ensures Permutes(Filter(p, xs), Filter(p, ys))
    decreases |xs|
  {
    PermutationLengths(xs, ys);
    if xs != [] {
      var n := |xs| - 1;
      PermutationKeepsMembers(xs, ys, xs[n]);
      var k :| 0 <= k < |ys| && ys[k] == xs[n];
      WithoutSame(xs, n, ys, k);
      FilterPermutes(p, WithoutAt(xs, n), WithoutAt(ys, k));
      FilterWithout(p, xs, n);
      FilterWithout(p, ys, k);
    }
  }

  lemma {:induction false} FilterSplit<T>(p: T -> bool, xs: seq<T>, n: nat)
    requires n <= |xs| && (forall i :: 0 <= i < n ==> p(xs[i])) && forall i :: n <= i < |xs| ==> !p(xs[i])
    ensures Filter(p, xs) == xs[..n]
    decreases |xs|
  {
    if xs != [] {
      var k := |xs| - 1;
      FilterSplit(p, xs[..k], if n <= k then n else k);
      assert n <= k ==> xs[..k][..n] == xs[..n];
      assert n == |xs| ==> xs[..n] == xs[..k] + [xs[k]];
    }
  }
}
