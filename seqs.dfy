/** The array operations the source uses: `filter`, `find` and counting. */
module Seqs {
  import opened Wrappers

  /** `xs.filter(x => x !== s)`: every occurrence of `s` removed, the rest kept in order. */
  function Without<T(==,!new)>(xs: seq<T>, s: T): (r: seq<T>)
    ensures forall x :: x in r <==> x in xs && x != s
    ensures s in xs <==> |r| < |xs|
    ensures s !in xs ==> r == xs
    decreases |xs|
  {
    if xs == [] then []
    else if xs[0] == s then Without(xs[1..], s)
    else [xs[0]] + Without(xs[1..], s)
  }

  /** The filter drops every copy of `s` and keeps every other element as often as it occurred. */
  lemma {:induction false} WithoutMultiset<T(!new)>(xs: seq<T>, s: T)
    ensures multiset(Without(xs, s)) == multiset(xs)[s := 0]
    decreases |xs|
  {
    if xs != [] {
      assert xs == [xs[0]] + xs[1..];
      assert multiset(xs) == multiset{xs[0]} + multiset(xs[1..]);
      WithoutMultiset(xs[1..], s);
    }
  }

  /** Filtering distributes over concatenation, so the survivors keep their relative order. */
  lemma {:induction false} WithoutConcat<T(!new)>(a: seq<T>, b: seq<T>, s: T)
    ensures Without(a + b, s) == Without(a, s) + Without(b, s)
    decreases |a|
  {
    if a == [] {
      assert a + b == b;
    } else {
      assert (a + b)[0] == a[0];
      assert (a + b)[1..] == a[1..] + b;
      WithoutConcat(a[1..], b, s);
    }
  }

  /** `xs.findIndex(p)`, with `None` for -1: the first index whose element satisfies `p`. */
  function FindFirst<T>(xs: seq<T>, p: T -> bool): (r: Option<nat>)
    ensures r.Some? ==> r.value < |xs| && p(xs[r.value])
    ensures r.Some? ==> forall j :: 0 <= j < r.value ==> !p(xs[j])
    ensures r.None? <==> forall j :: 0 <= j < |xs| ==> !p(xs[j])
    decreases |xs|
  {
    if xs == [] then None
    else if p(xs[0]) then Some(0)
    else
      match FindFirst(xs[1..], p)
      case None => None
      case Some(i) => Some(i + 1)
  }

  /** The number of elements of `xs` that satisfy `p`. */
  function Count<T>(xs: seq<T>, p: T -> bool): (n: nat)
    ensures n <= |xs|
    ensures n == 0 <==> forall j :: 0 <= j < |xs| ==> !p(xs[j])
    decreases |xs|
  {
    if xs == [] then 0
    else (if p(xs[0]) then 1 else 0) + Count(xs[1..], p)
  }

  lemma {:induction false} CountConcat<T>(a: seq<T>, b: seq<T>, p: T -> bool)
    ensures Count(a + b, p) == Count(a, p) + Count(b, p)
    decreases |a|
  {
    if a == [] {
      assert a + b == b;
    } else {
      assert (a + b)[0] == a[0];
      assert (a + b)[1..] == a[1..] + b;
      CountConcat(a[1..], b, p);
    }
  }
}
