/** `Array.prototype.filter` and the facts the registries rely on: it keeps
    exactly the elements that pass, each as often as it occurs, in their
    original order, and filtering again by the same or a weaker test
    changes nothing. */
module Seqs {

  function Filter<T>(s: seq<T>, keep: T -> bool): (r: seq<T>)
    ensures |r| <= |s|
    ensures forall x :: x in r ==> x in s && keep(x)
    ensures forall x :: x in s && keep(x) ==> x in r
    ensures forall x | x in s :: multiset(r)[x] == if keep(x) then multiset(s)[x] else 0
  {
    if s == [] then []
    else
      assert s == [s[0]] + s[1..];
      (if keep(s[0]) then [s[0]] else []) + Filter(s[1..], keep)
  }

  /** `sub` is `s` with some elements left out and the rest in their order. */
  ghost predicate IsSubsequence<T>(sub: seq<T>, s: seq<T>)
  {
    if sub == [] then true
    else if s == [] then false
    else (sub[0] == s[0] && IsSubsequence(sub[1..], s[1..])) || IsSubsequence(sub, s[1..])
  }

  lemma {:induction false} FilterKeepsOrder<T>(s: seq<T>, keep: T -> bool)
    ensures IsSubsequence(Filter(s, keep), s)
  {
    if s != [] {
      FilterKeepsOrder(s[1..], keep);
      var r := Filter(s, keep);
      if keep(s[0]) {
        assert r[0] == s[0] && r[1..] == Filter(s[1..], keep);
      } else {
        assert r == Filter(s[1..], keep);
      }
    }
  }

  lemma {:induction false} FilterAppend<T>(a: seq<T>, b: seq<T>, keep: T -> bool)
    ensures Filter(a + b, keep) == Filter(a, keep) + Filter(b, keep)
  {
    if a == [] {
      assert a + b == b;
    } else {
      assert (a + b)[1..] == a[1..] + b;
      FilterAppend(a[1..], b, keep);
    }
  }

  /** Filtering a filtered list by a stronger-or-equal test is filtering once. */
  lemma {:induction false} FilterTwice<T>(s: seq<T>, first: T -> bool, second: T -> bool)
    requires forall x :: second(x) ==> first(x)
    ensures Filter(Filter(s, first), second) == Filter(s, second)
  {
    if s != [] {
      FilterTwice(s[1..], first, second);
      var head := if first(s[0]) then [s[0]] else [];
      FilterAppend(head, Filter(s[1..], first), second);
    }
  }

  /** When every element passes, filtering returns the list itself. */
  lemma {:induction false} FilterAllPass<T>(s: seq<T>, keep: T -> bool)
    requires forall x :: x in s ==> keep(x)
    ensures Filter(s, keep) == s
  {
    if s != [] {
      assert forall x :: x in s[1..] ==> x in s;
      FilterAllPass(s[1..], keep);
      assert keep(s[0]);
      assert Filter(s, keep) == [s[0]] + Filter(s[1..], keep);
      assert s == [s[0]] + s[1..];
    }
  }

  /** `Array.prototype.reduce(f)` without a seed, from index `n` on with
      accumulator `acc`; the whole reduction of a non-empty `s` is
      `ReduceFrom(s, f, s[0], 1)`. */
  function ReduceFrom<T>(s: seq<T>, f: (T, T) -> T, acc: T, n: nat): T
    requires n <= |s|
    decreases |s| - n
  {
    if n == |s| then acc else ReduceFrom(s, f, f(acc, s[n]), n + 1)
  }
}
