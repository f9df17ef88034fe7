/** Order-preserving filtering over sequences. */
module Seqs {

  /** `a` is `b` with some elements dropped and the rest in their original order. */
  predicate IsSubsequence<T(==)>(a: seq<T>, b: seq<T>)
    decreases |b|
  {
    a == [] || (b != [] && ((a[0] == b[0] && IsSubsequence(a[1..], b[1..])) || IsSubsequence(a, b[1..])))
  }

  /**
   * `r` is `s` filtered by `keep`: exactly the accepted elements, each as often
   * as in `s`, in their original order.
   */
  ghost predicate Filtered<T(!new)>(r: seq<T>, s: seq<T>, keep: T -> bool) {
    && (forall x :: x in r <==> x in s && keep(x))
    && (forall i :: 0 <= i < |r| ==> keep(r[i]))
    && IsSubsequence(r, s)
    && ((forall i :: 0 <= i < |s| ==> keep(s[i])) ==> r == s)
    && (forall x :: multiset(r)[x] == if keep(x) then multiset(s)[x] else 0)
  }

  /** Keeping an accepted head extends a filtered tail to a filtered whole. */
  lemma KeepHead<T(!new)>(x: T, t: seq<T>, rest: seq<T>, keep: T -> bool)
    requires keep(x) && Filtered(rest, t, keep)
    ensures Filtered([x] + rest, [x] + t, keep)
  {
    var r, s := [x] + rest, [x] + t;
    assert multiset(r) == multiset{x} + multiset(rest);
    assert multiset(s) == multiset{x} + multiset(t);
    assert r[0] == s[0] && r[1..] == rest && s[1..] == t;
    forall y ensures y in r <==> y in s && keep(y) {
      assert y in r <==> y == x || y in rest;
      assert y in s <==> y == x || y in t;
    }
    if forall i :: 0 <= i < |s| ==> keep(s[i]) {
      assert forall i :: 0 <= i < |t| ==> keep(t[i]) by {
        forall i | 0 <= i < |t| ensures keep(t[i]) { assert t[i] == s[i + 1]; }
      }
    }
  }

  /** Dropping a refused head leaves a filtered tail filtered for the whole. */
  lemma DropHead<T(!new)>(x: T, t: seq<T>, rest: seq<T>, keep: T -> bool)
    requires !keep(x) && Filtered(rest, t, keep)
    ensures Filtered(rest, [x] + t, keep)
  {
    var s := [x] + t;
    assert multiset(s) == multiset{x} + multiset(t);
    assert s[1..] == t;
    forall y ensures y in rest <==> y in s && keep(y) {
      assert y in s <==> y == x || y in t;
    }
    assert !keep(s[0]);
  }

  /** The elements of `s` that `keep` accepts, in order, each as often as it occurs in `s`. */
  function Filter<T(==,!new)>(s: seq<T>, keep: T -> bool): (r: seq<T>)
    ensures Filtered(r, s, keep)
    decreases |s|
  {
    if s == [] then []
    else
      var rest := Filter(s[1..], keep);
      assert s == [s[0]] + s[1..];
      if keep(s[0]) then
        KeepHead(s[0], s[1..], rest, keep);
        [s[0]] + rest
      else
        DropHead(s[0], s[1..], rest, keep);
        rest
  }
}
