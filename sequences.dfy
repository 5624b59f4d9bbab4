/** `Array.prototype.filter` on sequences, and the facts about it that the model relies on. */
module Sequences {

  /** The elements of `s` that satisfy `p`, in their original order. */
  function Keep<T>(s: seq<T>, p: T -> bool): (r: seq<T>)
    ensures |r| <= |s|
    ensures forall x | x in r :: x in s && p(x)
    decreases |s|
  {
    if s == [] then [] else (if p(s[0]) then [s[0]] else []) + Keep(s[1..], p)
  }

  /** `a` is obtained from `b` by deleting elements, without reordering what is left. */
  ghost predicate IsSubsequence<T>(a: seq<T>, b: seq<T>)
    decreases |b|
  {
    if a == [] then true
    else if b == [] then false
    else (a[0] == b[0] && IsSubsequence(a[1..], b[1..])) || IsSubsequence(a, b[1..])
  }

  /** What `Keep` returns is an order-preserving subsequence of its input. */
  lemma {:induction false} KeepIsSubsequence<T>(s: seq<T>, p: T -> bool)
    ensures IsSubsequence(Keep(s, p), s)
    decreases |s|
  {
    if s != [] {
      KeepIsSubsequence(s[1..], p);
      var rest := Keep(s[1..], p);
      if p(s[0]) {
        assert Keep(s, p) == [s[0]] + rest;
        assert ([s[0]] + rest)[1..] == rest;
      } else {
        assert Keep(s, p) == rest;
      }
    }
  }

  /** Every element of `s` that satisfies `p` survives the filter. */
  lemma {:induction false} KeepRetains<T>(s: seq<T>, p: T -> bool, x: T)
    requires x in s && p(x)
    ensures x in Keep(s, p)
    decreases |s|
  {
    if s[0] != x {
      KeepRetains(s[1..], p, x);
    }
  }

  /** The filter keeps everything exactly when every element satisfies `p`. */
  lemma {:induction false} KeepAll<T>(s: seq<T>, p: T -> bool)
    ensures Keep(s, p) == s <==> forall i | 0 <= i < |s| :: p(s[i])
    decreases |s|
  {
    if s != [] {
      KeepAll(s[1..], p);
      if !p(s[0]) {
        assert |Keep(s, p)| < |s|;
      } else {
        assert forall i | 1 <= i < |s| :: s[i] == s[1..][i - 1];
      }
    }
  }

  /** The elements of `s` that satisfy `p`, as a multiset. */
  lemma {:induction false} KeepMultiset<T>(s: seq<T>, p: T -> bool, x: T)
    ensures multiset(Keep(s, p))[x] == if p(x) then multiset(s)[x] else 0
    decreases |s|
  {
    if s != [] {
      KeepMultiset(s[1..], p, x);
      assert s == [s[0]] + s[1..];
    }
  }
}
