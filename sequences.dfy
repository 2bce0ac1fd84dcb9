/** Order-preserving selection from a sequence, shared by the random selector and the inventory filters. */
module Sequences {

  /** The elements of `xs` whose position is marked in `mask`, in their original order. */
  function Select<T>(xs: seq<T>, mask: seq<bool>): (ys: seq<T>)
    requires |mask| == |xs|
    ensures |ys| <= |xs|
    ensures forall y :: y in ys ==> y in xs
  {
    if xs == [] then []
    else (if mask[0] then [xs[0]] else []) + Select(xs[1..], mask[1..])
  }

  /** `ys` can be obtained from `xs` by deleting elements. */
  ghost predicate IsSubsequence<T>(ys: seq<T>, xs: seq<T>)
    decreases |xs|
  {
    if ys == [] then true
    else if xs == [] then false
    else (ys[0] == xs[0] && IsSubsequence(ys[1..], xs[1..])) || IsSubsequence(ys, xs[1..])
  }

  lemma {:induction false} SelectIsSubsequence<T>(xs: seq<T>, mask: seq<bool>)
    requires |mask| == |xs|
    ensures IsSubsequence(Select(xs, mask), xs)
    decreases |xs|
  {
    if xs != [] {
      SelectIsSubsequence(xs[1..], mask[1..]);
      var rest := Select(xs[1..], mask[1..]);
      if mask[0] {
        assert Select(xs, mask) == [xs[0]] + rest;
        assert ([xs[0]] + rest)[1..] == rest;
      } else {
        assert Select(xs, mask) == rest;
      }
    }
  }

  /** Deleting from a sequence obtained by deleting gives a sequence obtained by deleting. */
  lemma {:induction false} IsSubsequenceTransitive<T>(a: seq<T>, b: seq<T>, c: seq<T>)
    requires IsSubsequence(a, b) && IsSubsequence(b, c)
    ensures IsSubsequence(a, c)
    decreases |c|
  {
    if a != [] {
      if IsSubsequence(b, c[1..]) {
        IsSubsequenceTransitive(a, b, c[1..]);
      } else if a[0] == b[0] && IsSubsequence(a[1..], b[1..]) {
        IsSubsequenceTransitive(a[1..], b[1..], c[1..]);
      } else {
        IsSubsequenceTransitive(a, b[1..], c[1..]);
      }
    }
  }

  /** A sequence is a subsequence of itself. */
  lemma {:induction false} IsSubsequenceReflexive<T>(a: seq<T>)
    ensures IsSubsequence(a, a)
    decreases |a|
  {
    if a != [] {
      IsSubsequenceReflexive(a[1..]);
    }
  }

  /** A marked element is selected. */
  lemma {:induction false} SelectKeepsMarked<T>(xs: seq<T>, mask: seq<bool>, k: nat)
    requires |mask| == |xs| && k < |xs| && mask[k]
    ensures xs[k] in Select(xs, mask)
    decreases |xs|
  {
    if k > 0 {
      SelectKeepsMarked(xs[1..], mask[1..], k - 1);
    }
  }

  /** The number of marked positions. */
  function Count(mask: seq<bool>): (n: nat)
    ensures n <= |mask|
  {
    if mask == [] then 0 else (if mask[0] then 1 else 0) + Count(mask[1..])
  }

  lemma {:induction false} SelectLength<T>(xs: seq<T>, mask: seq<bool>)
    requires |mask| == |xs|
    ensures |Select(xs, mask)| == Count(mask)
    decreases |xs|
  {
    if xs != [] {
      SelectLength(xs[1..], mask[1..]);
    }
  }

  /** An element is selected exactly when some marked position holds it. */
  lemma {:induction false} SelectMembership<T>(xs: seq<T>, mask: seq<bool>, y: T)
    requires |mask| == |xs|
    ensures y in Select(xs, mask) <==> exists i :: 0 <= i < |xs| && mask[i] && xs[i] == y
    decreases |xs|
  {
    if xs != [] {
      SelectMembership(xs[1..], mask[1..], y);
      if y in Select(xs[1..], mask[1..]) {
        var i :| 0 <= i < |xs[1..]| && mask[1..][i] && xs[1..][i] == y;
        assert mask[i + 1] && xs[i + 1] == y;
      }
      if exists i :: 0 <= i < |xs| && mask[i] && xs[i] == y {
        var i :| 0 <= i < |xs| && mask[i] && xs[i] == y;
        if i > 0 {
          assert mask[1..][i - 1] && xs[1..][i - 1] == y;
        }
      }
    }
  }

  /** Positions marked in a mask and in its complement add up to the whole. */
  lemma {:induction false} CountComplement(m: seq<bool>, n: seq<bool>)
    requires |m| == |n| && forall i :: 0 <= i < |m| ==> n[i] == !m[i]
    ensures Count(m) + Count(n) == |m|
    decreases |m|
  {
    if m != [] {
      CountComplement(m[1..], n[1..]);
    }
  }

  /** Whether `xs` contains no element twice. */
  predicate NoDuplicates<T(==)>(xs: seq<T>)
  {
    forall i, j :: 0 <= i < j < |xs| ==> xs[i] != xs[j]
  }
}
