/** Sequence helpers shared by the cart engine and the catalog pipeline:
    `Array.prototype.filter` and the subsequence relation it establishes. */
module Seqs {

  /** `s.filter(f)`: the elements of `s` satisfying `f`, in their original order. */
  function Filter<T>(s: seq<T>, f: T -> bool): (r: seq<T>)
    ensures |r| <= |s|
  {
    if |s| == 0 then []
    else if f(s[0]) then [s[0]] + Filter(s[1..], f)
    else Filter(s[1..], f)
  }

  /** What `filter` keeps: only elements of `s` that pass `f`, every such
      element, and no element more often than `s` has it. */
  lemma {:induction false} FilterSpec<T>(s: seq<T>, f: T -> bool)
    ensures var r := Filter(s, f);
      && (forall i :: 0 <= i < |r| ==> f(r[i]) && r[i] in s)
      && (forall x :: x in s && f(x) ==> x in r)
      && multiset(r) <= multiset(s)
  {
    if |s| > 0 {
      FilterSpec(s[1..], f);
      assert s == [s[0]] + s[1..];
    }
  }

  /** `a` is `b` with some elements left out, the rest in the same order. */
  predicate IsSubseq<T(==)>(a: seq<T>, b: seq<T>)
    decreases |b|
  {
    if |a| == 0 then true
    else if |b| == 0 then false
    else if a[0] == b[0] then IsSubseq(a[1..], b[1..])
    else IsSubseq(a, b[1..])
  }

  lemma {:induction false} FilterIsSubseq<T>(s: seq<T>, f: T -> bool)
    ensures IsSubseq(Filter(s, f), s)
  {
    if |s| > 0 {
      FilterIsSubseq(s[1..], f);
      var r := Filter(s[1..], f);
      if f(s[0]) {
        assert ([s[0]] + r)[1..] == r;
      } else {
        SubseqDropFront(r, s);
      }
    }
  }

  /** A subsequence of the tail is a subsequence of the whole. */
  lemma {:induction false} SubseqDropFront<T>(a: seq<T>, b: seq<T>)
    requires |b| > 0 && IsSubseq(a, b[1..])
    ensures IsSubseq(a, b)
    decreases |b|, 1
  {
    if |a| > 0 && a[0] == b[0] {
      SubseqTail(a, b[1..]);
    }
  }

  /** Dropping the head of a subsequence keeps it a subsequence. */
  lemma {:induction false} SubseqTail<T>(a: seq<T>, b: seq<T>)
    requires |a| > 0 && IsSubseq(a, b)
    ensures IsSubseq(a[1..], b)
    decreases |b|, 2
  {
    if a[0] == b[0] {
      if |a[1..]| > 0 { SubseqDropFront(a[1..], b); }
    } else {
      SubseqTail(a, b[1..]);
      if |a[1..]| > 0 { SubseqDropFront(a[1..], b); }
    }
  }

  /** Filtering distributes over concatenation: `filter` is a left-to-right pass. */
  lemma {:induction false} FilterAppend<T>(a: seq<T>, b: seq<T>, f: T -> bool)
    ensures Filter(a + b, f) == Filter(a, f) + Filter(b, f)
  {
    if |a| > 0 {
      assert (a + b)[1..] == a[1..] + b;
      FilterAppend(a[1..], b, f);
    } else {
      assert a + b == b;
    }
  }

  /** When every element passes, `filter` returns its input. */
  lemma {:induction false} FilterAllPass<T>(s: seq<T>, f: T -> bool)
    requires forall i :: 0 <= i < |s| ==> f(s[i])
    ensures Filter(s, f) == s
  {
    if |s| > 0 {
      FilterAllPass(s[1..], f);
    }
  }

  /** Two tests that agree everywhere keep the same elements. */
  lemma {:induction false} FilterExt<T>(s: seq<T>, f: T -> bool, g: T -> bool)
    requires forall x :: f(x) == g(x)
    ensures Filter(s, f) == Filter(s, g)
  {
    if |s| > 0 {
      FilterExt(s[1..], f, g);
    }
  }

  /** Filtering by `f` and then by `g` is filtering once by their conjunction `h`. */
  lemma {:induction false} FilterFilter<T>(s: seq<T>, f: T -> bool, g: T -> bool, h: T -> bool)
    requires forall x :: h(x) == (f(x) && g(x))
    ensures Filter(Filter(s, f), g) == Filter(s, h)
  {
    if |s| > 0 {
      FilterFilter(s[1..], f, g, h);
      if f(s[0]) {
        assert ([s[0]] + Filter(s[1..], f))[1..] == Filter(s[1..], f);
      }
    }
  }

  /** When no element passes, `filter` returns the empty sequence. */
  lemma {:induction false} FilterNonePass<T>(s: seq<T>, f: T -> bool)
    requires forall i :: 0 <= i < |s| ==> !f(s[i])
    ensures Filter(s, f) == []
  {
    if |s| > 0 {
      FilterNonePass(s[1..], f);
    }
  }

  /** Filtering one more element at the end appends it when it passes. */
  lemma FilterSnoc<T>(s: seq<T>, x: T, f: T -> bool)
    ensures Filter(s + [x], f) == Filter(s, f) + (if f(x) then [x] else [])
  {
    FilterAppend(s, [x], f);
    assert [x][1..] == [];
  }

  /** Filtering `pre + [x] + post` where only `x` fails gives `pre + post`. */
  lemma FilterAround<T>(pre: seq<T>, x: T, post: seq<T>, f: T -> bool)
    requires !f(x)
    requires forall i :: 0 <= i < |pre| ==> f(pre[i])
    requires forall i :: 0 <= i < |post| ==> f(post[i])
    ensures Filter(pre + [x] + post, f) == pre + post
  {
    var front := pre + [x];
    FilterSnoc(pre, x, f);
    FilterAllPass(pre, f);
    assert Filter(front, f) == pre;
    FilterAllPass(post, f);
    FilterAppend(front, post, f);
  }

  lemma PrefixPasses<T>(s: seq<T>, k: nat, f: T -> bool)
    requires k <= |s|
    requires forall i :: 0 <= i < k ==> f(s[i])
    ensures forall i :: 0 <= i < |s[..k]| ==> f(s[..k][i])
  {
  }

  lemma SuffixPasses<T>(s: seq<T>, k: nat, f: T -> bool)
    requires k <= |s|
    requires forall i :: k <= i < |s| ==> f(s[i])
    ensures forall i :: 0 <= i < |s[k..]| ==> f(s[k..][i])
  {
    forall i | 0 <= i < |s[k..]| ensures f(s[k..][i]) {
      assert s[k..][i] == s[k + i];
    }
  }

  /** When exactly the element at `k` fails, `filter` cuts out just that one. */
  lemma FilterDropOne<T>(s: seq<T>, k: nat, f: T -> bool)
    requires k < |s| && !f(s[k])
    requires forall i :: 0 <= i < |s| && i != k ==> f(s[i])
    ensures Filter(s, f) == s[..k] + s[k + 1..]
  {
    PrefixPasses(s, k, f);
    SuffixPasses(s, k + 1, f);
    assert s == s[..k] + [s[k]] + s[k + 1..];
    FilterAround(s[..k], s[k], s[k + 1..], f);
  }
}
