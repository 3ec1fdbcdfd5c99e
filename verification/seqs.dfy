/**
 Facts about sequences used to state insertion order: distinctness, ordered
 subsequences, and the first-seen de-duplication of a sequence.
 */
module Seqs {

  predicate Distinct<T(==)>(s: seq<T>) {
    forall i, j :: 0 <= i < j < |s| ==> s[i] != s[j]
  }

  /** `a` is obtained from `b` by deleting elements, keeping the rest in order.
      Matched greedily from the back. */
  predicate IsSubseq<T(==)>(a: seq<T>, b: seq<T>)
    decreases |b|
  {
    if |a| == 0 then true
    else if |b| == 0 then false
    else if a[|a| - 1] == b[|b| - 1] then IsSubseq(a[..|a| - 1], b[..|b| - 1])
    else IsSubseq(a, b[..|b| - 1])
  }

  lemma {:induction false} SubseqDropLast<T>(a: seq<T>, b: seq<T>)
    requires |a| > 0 && IsSubseq(a, b)
    ensures IsSubseq(a[..|a| - 1], b)
    decreases |b|, 0
  {
    var a' := a[..|a| - 1];
    var b' := b[..|b| - 1];
    if a[|a| - 1] == b[|b| - 1] {
      SubseqAppend(a', b', b[|b| - 1]);
      assert b == b' + [b[|b| - 1]];
    } else {
      SubseqDropLast(a, b');
      SubseqAppend(a', b', b[|b| - 1]);
      assert b == b' + [b[|b| - 1]];
    }
  }

  /** A subsequence stays one when the longer sequence grows. */
  lemma {:induction false} SubseqAppend<T>(a: seq<T>, b: seq<T>, x: T)
    requires IsSubseq(a, b)
    ensures IsSubseq(a, b + [x])
    decreases |b|, 1
  {
    var b' := b + [x];
    assert b'[..|b'| - 1] == b;
    if |a| > 0 && a[|a| - 1] == x {
      SubseqDropLast(a, b);
    }
  }

  /** Appending the same element to both keeps a subsequence. */
  lemma SubseqExtend<T>(a: seq<T>, b: seq<T>, x: T)
    requires IsSubseq(a, b)
    ensures IsSubseq(a + [x], b + [x])
  {
    assert (a + [x])[..|a|] == a;
    assert (b + [x])[..|b|] == b;
  }

  /** A subsequence of a prefix is a subsequence of the whole. */
  lemma {:induction false} SubseqPrefix<T>(a: seq<T>, b: seq<T>, c: seq<T>)
    requires IsSubseq(a, b) && b <= c
    ensures IsSubseq(a, c)
    decreases |c|
  {
    if |c| > |b| {
      var c' := c[..|c| - 1];
      SubseqPrefix(a, b, c');
      SubseqAppend(a, c', c[|c| - 1]);
      assert c == c' + [c[|c| - 1]];
    } else {
      assert b == c;
    }
  }

  /** Every element of a subsequence is an element of the whole. */
  lemma {:induction false} SubseqMembers<T>(a: seq<T>, b: seq<T>)
    requires IsSubseq(a, b)
    ensures forall x :: x in a ==> x in b
    decreases |b|
  {
    if |a| > 0 {
      var b' := b[..|b| - 1];
      if a[|a| - 1] == b[|b| - 1] {
        SubseqMembers(a[..|a| - 1], b');
        assert a == a[..|a| - 1] + [a[|a| - 1]];
      } else {
        SubseqMembers(a, b');
      }
    }
  }

  /** A subsequence of a duplicate-free sequence is duplicate-free. */
  lemma {:induction false} SubseqDistinct<T>(a: seq<T>, b: seq<T>)
    requires IsSubseq(a, b) && Distinct(b)
    ensures Distinct(a)
    decreases |b|
  {
    if |a| > 0 {
      var a' := a[..|a| - 1];
      var b' := b[..|b| - 1];
      if a[|a| - 1] == b[|b| - 1] {
        SubseqDistinct(a', b');
        SubseqMembers(a', b');
        assert a == a' + [a[|a| - 1]];
        assert b[|b| - 1] !in b';
      } else {
        SubseqDistinct(a, b');
      }
    }
  }

  /** The first index at which `x` occurs in `s`. */
  function FirstIndex<T(==)>(s: seq<T>, x: T): (i: nat)
    requires x in s
    ensures i < |s| && s[i] == x
    ensures x !in s[..i]
  {
    if s[0] == x then 0
    else
      var i := 1 + FirstIndex(s[1..], x);
      assert s[..i] == [s[0]] + s[1..][..i - 1];
      i
  }

  /** Python's "keep the first occurrence" order: the elements of `s` without
      repeats, in the order in which each was first seen. */
  function Dedup<T(==)>(s: seq<T>): (r: seq<T>)
    ensures Distinct(r)
    ensures forall i :: 0 <= i < |r| ==> r[i] in s
    ensures forall i :: 0 <= i < |s| ==> s[i] in r
  {
    if s == [] then []
    else
      var p := Dedup(s[..|s| - 1]);
      assert s == s[..|s| - 1] + [s[|s| - 1]];
      if s[|s| - 1] in p then p else p + [s[|s| - 1]]
  }

  /** `Dedup` lists elements in the order of their first occurrence. */
  lemma {:induction false} DedupFirstSeen<T>(s: seq<T>)
    ensures forall i, j :: 0 <= i < j < |Dedup(s)| ==> FirstIndex(s, Dedup(s)[i]) < FirstIndex(s, Dedup(s)[j])
  {
    if s != [] {
      var s' := s[..|s| - 1];
      var x := s[|s| - 1];
      var p := Dedup(s');
      DedupFirstSeen(s');
      assert s == s' + [x];
      forall y | y in s' ensures FirstIndex(s, y) == FirstIndex(s', y) {
        FirstIndexPrefix(s', [x], y);
      }
      FirstSeenStep(s, s', x, p, Dedup(s));
    }
  }

  /** The induction step of `DedupFirstSeen`: an element new to `s'` is
      first seen after every element of `s'`. */
  lemma FirstSeenStep<T>(s: seq<T>, s': seq<T>, x: T, p: seq<T>, r: seq<T>)
    requires s == s' + [x]
    requires forall i :: 0 <= i < |p| ==> p[i] in s'
    requires forall i :: 0 <= i < |s'| ==> s'[i] in p
    requires forall i, j :: 0 <= i < j < |p| ==> FirstIndex(s', p[i]) < FirstIndex(s', p[j])
    requires forall y | y in s' :: FirstIndex(s, y) == FirstIndex(s', y)
    requires r == if x in p then p else p + [x]
    ensures forall i, j :: 0 <= i < j < |r| ==> FirstIndex(s, r[i]) < FirstIndex(s, r[j])
  {
    if x !in p {
      assert x !in s';
      var n := FirstIndex(s, x);
      assert n == |s'|;
      forall i, j | 0 <= i < j < |r| ensures FirstIndex(s, r[i]) < FirstIndex(s, r[j]) {
        var a := p[i];
        assert r[i] == a && a in s';
        assert FirstIndex(s, a) == FirstIndex(s', a) < |s'|;
        if j < |p| {
          assert r[j] == p[j];
        } else {
          assert r[j] == x;
        }
      }
    }
  }

  lemma FirstIndexPrefix<T>(s: seq<T>, t: seq<T>, x: T)
    requires x in s
    ensures FirstIndex(s + t, x) == FirstIndex(s, x)
  {
    var i := FirstIndex(s, x);
    var j := FirstIndex(s + t, x);
    assert (s + t)[i] == x;
    assert x in (s + t)[..i + 1];
    assert forall k :: 0 <= k < |s| ==> (s + t)[k] == s[k];
    assert (s + t)[..j] == s[..j];
  }

  /** The number of elements of `s` that satisfy `p`, counted with
      repetition. */
  function CountIf<T>(s: seq<T>, p: T -> bool): nat
    decreases |s|
  {
    if s == [] then 0
    else CountIf(s[..|s| - 1], p) + (if p(s[|s| - 1]) then 1 else 0)
  }

  lemma CountIfSnoc<T>(s: seq<T>, x: T, p: T -> bool)
    ensures CountIf(s + [x], p) == CountIf(s, p) + (if p(x) then 1 else 0)
  {
    assert (s + [x])[..|s|] == s;
  }

  /** A subsequence made of elements that satisfy `p` has at most as many
      elements as the whole has elements satisfying `p`. */
  lemma {:induction false} SubseqCountBound<T>(a: seq<T>, b: seq<T>, p: T -> bool)
    requires IsSubseq(a, b)
    requires forall i :: 0 <= i < |a| ==> p(a[i])
    ensures |a| <= CountIf(b, p)
    decreases |b|
  {
    if |a| > 0 {
      var b' := b[..|b| - 1];
      if a[|a| - 1] == b[|b| - 1] {
        var a' := a[..|a| - 1];
        assert forall i :: 0 <= i < |a'| ==> a'[i] == a[i];
        SubseqCountBound(a', b', p);
      } else {
        SubseqCountBound(a, b', p);
      }
    }
  }

  /** A subsequence of `b` made of elements that satisfy `p`, and as long as
      the number of elements of `b` that do, keeps every one of them: two
      such subsequences are equal. */
  lemma {:induction false} SubseqCountUnique<T>(a: seq<T>, a': seq<T>, b: seq<T>, p: T -> bool)
    requires IsSubseq(a, b) && IsSubseq(a', b)
    requires forall i :: 0 <= i < |a| ==> p(a[i])
    requires forall i :: 0 <= i < |a'| ==> p(a'[i])
    requires |a| == CountIf(b, p) && |a'| == CountIf(b, p)
    ensures a == a'
    decreases |b|
  {
    if |a| > 0 {
      var b' := b[..|b| - 1];
      var x := b[|b| - 1];
      if p(x) {
        if a[|a| - 1] != x {
          SubseqCountBound(a, b', p);
        }
        if a'[|a'| - 1] != x {
          SubseqCountBound(a', b', p);
        }
        var c := a[..|a| - 1];
        var c' := a'[..|a'| - 1];
        assert forall i :: 0 <= i < |c| ==> c[i] == a[i];
        assert forall i :: 0 <= i < |c'| ==> c'[i] == a'[i];
        SubseqCountUnique(c, c', b', p);
        assert a == c + [x] && a' == c' + [x];
      } else {
        assert a[|a| - 1] != x && a'[|a'| - 1] != x;
        SubseqCountUnique(a, a', b', p);
      }
    }
  }
}
