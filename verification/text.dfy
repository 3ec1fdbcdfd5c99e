/**
 The string primitives the schedule code relies on, written out with the
 semantics of Python's `str` methods: `strip()`, `lower()`, `in` (substring),
 `split(c)` and the ordering `<` used by `sorted`.
 */
module Text {

  /** The characters Python's `str.isspace` accepts, which `strip()` removes. */
  predicate IsSpace(c: char) {
    || ('\t' <= c <= '\r')
    || ('\U{1C}' <= c <= ' ')
    || c == '\U{85}' || c == '\U{A0}' || c == '\U{1680}'
    || ('\U{2000}' <= c <= '\U{200A}')
    || c == '\U{2028}' || c == '\U{2029}' || c == '\U{202F}' || c == '\U{205F}' || c == '\U{3000}'
  }

  predicate AllSpace(s: string) {
    forall i :: 0 <= i < |s| ==> IsSpace(s[i])
  }

  function StripStart(s: string): (r: string)
    ensures |r| <= |s| && r == s[|s| - |r|..]
    ensures AllSpace(s[..|s| - |r|])
    ensures r == [] || !IsSpace(r[0])
  {
    if s != [] && IsSpace(s[0]) then
      var r := StripStart(s[1..]);
      StripStartStep(s, r);
      r
    else s
  }

  /** The step of `StripStart`: one more leading space is cut. */
  lemma StripStartStep(s: string, r: string)
    requires s != [] && IsSpace(s[0])
    requires |r| <= |s| - 1 && r == s[1..][|s| - 1 - |r|..]
    requires AllSpace(s[1..][..|s| - 1 - |r|])
    ensures r == s[|s| - |r|..]
    ensures AllSpace(s[..|s| - |r|])
  {
    var n := |s| - |r|;
    assert s[..n] == [s[0]] + s[1..][..n - 1];
    forall i | 0 <= i < n ensures IsSpace(s[..n][i]) {
      if i > 0 {
        assert s[..n][i] == s[1..][..n - 1][i - 1];
      }
    }
  }

  function StripEnd(s: string): (r: string)
    ensures |r| <= |s| && r == s[..|r|]
    ensures AllSpace(s[|r|..])
    ensures r == [] || !IsSpace(r[|r| - 1])
  {
    if s != [] && IsSpace(s[|s| - 1]) then
      var s' := s[..|s| - 1];
      var r := StripEnd(s');
      StripEndStep(s, r);
      r
    else s
  }

  /** The step of `StripEnd`: one more trailing space is cut. */
  lemma StripEndStep(s: string, r: string)
    requires s != [] && IsSpace(s[|s| - 1])
    requires |r| <= |s| - 1 && r == s[..|s| - 1][..|r|]
    requires AllSpace(s[..|s| - 1][|r|..])
    ensures r == s[..|r|]
    ensures AllSpace(s[|r|..])
  {
    var s' := s[..|s| - 1];
    assert s[|r|..] == s'[|r|..] + [s[|s| - 1]];
    forall i | 0 <= i < |s| - |r| ensures IsSpace(s[|r|..][i]) {
      if i < |s'| - |r| {
        assert s[|r|..][i] == s'[|r|..][i];
      }
    }
  }

  /** `r` is `s` with the whitespace run of length `i` cut from its front and
      the one after `i + |r|` cut from its back. */
  predicate StrippedAt(s: string, r: string, i: int) {
    && 0 <= i <= i + |r| <= |s|
    && r == s[i..i + |r|]
    && AllSpace(s[..i])
    && AllSpace(s[i + |r|..])
  }

  /** Python's `s.strip()`: the slice of `s` left once leading and trailing
      whitespace is removed. */
  function Strip(s: string): (r: string)
    ensures exists i :: StrippedAt(s, r, i)
    ensures r == [] || (!IsSpace(r[0]) && !IsSpace(r[|r| - 1]))
    ensures r == [] <==> AllSpace(s)
  {
    var t := StripStart(s);
    var u := StripEnd(t);
    StripParts(s, t, u);
    u
  }

  /** The two halves of `Strip` compose: what is left is a slice of `s`
      between two whitespace runs, with no whitespace at either edge. Stated
      over the contracts of `StripStart` and `StripEnd` only. */
  lemma StripParts(s: string, t: string, u: string)
    requires |t| <= |s| && t == s[|s| - |t|..] && AllSpace(s[..|s| - |t|])
    requires t == [] || !IsSpace(t[0])
    requires |u| <= |t| && u == t[..|u|] && AllSpace(t[|u|..])
    requires u == [] || !IsSpace(u[|u| - 1])
    ensures StrippedAt(s, u, |s| - |t|)
    ensures u == [] || (!IsSpace(u[0]) && !IsSpace(u[|u| - 1]))
    ensures u == [] <==> AllSpace(s)
  {
    var n := |s| - |t|;
    forall j | 0 <= j < |u| ensures u[j] == s[n..n + |u|][j] {
      assert u[j] == t[j];
      assert t[j] == s[n..][j];
    }
    forall j | n + |u| <= j < |s| ensures IsSpace(s[j]) {
      assert s[j] == s[n..][j - n];
      assert t[j - n] == t[|u|..][j - n - |u|];
    }
    assert AllSpace(s[n + |u|..]);
    if u == [] {
      forall j | 0 <= j < |s| ensures IsSpace(s[j]) {
        if j < n {
          assert s[j] == s[..n][j];
        }
      }
    } else {
      assert u[0] == t[0];
      assert !AllSpace(s) by {
        assert s[n] == u[0];
      }
    }
  }

  /** `strip()` is idempotent: a stripped string has nothing left to strip. */
  lemma StripIdempotent(s: string)
    ensures Strip(Strip(s)) == Strip(s)
  {
    var r := Strip(s);
    assert StripStart(r) == r;
    assert StripEnd(r) == r;
  }

  /** `strip()` is characterized by its contract: the only slice of `s` with
      whitespace-only margins that neither starts nor ends with whitespace is
      `Strip(s)`. */
  lemma StripUnique(s: string, r: string, i: int)
    requires StrippedAt(s, r, i)
    requires r != [] && !IsSpace(r[0]) && !IsSpace(r[|r| - 1])
    ensures r == Strip(s)
  {
    var r' := Strip(s);
    var i' :| StrippedAt(s, r', i');
    assert r' != [] && !IsSpace(r'[0]) && !IsSpace(r'[|r'| - 1]);
    StrippedUnique(s, r, i, r', i');
  }

  /** Two slices of `s` between whitespace runs, neither starting nor ending
      with whitespace, are the same slice. */
  lemma StrippedUnique(s: string, r: string, i: int, r': string, i': int)
    requires StrippedAt(s, r, i) && StrippedAt(s, r', i')
    requires r != [] && !IsSpace(r[0]) && !IsSpace(r[|r| - 1])
    requires r' != [] && !IsSpace(r'[0]) && !IsSpace(r'[|r'| - 1])
    ensures r == r'
  {
    assert s[i] == r[0];
    assert s[i'] == r'[0];
    assert s[i + |r| - 1] == r[|r| - 1];
    assert s[i' + |r'| - 1] == r'[|r'| - 1];
    SpaceBefore(s, i', i);
    SpaceBefore(s, i, i');
    SpaceAfter(s, i + |r|, i' + |r'| - 1);
    SpaceAfter(s, i' + |r'|, i + |r| - 1);
    assert i == i' && |r| == |r'|;
  }

  lemma SpaceBefore(s: string, j: int, k: int)
    ensures 0 <= k < j <= |s| && AllSpace(s[..j]) ==> IsSpace(s[k])
  {
    if 0 <= k < j <= |s| {
      assert s[..j][k] == s[k];
    }
  }

  lemma SpaceAfter(s: string, j: int, k: int)
    ensures 0 <= j <= k < |s| && AllSpace(s[j..]) ==> IsSpace(s[k])
  {
    if 0 <= j <= k < |s| {
      assert s[j..][k - j] == s[k];
    }
  }

  /** The capitals that Python's `lower()` maps one-to-one inside Latin-1:
      `A`-`Z` and the accented capitals U+00C0-U+00DE except U+00D7. */
  predicate IsUpper(c: char) {
    'A' <= c <= 'Z' || ('\U{C0}' <= c <= '\U{DE}' && c != '\U{D7}')
  }

  /** Each of those capitals lies 32 code points before its small letter. */
  function LowerChar(c: char): char {
    if IsUpper(c) then (c as int + 32) as char else c
  }

  /** Python's `lower()`: no capital is left, every other character is kept,
      and each capital becomes its small letter. */
  function Lower(s: string): (r: string)
    ensures |r| == |s|
    ensures forall i :: 0 <= i < |r| ==> !IsUpper(r[i])
    ensures forall i :: 0 <= i < |s| && !IsUpper(s[i]) ==> r[i] == s[i]
    ensures forall i :: 0 <= i < |s| && IsUpper(s[i]) ==> r[i] as int == s[i] as int + 32
  {
    seq(|s|, i requires 0 <= i < |s| => LowerChar(s[i]))
  }

  /** A string without capitals is its own lower-case form. */
  lemma LowerKeepsLowerCase(s: string)
    requires forall i :: 0 <= i < |s| ==> !IsUpper(s[i])
    ensures Lower(s) == s
  {
    assert forall i :: 0 <= i < |s| ==> Lower(s)[i] == s[i];
  }

  /** Lower-casing twice is lower-casing once. */
  lemma LowerIdempotent(s: string)
    ensures Lower(Lower(s)) == Lower(s)
  {
    LowerKeepsLowerCase(Lower(s));
  }

  /** `needle` occurs in `hay` starting at index `i`. */
  predicate OccursAt(hay: string, needle: string, i: int) {
    0 <= i <= |hay| && needle <= hay[i..]
  }

  /** Python's `needle in hay` on two strings. */
  function Contains(hay: string, needle: string): (r: bool)
    ensures r <==> exists i :: OccursAt(hay, needle, i)
    decreases |hay|
  {
    if needle <= hay then
      assert OccursAt(hay, needle, 0);
      true
    else if hay == [] then
      assert forall i :: !OccursAt(hay, needle, i);
      false
    else
      var r := Contains(hay[1..], needle);
      assert r ==> exists i :: OccursAt(hay, needle, i) by {
        if r {
          var j :| OccursAt(hay[1..], needle, j);
          assert hay[1..][j..] == hay[j + 1..];
          assert OccursAt(hay, needle, j + 1);
        }
      }
      assert (exists i :: OccursAt(hay, needle, i)) ==> r by {
        if exists i :: OccursAt(hay, needle, i) {
          var i :| OccursAt(hay, needle, i);
          assert i != 0;
          assert hay[1..][i - 1..] == hay[i..];
          assert OccursAt(hay[1..], needle, i - 1);
        }
      }
      r
  }

  /** The empty string occurs in every string. */
  lemma ContainsEmpty(hay: string)
    ensures Contains(hay, [])
  {
    assert OccursAt(hay, [], 0);
  }

  /** Every string occurs in itself, and in anything that extends it on either side. */
  lemma {:induction false} ContainsInfix(a: string, b: string, c: string)
    ensures Contains(a + b + c, b)
  {
    assert (a + b + c)[|a|..] == b + c;
    assert OccursAt(a + b + c, b, |a|);
  }

  /** Index of the first `c` in `s`, or `|s|` when there is none. */
  function IndexOf(s: string, c: char): (r: nat)
    ensures r <= |s|
    ensures r < |s| ==> s[r] == c
    ensures c !in s[..r]
    ensures r == |s| <==> c !in s
  {
    if s == [] then 0
    else if s[0] == c then 0
    else
      var r := 1 + IndexOf(s[1..], c);
      assert s[..r] == [s[0]] + s[1..][..r - 1];
      r
  }

  /** Python's `s.split(c)` for a one-character separator. */
  function Split(s: string, c: char): (parts: seq<string>)
    ensures |parts| >= 1
    ensures forall k :: 0 <= k < |parts| ==> c !in parts[k]
    ensures Join(parts, c) == s
    decreases |s|
  {
    var i := IndexOf(s, c);
    if i == |s| then
      [s]
    else
      var rest := Split(s[i + 1..], c);
      assert Join([s[..i]] + rest, c) == s[..i] + [c] + Join(rest, c) by {
        assert ([s[..i]] + rest)[1..] == rest;
      }
      assert s == s[..i] + [c] + s[i + 1..];
      [s[..i]] + rest
  }

  /** Python's `c.join(parts)`, the inverse of `Split`. */
  function Join(parts: seq<string>, c: char): string
  {
    if |parts| == 0 then []
    else if |parts| == 1 then parts[0]
    else parts[0] + [c] + Join(parts[1..], c)
  }

  /** `Split` undoes `Join` when no part holds the separator. */
  lemma {:induction false} SplitJoin(parts: seq<string>, c: char)
    requires |parts| >= 1
    requires forall k :: 0 <= k < |parts| ==> c !in parts[k]
    ensures Split(Join(parts, c), c) == parts
  {
    if |parts| > 1 {
      var s := Join(parts, c);
      var p := parts[0];
      assert s == p + [c] + Join(parts[1..], c);
      assert s[..|p|] == p;
      assert IndexOf(s, c) == |p| by {
        IndexOfAfter(p, Join(parts[1..], c), c);
      }
      assert s[|p| + 1..] == Join(parts[1..], c);
      SplitJoin(parts[1..], c);
      assert Split(s, c) == [p] + parts[1..];
    } else {
      assert Join(parts, c) == parts[0];
    }
  }

  lemma IndexOfAfter(p: string, t: string, c: char)
    requires c !in p
    ensures IndexOf(p + [c] + t, c) == |p|
  {
    var s := p + [c] + t;
    var r := IndexOf(s, c);
    assert s[|p|] == c;
    assert forall j :: 0 <= j < |p| ==> s[j] == p[j];
    assert c in s[..|p| + 1];
  }

  /** The segment of `s` from index `start` up to, not including, the first
      index at or after `start` holding a character of `stops`. */
  function SegmentFrom(s: string, start: nat, stops: set<char>): (r: string)
    requires start <= |s|
    ensures forall k :: 0 <= k < |r| ==> r[k] !in stops
    ensures r <= s[start..]
    ensures start + |r| == |s| || s[start + |r|] in stops
    decreases |s| - start
  {
    if start == |s| || s[start] in stops then []
    else
      var rest := SegmentFrom(s, start + 1, stops);
      assert s[start..] == [s[start]] + s[start + 1..];
      [s[start]] + rest
  }

  /** The first part of `s.split(c)` is the text before the first `c`. */
  lemma SplitHead(s: string, c: char)
    ensures Split(s, c)[0] == s[..IndexOf(s, c)]
  {
  }

  /** When `c` occurs, the second part of `s.split(c)` is the first part of
      what follows the first `c`. */
  lemma SplitSecond(s: string, c: char)
    requires c in s
    ensures |Split(s, c)| >= 2
    ensures Split(s, c)[1] == Split(s[IndexOf(s, c) + 1..], c)[0]
  {
  }

  /** When `c` occurs, the second part of `s.split(c)` is the segment after
      the first `c` up to the next one. */
  lemma SplitSecondSegment(s: string, c: char)
    requires c in s
    ensures |Split(s, c)| >= 2
    ensures Split(s, c)[1] == SegmentFrom(s, IndexOf(s, c) + 1, {c})
  {
    var i := IndexOf(s, c);
    var t := s[i + 1..];
    SplitSecond(s, c);
    SplitHead(t, c);
    SegmentBeforeStop(s, i + 1, c);
  }

  /** The text of `s` from `start` up to the next `c` is the segment that
      stops at `c`. */
  lemma SegmentBeforeStop(s: string, start: nat, c: char)
    requires start <= |s|
    ensures s[start..][..IndexOf(s[start..], c)] == SegmentFrom(s, start, {c})
  {
    var t := s[start..];
    var j := IndexOf(t, c);
    var seg := t[..j];
    assert forall k :: 0 <= k < |seg| ==> seg[k] !in {c} by {
      assert c !in seg;
    }
    assert start + |seg| == |s| || s[start + |seg|] in {c} by {
      if j < |t| {
        assert s[start + j] == t[j];
      }
    }
    SegmentUnique(s, start, {c}, seg);
  }

  /** Cutting a segment that stops at `c` at its first `d` gives the segment
      that stops at either. */
  lemma SegmentNarrow(s: string, start: nat, c: char, d: char)
    requires start <= |s|
    ensures var seg := SegmentFrom(s, start, {c});
      seg[..IndexOf(seg, d)] == SegmentFrom(s, start, {c, d})
  {
    var seg := SegmentFrom(s, start, {c});
    var j := IndexOf(seg, d);
    var r := seg[..j];
    assert r <= s[start..];
    assert forall k :: 0 <= k < |r| ==> r[k] !in {c, d} by {
      assert d !in r;
      assert forall k :: 0 <= k < |r| ==> r[k] == seg[k];
    }
    assert start + |r| == |s| || s[start + |r|] in {c, d} by {
      if j < |seg| {
        assert s[start + j] == seg[j];
      }
    }
    SegmentUnique(s, start, {c, d}, r);
  }

  /** `SegmentFrom` is the only prefix of `s[start..]` that avoids `stops` and
      ends at a stop character or at the end of `s`. */
  lemma {:induction false} SegmentUnique(s: string, start: nat, stops: set<char>, r: string)
    requires start <= |s|
    requires r <= s[start..]
    requires forall k :: 0 <= k < |r| ==> r[k] !in stops
    requires start + |r| == |s| || s[start + |r|] in stops
    ensures r == SegmentFrom(s, start, stops)
    decreases |s| - start
  {
    if r != [] {
      assert r[0] == s[start];
      assert r[1..] <= s[start + 1..];
      SegmentUnique(s, start + 1, stops, r[1..]);
    }
  }

  /** Lexicographic order on code points, as Python compares strings. */
  predicate LexLe(a: string, b: string) {
    if a == [] then true
    else if b == [] then false
    else if a[0] != b[0] then a[0] < b[0]
    else LexLe(a[1..], b[1..])
  }

  lemma {:induction false} LexLeTotal(a: string, b: string)
    ensures LexLe(a, b) || LexLe(b, a)
  {
    if a != [] && b != [] && a[0] == b[0] {
      LexLeTotal(a[1..], b[1..]);
    }
  }

  lemma {:induction false} LexLeAntisymmetric(a: string, b: string)
    ensures LexLe(a, b) && LexLe(b, a) ==> a == b
  {
    if a != [] && b != [] && a[0] == b[0] {
      LexLeAntisymmetric(a[1..], b[1..]);
      assert a == [a[0]] + a[1..];
      assert b == [b[0]] + b[1..];
    }
  }

  lemma {:induction false} LexLeTransitive(a: string, b: string, c: string)
    ensures LexLe(a, b) && LexLe(b, c) ==> LexLe(a, c)
  {
    if a != [] && b != [] && c != [] && a[0] == b[0] && b[0] == c[0] {
      LexLeTransitive(a[1..], b[1..], c[1..]);
    }
  }
}
