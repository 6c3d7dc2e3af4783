/**
 The string primitives the command interpreter relies on, written out with
 Python's meaning: `str.strip()` with no argument, `str.startswith`, the open
 slice `s[k:]`, and `str.lower()` restricted to ASCII letters.
 */
module Text {

  /** The characters Python's `str.isspace()` accepts (and so `str.strip()` removes). */
  predicate IsSpace(c: char) {
    || c == ' ' || c == '\t' || c == '\n' || c == '\r'
    || c == '\U{000B}' || c == '\U{000C}'
    || ('\U{001C}' <= c <= '\U{001F}')
    || c == '\U{0085}' || c == '\U{00A0}' || c == '\U{1680}'
    || ('\U{2000}' <= c <= '\U{200A}')
    || c == '\U{2028}' || c == '\U{2029}' || c == '\U{202F}'
    || c == '\U{205F}' || c == '\U{3000}'
  }

  /** `r` is what `s.strip()` should give when the kept part starts at index `i`:
      `r` is the infix of `s` at `i`, everything around it is whitespace, and
      `r` neither starts nor ends with whitespace. */
  ghost predicate StrippedAt(s: string, r: string, i: nat) {
    && i + |r| <= |s|
    && s[i..i + |r|] == r
    && (forall k :: 0 <= k < i ==> IsSpace(s[k]))
    && (forall k :: i + |r| <= k < |s| ==> IsSpace(s[k]))
    && (r != [] ==> !IsSpace(r[0]) && !IsSpace(r[|r| - 1]))
  }

  /** The first index at or after `i` that does not hold whitespace (or the
      length of `s`). */
  function SkipSpaces(s: string, i: nat): (j: nat)
    requires i <= |s|
    ensures i <= j <= |s|
    ensures forall k :: i <= k < j ==> IsSpace(s[k])
    ensures j < |s| ==> !IsSpace(s[j])
    decreases |s| - i
  {
    if i < |s| && IsSpace(s[i]) then SkipSpaces(s, i + 1) else i
  }

  /** The end of `s[lo..hi]` once its trailing whitespace is dropped. */
  function DropTrailingSpaces(s: string, lo: nat, hi: nat): (e: nat)
    requires lo <= hi <= |s|
    ensures lo <= e <= hi
    ensures forall k :: e <= k < hi ==> IsSpace(s[k])
    ensures e > lo ==> !IsSpace(s[e - 1])
    decreases hi
  {
    if hi > lo && IsSpace(s[hi - 1]) then DropTrailingSpaces(s, lo, hi - 1) else hi
  }

  /** Python's `s.strip()`: skip the leading whitespace, then drop the
      trailing whitespace of what is left. */
  function Strip(s: string): (r: string)
    ensures exists i: nat :: StrippedAt(s, r, i)
    ensures |r| <= |s|
    ensures r != [] ==> !IsSpace(r[0]) && !IsSpace(r[|r| - 1])
  {
    var i := SkipSpaces(s, 0);
    var e := DropTrailingSpaces(s, i, |s|);
    assert StrippedAt(s, s[i..e], i);
    s[i..e]
  }

  /** `strip()` is a function of its input: the specification `StrippedAt`
      admits exactly one result, so `Strip` is fully characterised by it. */
  lemma {:induction false} StrippedUnique(s: string, r1: string, i1: nat, r2: string, i2: nat)
    requires StrippedAt(s, r1, i1) && StrippedAt(s, r2, i2)
    ensures r1 == r2
  {
    if r1 != [] {
      assert s[i1] == r1[0];
    }
    if r2 != [] {
      assert s[i2] == r2[0];
    }
    if r1 != [] && r2 != [] {
      assert i1 == i2;
      assert s[i1 + |r1| - 1] == r1[|r1| - 1];
      assert s[i2 + |r2| - 1] == r2[|r2| - 1];
      assert i1 + |r1| == i2 + |r2|;
    }
  }

  /** Stripping twice is the same as stripping once. */
  lemma StripIdempotent(s: string)
    ensures Strip(Strip(s)) == Strip(s)
  {
    StripKeeps(Strip(s));
  }

  /** A string with no whitespace at either end is its own `strip()`. */
  lemma StripKeeps(s: string)
    requires s != [] ==> !IsSpace(s[0]) && !IsSpace(s[|s| - 1])
    ensures Strip(s) == s
  {
    assert StrippedAt(s, s, 0) by {
      assert s[0..|s|] == s;
    }
    var i: nat :| StrippedAt(s, Strip(s), i);
    StrippedUnique(s, Strip(s), i, s, 0);
  }

  /** Python's `s.startswith(prefix)`. */
  predicate StartsWith(s: string, prefix: string) {
    |prefix| <= |s| && s[..|prefix|] == prefix
  }

  /** A string that starts with `prefix` agrees with it character by character. */
  lemma StartsWithAt(s: string, prefix: string, k: nat)
    requires StartsWith(s, prefix) && k < |prefix|
    ensures s[k] == prefix[k]
  {
    assert s[..|prefix|][k] == s[k];
  }

  /** Python's `s[k:]` for a non-negative `k`: empty when `k` runs past the end. */
  function SliceFrom(s: string, k: nat): (r: string)
    ensures k <= |s| ==> s == s[..k] + r
    ensures k >= |s| ==> r == []
  {
    if k <= |s| then s[k..] else []
  }

  /** Python's `str.lower()` on one character, for the ASCII letters. */
  function LowerChar(c: char): (d: char)
    ensures 'A' <= c <= 'Z' ==> 'a' <= d <= 'z' && d as int - 'a' as int == c as int - 'A' as int
    ensures !('A' <= c <= 'Z') ==> d == c
  {
    if 'A' <= c <= 'Z' then (c as int + 32) as char else c
  }

  /** Python's `str.lower()`, for the ASCII letters. */
  function Lower(s: string): (r: string)
    ensures |r| == |s|
    ensures forall i :: 0 <= i < |s| ==> r[i] == LowerChar(s[i])
  {
    seq(|s|, i requires 0 <= i < |s| => LowerChar(s[i]))
  }

  /** Lower-casing commutes with stripping: the lowered kept part sits at the
      same index of the lowered string, with lowered whitespace around it. */
  lemma LowerStrippedAt(s: string, r: string, i: nat)
    requires StrippedAt(s, r, i)
    ensures StrippedAt(Lower(s), Lower(r), i)
  {
    var ls := Lower(s);
    forall k | 0 <= k < |s|
      ensures IsSpace(ls[k]) <==> IsSpace(s[k])
    {
      LowerCharKeepsSpace(s[k]);
    }
    assert ls[i..i + |r|] == Lower(r) by {
      forall k | 0 <= k < |r|
        ensures ls[i..i + |r|][k] == Lower(r)[k]
      {
        assert s[i + k] == r[k];
      }
    }
    if r != [] {
      LowerCharKeepsSpace(r[0]);
      LowerCharKeepsSpace(r[|r| - 1]);
    }
  }

  /** What the input loop does to a raw line before dispatching it:
      `line.strip().lower()`, which is the strip of the lowered line. */
  function Normalize(line: string): (r: string)
    ensures exists i: nat :: StrippedAt(Lower(line), r, i)
    ensures |r| <= |line|
    ensures forall i :: 0 <= i < |r| ==> !('A' <= r[i] <= 'Z')
    ensures r != [] ==> !IsSpace(r[0]) && !IsSpace(r[|r| - 1])
  {
    LowerStrip(line);
    Lower(Strip(line))
  }

  /** The lowered strip of a line is the strip of the lowered line. */
  lemma LowerStrip(line: string)
    ensures exists i: nat :: StrippedAt(Lower(line), Lower(Strip(line)), i)
  {
    var t := Strip(line);
    var i: nat :| StrippedAt(line, t, i);
    LowerStrippedAt(line, t, i);
  }

  /** A line the loop has already normalised comes out of normalising
      again unchanged. */
  lemma NormalizeIdempotent(line: string)
    ensures Normalize(Normalize(line)) == Normalize(line)
  {
    var r := Normalize(line);
    StripKeeps(r);
    assert Lower(r) == r by {
      forall k | 0 <= k < |r|
        ensures Lower(r)[k] == r[k]
      {
        assert !('A' <= r[k] <= 'Z');
      }
    }
    assert Normalize(r) == Lower(Strip(r));
  }

  /** Lowering a character never turns whitespace into non-whitespace or back. */
  lemma LowerCharKeepsSpace(c: char)
    ensures IsSpace(LowerChar(c)) <==> IsSpace(c)
  {
  }
}
