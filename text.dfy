/**
 * The string built-ins the source relies on: String.prototype.trim (used by
 * Mongoose's `trim: true`), toLowerCase, includes, and the ordering of strings
 * that a `sort({ name: 1 })` uses.
 */
module Text {

  /** The characters that JavaScript's trim removes (WhiteSpace and LineTerminator code points). */
  predicate IsWhitespace(c: char) {
    c == ' ' || c == '\t' || c == '\n' || c == '\r' || c == '\U{B}' || c == '\U{C}'
    || c == '\U{A0}' || c == '\U{1680}' || ('\U{2000}' <= c <= '\U{200A}') || c == '\U{2028}'
    || c == '\U{2029}' || c == '\U{202F}' || c == '\U{205F}' || c == '\U{3000}' || c == '\U{FEFF}'
  }

  /** Drops the leading whitespace of `s`. */
  function TrimStart(s: string): string
    decreases |s|
  {
    if s != [] && IsWhitespace(s[0]) then TrimStart(s[1..]) else s
  }

  /** What TrimStart drops is the whitespace before its result, a suffix of `s`. */
  lemma {:induction false} TrimStartCuts(s: string)
    ensures var r := TrimStart(s);
      && |r| <= |s| && r == s[|s| - |r|..] && (r != [] ==> !IsWhitespace(r[0]))
      && forall i :: 0 <= i < |s| - |r| ==> IsWhitespace(s[i])
    decreases |s|
  {
    if s != [] && IsWhitespace(s[0]) {
      TrimStartCuts(s[1..]);
    }
  }

  /** Drops the trailing whitespace of `s`. */
  function TrimEnd(s: string): string
    decreases |s|
  {
    if s != [] && IsWhitespace(s[|s| - 1]) then TrimEnd(s[..|s| - 1]) else s
  }

  /** What TrimEnd drops is the whitespace after its result, a prefix of `s`. */
  lemma {:induction false} TrimEndCuts(s: string)
    ensures var r := TrimEnd(s);
      && |r| <= |s| && r == s[..|r|] && (r != [] ==> !IsWhitespace(r[|r| - 1]))
      && forall i :: |r| <= i < |s| ==> IsWhitespace(s[i])
    decreases |s|
  {
    if s != [] && IsWhitespace(s[|s| - 1]) {
      TrimEndCuts(s[..|s| - 1]);
    }
  }

  /** `s` neither starts nor ends with whitespace: what a `trim: true` field stores. */
  predicate IsTrimmed(s: string) {
    s == [] || (!IsWhitespace(s[0]) && !IsWhitespace(s[|s| - 1]))
  }

  /** String.prototype.trim: the middle `s[a..b]` of `s`, cut where only
   *  whitespace lies outside, and neither starting nor ending with whitespace. */
  function Trim(s: string): (r: string)
    ensures |r| <= |s|
    ensures IsTrimmed(r)
    ensures exists a, b :: && 0 <= a <= b <= |s| && r == s[a..b]
                           && (forall i :: 0 <= i < a ==> IsWhitespace(s[i]))
                           && (forall i :: b <= i < |s| ==> IsWhitespace(s[i]))
  {
    var t := TrimStart(s);
    var r := TrimEnd(t);
    TrimStartCuts(s);
    TrimEndCuts(t);
    TrimBounds(s, t, r);
    r
  }

  /** Where the parts that TrimStart and then TrimEnd drop lie in `s`. */
  lemma TrimBounds(s: string, t: string, r: string)
    requires |t| <= |s| && t == s[|s| - |t|..] && forall i :: 0 <= i < |s| - |t| ==> IsWhitespace(s[i])
    requires |r| <= |t| && r == t[..|r|] && forall i :: |r| <= i < |t| ==> IsWhitespace(t[i])
    ensures var a := |s| - |t|;
      && 0 <= a <= a + |r| <= |s| && r == s[a..a + |r|]
      && (forall i :: 0 <= i < a ==> IsWhitespace(s[i]))
      && (forall i :: a + |r| <= i < |s| ==> IsWhitespace(s[i]))
  {
    var a := |s| - |t|;
    assert t == s[a..];
    assert r == t[..|r|];
    assert r == s[a..a + |r|];
    forall i | a + |r| <= i < |s| ensures IsWhitespace(s[i]) {
      assert s[i] == t[i - a];
    }
  }

  /** Trimming leaves a trimmed string as it is. */
  lemma TrimmedIsFixed(s: string)
    requires IsTrimmed(s)
    ensures Trim(s) == s
  {
    if s != [] {
      assert TrimStart(s) == s;
      assert TrimEnd(s) == s;
    }
  }

  /** Whitespace around a trimmed string is all that Trim removes: padding a
   *  name does not change what it trims to. */
  lemma TrimIgnoresPadding(pre: string, s: string, post: string)
    requires forall i :: 0 <= i < |pre| ==> IsWhitespace(pre[i])
    requires forall i :: 0 <= i < |post| ==> IsWhitespace(post[i])
    requires IsTrimmed(s)
    ensures Trim(pre + s + post) == s
  {
    var t := pre + s + post;
    var lo, hi := |pre|, |pre| + |s|;
    forall i | 0 <= i < lo ensures IsWhitespace(t[i]) {
      assert t[i] == pre[i];
    }
    forall i | hi <= i < |t| ensures IsWhitespace(t[i]) {
      assert t[i] == post[i - hi];
    }
    assert t[lo..hi] == s;
    TrimCut(t, lo, hi);
  }

  /** Trim cuts exactly the whitespace outside a trimmed middle part. */
  lemma TrimCut(t: string, lo: nat, hi: nat)
    requires lo <= hi <= |t| && IsTrimmed(t[lo..hi])
    requires forall i :: 0 <= i < lo ==> IsWhitespace(t[i])
    requires forall i :: hi <= i < |t| ==> IsWhitespace(t[i])
    ensures Trim(t) == t[lo..hi]
  {
    var r := Trim(t);
    var a, b :| && 0 <= a <= b <= |t| && r == t[a..b]
                && (forall i :: 0 <= i < a ==> IsWhitespace(t[i]))
                && (forall i :: b <= i < |t| ==> IsWhitespace(t[i]));
    CutIsUnique(t, lo, hi, a, b);
  }

  /** Two trimmed middle parts of `t` with only whitespace outside them are the same part. */
  lemma CutIsUnique(t: string, lo: nat, hi: nat, a: nat, b: nat)
    requires lo <= hi <= |t| && IsTrimmed(t[lo..hi])
    requires forall i :: 0 <= i < lo ==> IsWhitespace(t[i])
    requires forall i :: hi <= i < |t| ==> IsWhitespace(t[i])
    requires a <= b <= |t| && IsTrimmed(t[a..b])
    requires forall i :: 0 <= i < a ==> IsWhitespace(t[i])
    requires forall i :: b <= i < |t| ==> IsWhitespace(t[i])
    ensures t[a..b] == t[lo..hi]
  {
    if lo < hi {
      var m := t[lo..hi];
      assert m[0] == t[lo] && m[|m| - 1] == t[hi - 1];
      assert a <= lo && hi <= b;
      var r := t[a..b];
      assert r[0] == t[a] && r[|r| - 1] == t[b - 1];
    }
  }

  /** A string of whitespace only trims to the empty string (which a `required` string rejects). */
  lemma TrimAllWhitespace(s: string)
    requires forall i :: 0 <= i < |s| ==> IsWhitespace(s[i])
    ensures Trim(s) == ""
  {
  }

  /** toLowerCase on one character; only the ASCII letters are folded here. */
  function LowerChar(c: char): char {
    if 'A' <= c <= 'Z' then (c as int - 'A' as int + 'a' as int) as char else c
  }

  function Lower(s: string): (r: string)
    ensures |r| == |s|
  {
    seq(|s|, i requires 0 <= i < |s| => LowerChar(s[i]))
  }

  predicate StartsWith(s: string, prefix: string) {
    |prefix| <= |s| && s[..|prefix|] == prefix
  }

  /** String.prototype.includes, written as a search from the left. */
  predicate Contains(s: string, sub: string)
    decreases |s|
  {
    StartsWith(s, sub) || (s != [] && Contains(s[1..], sub))
  }

  /** `sub` occurs in `s` at offset `i`. */
  ghost predicate OccursAt(s: string, sub: string, i: int) {
    0 <= i && i + |sub| <= |s| && s[i..i + |sub|] == sub
  }

  /** The search finds `sub` exactly when it occurs somewhere in `s`. */
  lemma {:induction false} ContainsIff(s: string, sub: string)
    ensures Contains(s, sub) <==> exists i :: OccursAt(s, sub, i)
    decreases |s|
  {
    if Contains(s, sub) {
      if StartsWith(s, sub) {
        assert OccursAt(s, sub, 0);
      } else {
        ContainsIff(s[1..], sub);
        var i :| OccursAt(s[1..], sub, i);
        assert s[1..][i..i + |sub|] == s[i + 1..i + 1 + |sub|];
        assert OccursAt(s, sub, i + 1);
      }
    }
    if exists i :: OccursAt(s, sub, i) {
      var i :| OccursAt(s, sub, i);
      if i == 0 {
        assert StartsWith(s, sub);
      } else {
        assert s[1..][i - 1..i - 1 + |sub|] == s[i..i + |sub|];
        assert OccursAt(s[1..], sub, i - 1);
        ContainsIff(s[1..], sub);
      }
    }
  }

  /** The empty search term is found in every string. */
  lemma ContainsEmpty(s: string)
    ensures Contains(s, "")
  {
  }

  /** A case-insensitive substring test: what `$regex` with option "i" and
   *  `a.toLowerCase().includes(b.toLowerCase())` both compute (for search terms
   *  without regular-expression metacharacters). */
  predicate ContainsIgnoringCase(s: string, sub: string) {
    Contains(Lower(s), Lower(sub))
  }

  /** The binary (code point) order in which MongoDB sorts strings. */
  predicate LexLe(a: string, b: string)
    decreases |a|
  {
    a == [] || (b != [] && (a[0] < b[0] || (a[0] == b[0] && LexLe(a[1..], b[1..]))))
  }

  lemma {:induction false} LexLeTotal(a: string, b: string)
    ensures LexLe(a, b) || LexLe(b, a)
    decreases |a|
  {
    if a != [] && b != [] && a[0] == b[0] {
      LexLeTotal(a[1..], b[1..]);
    }
  }

  lemma {:induction false} LexLeTransitive(a: string, b: string, c: string)
    requires LexLe(a, b) && LexLe(b, c)
    ensures LexLe(a, c)
    decreases |a|
  {
    if a != [] && b != [] && c != [] && a[0] == b[0] && b[0] == c[0] {
      LexLeTransitive(a[1..], b[1..], c[1..]);
    }
  }
}
