/**
 * The string facts the intake form relies on: JavaScript's `String.prototype.trim`, the `\s`/`\S`
 * character classes of its regular expressions, and the unanchored e-mail test `/\S+@\S+\.\S+/.test(s)`.
 */
module Text {

  /**
   * The ECMAScript WhiteSpace and LineTerminator code points: exactly what `trim` strips and what `\s`
   * matches (TAB, VT, FF, SPACE, NBSP, ZWNBSP, the Unicode space separators, LF, CR, LS and PS).
   */
  predicate IsWhitespace(c: char) {
    c == '\t' || c == '\n' || c == '\U{000B}' || c == '\U{000C}' || c == '\r' || c == ' '
    || c == '\U{00A0}' || c == '\U{1680}' || ('\U{2000}' <= c <= '\U{200A}')
    || c == '\U{2028}' || c == '\U{2029}' || c == '\U{202F}' || c == '\U{205F}'
    || c == '\U{3000}' || c == '\U{FEFF}'
  }

  /** `s` with its leading whitespace removed: a suffix of `s` that starts with a non-whitespace character. */
  function TrimStart(s: string): (r: string)
    ensures |r| <= |s| && r == s[|s| - |r|..]
    ensures forall i :: 0 <= i < |s| - |r| ==> IsWhitespace(s[i])
    ensures r == [] || !IsWhitespace(r[0])
  {
    if s != [] && IsWhitespace(s[0]) then TrimStart(s[1..]) else s
  }

  /** `s` with its trailing whitespace removed: a prefix of `s` that ends with a non-whitespace character. */
  function TrimEnd(s: string): (r: string)
    ensures |r| <= |s| && r == s[..|r|]
    ensures forall i :: |r| <= i < |s| ==> IsWhitespace(s[i])
    ensures r == [] || !IsWhitespace(r[|r| - 1])
  {
    if s != [] && IsWhitespace(s[|s| - 1]) then TrimEnd(s[..|s| - 1]) else s
  }

  /** `r` occurs in `s` at offset `k`, and everything of `s` before and after that occurrence is whitespace. */
  ghost predicate FramedByWhitespace(r: string, s: string, k: int) {
    0 <= k <= |s| - |r| && r == s[k..k + |r|]
    && (forall i :: 0 <= i < k ==> IsWhitespace(s[i]))
    && (forall i :: k + |r| <= i < |s| ==> IsWhitespace(s[i]))
  }

  /**
   * `s.trim()`: the result is the part of `s` left after removing a whitespace-only prefix and a
   * whitespace-only suffix; it is empty exactly when `s` consists of whitespace only, and otherwise it
   * starts and ends with a non-whitespace character.
   */
  function Trim(s: string): (r: string)
    ensures exists k :: FramedByWhitespace(r, s, k)
    ensures r == [] <==> forall i :: 0 <= i < |s| ==> IsWhitespace(s[i])
    ensures r != [] ==> !IsWhitespace(r[0]) && !IsWhitespace(r[|r| - 1])
  {
    var t := TrimStart(s);
    var r := TrimEnd(t);
    TrimLeavesInfix(s, t, r);
    r
  }

  /** Stripping a whitespace prefix and then a whitespace suffix leaves an infix of `s` with whitespace around it. */
  lemma TrimLeavesInfix(s: string, t: string, r: string)
    requires |t| <= |s| && t == s[|s| - |t|..]
    requires forall i :: 0 <= i < |s| - |t| ==> IsWhitespace(s[i])
    requires t == [] || !IsWhitespace(t[0])
    requires |r| <= |t| && r == t[..|r|]
    requires forall i :: |r| <= i < |t| ==> IsWhitespace(t[i])
    ensures exists k :: FramedByWhitespace(r, s, k)
    ensures r == [] <==> forall i :: 0 <= i < |s| ==> IsWhitespace(s[i])
    ensures r != [] ==> !IsWhitespace(r[0])
  {
    var k := |s| - |t|;
    assert r == s[k..k + |r|];
    forall i | k + |r| <= i < |s| ensures IsWhitespace(s[i]) {
      assert s[i] == t[i - k];
    }
    assert FramedByWhitespace(r, s, k);
    if r == [] {
      assert t == [];
    } else {
      assert r[0] == s[k];
    }
  }

  /** Nothing but whitespace: what the JavaScript test `!s.trim()` accepts (see `BlankIffTrimEmpty`). */
  predicate IsBlank(s: string) {
    s == [] || (IsWhitespace(s[0]) && IsBlank(s[1..]))
  }

  /** A string is blank exactly when every character of it is whitespace. */
  lemma {:induction false} BlankIffAllWhitespace(s: string)
    ensures IsBlank(s) <==> forall i :: 0 <= i < |s| ==> IsWhitespace(s[i])
  {
    if s != [] {
      BlankIffAllWhitespace(s[1..]);
      assert forall i :: 1 <= i < |s| ==> s[1..][i - 1] == s[i];
    }
  }

  /** `!s.trim()` holds exactly for the blank strings: trimming leaves nothing precisely when there was only whitespace. */
  lemma BlankIffTrimEmpty(s: string)
    ensures IsBlank(s) <==> Trim(s) == []
  {
    BlankIffAllWhitespace(s);
  }

  /** `s` is a match of `\S+`: non-empty and free of whitespace. */
  predicate IsNonSpaceRun(s: string) {
    |s| > 0 && forall i :: 0 <= i < |s| ==> !IsWhitespace(s[i])
  }

  /** `s[x..y]` is a match of `\S+@\S+\.\S+` whose '@' is at `a` and whose '.' is at `d`. */
  ghost predicate EmailMatchAt(s: string, x: int, a: int, d: int, y: int) {
    0 <= x < a < d < y <= |s|
    && IsNonSpaceRun(s[x..a]) && s[a] == '@' && IsNonSpaceRun(s[a + 1..d])
    && s[d] == '.' && IsNonSpaceRun(s[d + 1..y])
  }

  /**
   * The meaning of `/\S+@\S+\.\S+/.test(s)`: some substring `s[x..y]` has the form u '@' v '.' w
   * with u, v and w runs of non-whitespace characters. The pattern is not anchored, so text before
   * and after the match is irrelevant.
   */
  ghost predicate MatchesEmailPattern(s: string) {
    exists x, a, d, y :: EmailMatchAt(s, x, a, d, y)
  }

  /** No whitespace strictly between positions `lo` and `hi` of `s`. */
  predicate NonSpaceBetween(s: string, lo: nat, hi: nat)
    requires hi <= |s|
  {
    forall k | lo < k < hi :: !IsWhitespace(s[k])
  }

  /**
   * The shortest witness of the pattern: an '@' at `a` preceded by a non-whitespace character, at
   * least one non-whitespace character after it, then a '.' at `d` followed by a non-whitespace character.
   */
  predicate EmailShapeAt(s: string, a: nat, d: nat) {
    0 < a && a + 1 < d && d + 1 < |s|
    && !IsWhitespace(s[a - 1]) && s[a] == '@' && NonSpaceBetween(s, a, d)
    && s[d] == '.' && !IsWhitespace(s[d + 1])
  }

  /** The e-mail test as the form evaluates it: the shortest witness exists somewhere in `s`. */
  predicate LooksLikeEmail(s: string) {
    exists a: nat, d: nat | a < |s| && d < |s| :: EmailShapeAt(s, a, d)
  }

  /** The executable e-mail test agrees with the regular expression, in both directions. */
  lemma LooksLikeEmailIffPattern(s: string)
    ensures LooksLikeEmail(s) <==> MatchesEmailPattern(s)
  {
    if LooksLikeEmail(s) {
      var a: nat, d: nat :| a < |s| && d < |s| && EmailShapeAt(s, a, d);
      assert IsNonSpaceRun(s[a - 1..a]);
      var v := s[a + 1..d];
      forall i | 0 <= i < |v| ensures !IsWhitespace(v[i]) {
        assert v[i] == s[a + 1 + i];
      }
      assert IsNonSpaceRun(s[d + 1..d + 2]);
      assert EmailMatchAt(s, a - 1, a, d, d + 2);
    }
    if MatchesEmailPattern(s) {
      var x, a, d, y :| EmailMatchAt(s, x, a, d, y);
      assert s[a - 1] == s[x..a][a - 1 - x];
      assert s[d + 1] == s[d + 1..y][0];
      forall k | a < k < d ensures !IsWhitespace(s[k]) {
        assert s[k] == s[a + 1..d][k - (a + 1)];
      }
      assert EmailShapeAt(s, a, d);
    }
  }
}
