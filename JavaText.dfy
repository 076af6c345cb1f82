/**
 * The few Java and JavaScript string operations the core relies on: `String.isBlank`,
 * `String.trim` and JavaScript's `substring`. A `string` here is a sequence of Unicode
 * scalar values (see README for what that leaves out).
 */
module JavaText {

  /**
   * `Character.isWhitespace`, by the list in its documentation: the Unicode space, line and
   * paragraph separators other than the no-break spaces U+00A0, U+2007 and U+202F, and the
   * controls U+0009..U+000D and U+001C..U+001F.
   */
  predicate IsWhitespace(c: char) {
    || ('\U{9}' <= c <= '\U{D}')
    || ('\U{1C}' <= c <= '\U{20}')
    || c == '\U{1680}'
    || ('\U{2000}' <= c <= '\U{2006}')
    || ('\U{2008}' <= c <= '\U{200A}')
    || c == '\U{2028}' || c == '\U{2029}' || c == '\U{205F}' || c == '\U{3000}'
  }

  /** `String.isBlank`: scans for the first character that is not whitespace. */
  predicate IsBlank(s: string) {
    |s| == 0 || (IsWhitespace(s[0]) && IsBlank(s[1..]))
  }

  /** The scan finds nothing exactly when every character is whitespace. */
  lemma {:induction false} IsBlankIff(s: string)
    ensures IsBlank(s) <==> forall i :: 0 <= i < |s| ==> IsWhitespace(s[i])
  {
    if |s| > 0 {
      IsBlankIff(s[1..]);
      assert forall i :: 1 <= i < |s| ==> s[i] == s[1..][i - 1];
    }
  }

  /** The characters `String.trim` strips: every code point up to and including U+0020. */
  predicate Trimmable(c: char) {
    c <= ' '
  }

  predicate AllTrimmable(s: string) {
    forall i :: 0 <= i < |s| ==> Trimmable(s[i])
  }

  /** `trim`'s first loop: skip leading characters up to U+0020. */
  function TrimStart(s: string): (r: string)
    ensures |r| <= |s| && r == s[|s| - |r|..]
  {
    if |s| > 0 && Trimmable(s[0]) then TrimStart(s[1..]) else s
  }

  /** `trim`'s second loop: drop trailing characters up to U+0020. */
  function TrimEnd(s: string): (r: string)
    ensures |r| <= |s| && r == s[..|r|]
  {
    if |s| > 0 && Trimmable(s[|s| - 1]) then TrimEnd(s[..|s| - 1]) else s
  }

  /** `String.trim`. */
  function Trim(s: string): string {
    TrimEnd(TrimStart(s))
  }

  /**
   * `t` is what is left of `s` after cutting `i` characters in front and everything after `t`,
   * and every character cut off is at most U+0020.
   */
  predicate CutAt(s: string, t: string, i: nat) {
    && i + |t| <= |s|
    && (forall k :: 0 <= k < |t| ==> s[i + k] == t[k])
    && (forall k :: 0 <= k < i ==> Trimmable(s[k]))
    && (forall k :: i + |t| <= k < |s| ==> Trimmable(s[k]))
  }

  lemma {:induction false} TrimStartCut(s: string)
    ensures CutAt(s, TrimStart(s), |s| - |TrimStart(s)|)
    ensures TrimStart(s) == [] || !Trimmable(TrimStart(s)[0])
  {
    if |s| > 0 && Trimmable(s[0]) {
      TrimStartCut(s[1..]);
    }
  }

  lemma {:induction false} TrimEndCut(s: string)
    ensures CutAt(s, TrimEnd(s), 0)
    ensures TrimEnd(s) == [] || !Trimmable(TrimEnd(s)[|TrimEnd(s)| - 1])
  {
    if |s| > 0 && Trimmable(s[|s| - 1]) {
      TrimEndCut(s[..|s| - 1]);
    }
  }

  /**
   * What `trim` promises: the result is a contiguous piece of the input (so inner spaces stay),
   * everything cut off on either side is at most U+0020, and the result neither starts nor ends
   * with such a character.
   */
  lemma TrimSpec(s: string)
    ensures |Trim(s)| <= |s|
    ensures exists i :: CutAt(s, Trim(s), i)
    ensures Trim(s) == [] || (!Trimmable(Trim(s)[0]) && !Trimmable(Trim(s)[|Trim(s)| - 1]))
  {
    var u := TrimStart(s);
    TrimStartCut(s);
    TrimEndCut(u);
    var i := |s| - |u|;
    var t := Trim(s);
    assert CutAt(s, t, i);
  }

  /** Trimming twice is trimming once. */
  lemma TrimIdempotent(s: string)
    ensures Trim(Trim(s)) == Trim(s)
  {
    TrimSpec(s);
    var t := Trim(s);
    if t != [] {
      assert TrimStart(t) == t;
      assert TrimEnd(t) == t;
    }
  }

  /** `trim` gives the empty string exactly when every character is at most U+0020. */
  lemma TrimVazioSse(s: string)
    ensures Trim(s) == [] <==> AllTrimmable(s)
  {
    TrimSpec(s);
    var t := Trim(s);
    var i: nat :| CutAt(s, t, i);
    if t != [] {
      assert s[i + 0] == t[0];
    }
  }

  /** The smaller of two counts. */
  function Min(a: nat, b: nat): nat {
    if a <= b then a else b
  }

  /**
   * JavaScript's `String.prototype.substring(start, end)` for non-negative arguments: both are
   * clamped to the length and swapped when `start > end`.
   */
  function Substring(s: string, start: nat, end: nat): (r: string)
    ensures |r| == if Min(start, |s|) <= Min(end, |s|) then Min(end, |s|) - Min(start, |s|)
                   else Min(start, |s|) - Min(end, |s|)
    ensures start <= end <= |s| ==> r == s[start..end]
    ensures end <= start <= |s| ==> r == s[end..start]
  {
    var a, b := Min(start, |s|), Min(end, |s|);
    if a <= b then s[a..b] else s[b..a]
  }
}
