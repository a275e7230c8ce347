/**
  Character classes and scanning helpers shared by the statement patterns:
  the classes `\s` and `\w`, case-insensitive keyword matching, `.` and `$`
  as Python's `re` module reads them in a str pattern, and `str.strip()`.
 */
module Text {

  /** `\s` in a str pattern, which is also what `str.strip()` removes:
      the characters for which `str.isspace()` holds. */
  predicate IsSpace(c: char) {
    || c == ' '
    || ('\t' <= c <= '\r')
    || ('\U{1c}' <= c <= '\U{1f}')
    || c == '\U{85}' || c == '\U{a0}' || c == '\U{1680}'
    || ('\U{2000}' <= c <= '\U{200a}')
    || c == '\U{2028}' || c == '\U{2029}' || c == '\U{202f}' || c == '\U{205f}' || c == '\U{3000}'
  }

  /** `\w`, restricted to ASCII letters, digits and the underscore. */
  predicate IsWordChar(c: char) {
    ('a' <= c <= 'z') || ('A' <= c <= 'Z') || ('0' <= c <= '9') || c == '_'
  }

  /** Does `c` match the pattern letter `u` (an upper-case ASCII letter) under
      `re.IGNORECASE`?  Besides the ASCII pair, Python folds dotted and
      dotless I onto `i`, and the long s onto `s`. */
  predicate MatchesLetter(c: char, u: char) {
    || c == u
    || ('A' <= u <= 'Z' && c as int == u as int + 32)
    || (u == 'I' && (c == '\U{130}' || c == '\U{131}'))
    || (u == 'S' && c == '\U{17f}')
  }

  /** A non-empty run of `\w` characters: what `(\w+)` captures. */
  predicate IsWord(w: string) {
    |w| > 0 && forall k | 0 <= k < |w| :: IsWordChar(w[k])
  }

  /** Text that `(.+?)` can take in one piece: non-empty, without a line feed. */
  predicate IsLineText(w: string) {
    |w| > 0 && forall k | 0 <= k < |w| :: w[k] != '\n'
  }

  /** The keyword `kw` matches case-insensitively at position `i` of `s`. */
  predicate KeywordAt(s: string, i: nat, kw: string) {
    i + |kw| <= |s| && forall k | 0 <= k < |kw| :: MatchesLetter(s[i + k], kw[k])
  }

  predicate AllSpace(s: string, i: nat, j: nat)
    requires i <= j <= |s|
  {
    forall k | i <= k < j :: IsSpace(s[k])
  }

  predicate AllWord(s: string, i: nat, j: nat)
    requires i <= j <= |s|
  {
    forall k | i <= k < j :: IsWordChar(s[k])
  }

  /** `.` never matches a line feed. */
  predicate NoNewline(s: string, i: nat, j: nat)
    requires i <= j <= |s|
  {
    forall k | i <= k < j :: s[k] != '\n'
  }

  /** `$` without MULTILINE: the end of the string, or just before a final line feed. */
  predicate AtEnd(s: string, h: nat) {
    h == |s| || (h + 1 == |s| && s[h] == '\n')
  }

  /** End of the longest run of `\s` starting at `i` (what a greedy `\s*` takes). */
  function SkipSpace(s: string, i: nat): (j: nat)
    requires i <= |s|
    ensures i <= j <= |s| && AllSpace(s, i, j)
    ensures j == |s| || !IsSpace(s[j])
    decreases |s| - i
  {
    if i < |s| && IsSpace(s[i]) then SkipSpace(s, i + 1) else i
  }

  /** End of the longest run of `\w` starting at `i`. */
  function SkipWord(s: string, i: nat): (j: nat)
    requires i <= |s|
    ensures i <= j <= |s| && AllWord(s, i, j)
    ensures j == |s| || !IsWordChar(s[j])
    decreases |s| - i
  {
    if i < |s| && IsWordChar(s[i]) then SkipWord(s, i + 1) else i
  }

  /** Start of the run of `\s` that ends the slice `s[lo..hi]`. */
  function TrailingSpaceStart(s: string, lo: nat, hi: nat): (j: nat)
    requires lo <= hi <= |s|
    ensures lo <= j <= hi && AllSpace(s, j, hi)
    ensures j == lo || !IsSpace(s[j - 1])
    decreases hi
  {
    if lo < hi && IsSpace(s[hi - 1]) then TrailingSpaceStart(s, lo, hi - 1) else hi
  }

  /** `str.strip()` with no argument: drop leading and trailing whitespace. */
  function Strip(s: string): (r: string)
    ensures |r| <= |s|
    ensures r == [] || (!IsSpace(r[0]) && !IsSpace(r[|r| - 1]))
  {
    var lo := SkipSpace(s, 0);
    s[lo..TrailingSpaceStart(s, lo, |s|)]
  }

  /** What `strip()` drops is whitespace on both sides: `s` is some whitespace,
      then the result, then some whitespace. */
  lemma StripRemovesOnlySpace(s: string)
    ensures exists lo | 0 <= lo <= |s| - |Strip(s)| ::
      && s[lo..lo + |Strip(s)|] == Strip(s)
      && AllSpace(s, 0, lo)
      && AllSpace(s, lo + |Strip(s)|, |s|)
  {
    var lo := SkipSpace(s, 0);
    var hi := TrailingSpaceStart(s, lo, |s|);
    assert s[lo..lo + |Strip(s)|] == Strip(s);
  }

  /** Stripping an already stripped line changes nothing. */
  lemma StripIdempotent(s: string)
    ensures Strip(Strip(s)) == Strip(s)
  {
    var r := Strip(s);
    if r != [] {
      assert SkipSpace(r, 0) == 0;
      assert TrailingSpaceStart(r, 0, |r|) == |r|;
      assert r[0..|r|] == r;
    }
  }

  /** A greedy `\s*` stops exactly at the first non-whitespace character. */
  lemma {:induction false} SkipSpaceTo(s: string, i: nat, j: nat)
    requires i <= j <= |s| && AllSpace(s, i, j)
    requires j == |s| || !IsSpace(s[j])
    ensures SkipSpace(s, i) == j
    decreases j - i
  {
    if i < j {
      SkipSpaceTo(s, i + 1, j);
    }
  }

  /** A greedy `\w+` stops exactly at the first character outside `\w`. */
  lemma {:induction false} SkipWordTo(s: string, i: nat, j: nat)
    requires i <= j <= |s| && AllWord(s, i, j)
    requires j == |s| || !IsWordChar(s[j])
    ensures SkipWord(s, i) == j
    decreases j - i
  {
    if i < j {
      SkipWordTo(s, i + 1, j);
    }
  }

  /** A keyword written in upper case in the line itself matches. */
  lemma KeywordAtLiteral(s: string, i: nat, kw: string)
    requires i + |kw| <= |s| && s[i..i + |kw|] == kw
    ensures KeywordAt(s, i, kw)
  {
    forall k | 0 <= k < |kw|
      ensures MatchesLetter(s[i + k], kw[k])
    {
      assert s[i + k] == s[i..i + |kw|][k];
    }
  }

  /** A keyword spelled out inside a known piece of the line matches there. */
  lemma KeywordInPiece(s: string, p: nat, piece: string, off: nat, kw: string)
    requires p + |piece| <= |s| && s[p..p + |piece|] == piece
    requires off + |kw| <= |piece| && piece[off..off + |kw|] == kw
    ensures KeywordAt(s, p + off, kw)
  {
    forall k | 0 <= k < |kw|
      ensures MatchesLetter(s[p + off + k], kw[k])
    {
      assert s[p + off + k] == piece[off + k] == kw[k];
    }
  }

  /** Text without a line feed, found in the line, leaves a stretch without
      a line feed. */
  lemma LineTextInPiece(s: string, p: nat, w: string)
    requires p + |w| <= |s| && s[p..p + |w|] == w && IsLineText(w)
    ensures NoNewline(s, p, p + |w|)
  {
    forall k | p <= k < p + |w|
      ensures s[k] != '\n'
    {
      assert s[k] == w[k - p];
    }
  }

  /** A known suffix of `s` made of two parts: each part is a slice of `s`. */
  lemma SplitSuffix(s: string, x: nat, a: string, b: string)
    requires x <= |s| && s[x..] == a + b
    ensures x + |a| <= |s| && s[x..x + |a|] == a && s[x + |a|..] == b
  {
    assert s[x..x + |a|] == s[x..][..|a|];
    assert s[x + |a|..] == s[x..][|a|..];
  }

  /** A known slice of `s` made of two parts: each part is a slice of `s`. */
  lemma SplitSlice(s: string, i: nat, j: nat, a: string, b: string)
    requires i <= j <= |s| && s[i..j] == a + b
    ensures i + |a| <= j && s[i..i + |a|] == a && s[i + |a|..j] == b
  {
    assert s[i..i + |a|] == s[i..j][..|a|];
    assert s[i + |a|..j] == s[i..j][|a|..];
  }

  /** A character of a known piece of `s`. */
  lemma CharInPiece(s: string, p: nat, piece: string, off: nat)
    requires p + |piece| <= |s| && s[p..p + |piece|] == piece && off < |piece|
    ensures s[p + off] == piece[off]
  {
    assert s[p + off] == s[p..p + |piece|][off];
  }
}
