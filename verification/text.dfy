/**
 * The two string operations the calculator applies to the pricing-type cell:
 * Python's `str.strip()` (no argument) and `str.lower()`.
 */
module Text {

  /** Python's `str.isspace()` for a single character. */
  predicate IsSpace(c: char) {
    || ('\U{9}' <= c <= '\U{D}')
    || ('\U{1C}' <= c <= '\U{20}')
    || c == '\U{85}' || c == '\U{A0}' || c == '\U{1680}'
    || ('\U{2000}' <= c <= '\U{200A}')
    || c == '\U{2028}' || c == '\U{2029}' || c == '\U{202F}' || c == '\U{205F}' || c == '\U{3000}'
  }

  /** Lower-cases an ASCII capital letter and leaves every other character alone. */
  function LowerChar(c: char): char {
    if 'A' <= c <= 'Z' then (c as int - 'A' as int + 'a' as int) as char else c
  }

  /** Python's `str.lower()`, on the ASCII letters. */
  function Lower(s: string): (r: string)
    ensures |r| == |s|
    ensures forall i :: 0 <= i < |s| ==> r[i] == LowerChar(s[i])
  {
    if |s| == 0 then [] else [LowerChar(s[0])] + Lower(s[1..])
  }

  /** `t` is a suffix of `s`, and what precedes it is whitespace. */
  predicate SpacePrefixCut(s: string, t: string) {
    |t| <= |s| && t == s[|s| - |t|..] && forall i :: 0 <= i < |s| - |t| ==> IsSpace(s[i])
  }

  /** `r` is a prefix of `t`, and what follows it is whitespace. */
  predicate SpaceSuffixCut(t: string, r: string) {
    |r| <= |t| && r == t[..|r|] && forall i :: |r| <= i < |t| ==> IsSpace(t[i])
  }

  /** Drops leading whitespace. */
  function TrimStart(s: string): (r: string)
    ensures SpacePrefixCut(s, r)
    ensures |r| > 0 ==> !IsSpace(r[0])
  {
    if |s| > 0 && IsSpace(s[0]) then TrimStart(s[1..]) else s
  }

  /** Drops trailing whitespace. */
  function TrimEnd(s: string): (r: string)
    ensures SpaceSuffixCut(s, r)
    ensures |r| > 0 ==> !IsSpace(r[|r| - 1])
  {
    if |s| > 0 && IsSpace(s[|s| - 1]) then TrimEnd(s[..|s| - 1]) else s
  }

  /** `r` is the slice `s[lo..lo + |r|]`, and everything cut away around it is whitespace. */
  predicate CutsOnlySpace(s: string, r: string, lo: nat) {
    && lo + |r| <= |s|
    && r == s[lo..lo + |r|]
    && (forall i :: 0 <= i < lo ==> IsSpace(s[i]))
    && (forall i :: lo + |r| <= i < |s| ==> IsSpace(s[i]))
  }

  /**
   * Python's `str.strip()`: the slice of `s` that neither starts nor ends
   * with whitespace, obtained by cutting whitespace only.
   */
  function Strip(s: string): (r: string)
    ensures exists lo :: CutsOnlySpace(s, r, lo)
    ensures |r| > 0 ==> !IsSpace(r[0]) && !IsSpace(r[|r| - 1])
  {
    var t := TrimStart(s);
    StripCuts(s, t);
    assert |TrimEnd(t)| > 0 ==> TrimEnd(t)[0] == t[0];
    TrimEnd(t)
  }

  lemma StripCuts(s: string, t: string)
    requires t == TrimStart(s)
    ensures CutsOnlySpace(s, TrimEnd(t), |s| - |t|)
  {
    SliceCuts(s, t, TrimEnd(t));
  }

  /** Cutting a whitespace prefix and then a whitespace suffix cuts only whitespace. */
  lemma SliceCuts(s: string, t: string, r: string)
    requires SpacePrefixCut(s, t) && SpaceSuffixCut(t, r)
    ensures CutsOnlySpace(s, r, |s| - |t|)
  {
    var lo := |s| - |t|;
    forall i | lo + |r| <= i < |s|
      ensures IsSpace(s[i])
    {
      assert s[i] == t[i - lo];
    }
  }

  /** Lower-casing neither creates nor removes whitespace. */
  lemma LowerCharKeepsSpace(c: char)
    ensures IsSpace(LowerChar(c)) <==> IsSpace(c)
  {
  }

  /** Lower-casing a string keeps whitespace, or its absence, at both ends. */
  lemma LowerKeepsEnds(s: string)
    ensures |s| > 0 ==> (IsSpace(Lower(s)[0]) <==> IsSpace(s[0]))
    ensures |s| > 0 ==> (IsSpace(Lower(s)[|s| - 1]) <==> IsSpace(s[|s| - 1]))
  {
    if |s| > 0 {
      LowerCharKeepsSpace(s[0]);
      LowerCharKeepsSpace(s[|s| - 1]);
    }
  }

  lemma {:induction false} TrimStartLower(s: string)
    ensures TrimStart(Lower(s)) == Lower(TrimStart(s))
  {
    if |s| > 0 {
      LowerCharKeepsSpace(s[0]);
      assert Lower(s)[1..] == Lower(s[1..]);
      if IsSpace(s[0]) {
        TrimStartLower(s[1..]);
      }
    }
  }

  lemma {:induction false} TrimEndLower(s: string)
    ensures TrimEnd(Lower(s)) == Lower(TrimEnd(s))
  {
    if |s| > 0 {
      LowerCharKeepsSpace(s[|s| - 1]);
      assert Lower(s)[..|s| - 1] == Lower(s[..|s| - 1]);
      if IsSpace(s[|s| - 1]) {
        TrimEndLower(s[..|s| - 1]);
      }
    }
  }

  /** Stripping and lower-casing commute. */
  lemma StripLowerCommute(s: string)
    ensures Strip(Lower(s)) == Lower(Strip(s))
  {
    TrimStartLower(s);
    TrimEndLower(TrimStart(s));
  }

  /**
   * The stripped, lower-cased string is no longer than the original, has no
   * whitespace at either end and no ASCII capital.
   */
  lemma LowerStripped(s: string)
    ensures |Lower(Strip(s))| <= |s|
    ensures |Lower(Strip(s))| > 0 ==> !IsSpace(Lower(Strip(s))[0]) && !IsSpace(Lower(Strip(s))[|Lower(Strip(s))| - 1])
    ensures forall i :: 0 <= i < |Lower(Strip(s))| ==> !('A' <= Lower(Strip(s))[i] <= 'Z')
  {
    var t := Strip(s);
    LowerKeepsEnds(t);
    forall i | 0 <= i < |Lower(t)|
      ensures !('A' <= Lower(t)[i] <= 'Z')
    {
      assert Lower(t)[i] == LowerChar(t[i]);
    }
  }

  /** Lower-casing the stripped string cuts only whitespace from the lower-cased one. */
  lemma LowerStripCuts(s: string)
    ensures exists lo :: CutsOnlySpace(Lower(s), Lower(Strip(s)), lo)
  {
    StripLowerCommute(s);
    var r := Strip(Lower(s));
    var lo :| CutsOnlySpace(Lower(s), r, lo);
  }

  /** A string that neither starts nor ends with whitespace is left as it is by `Strip`. */
  lemma StripUnpadded(s: string)
    requires |s| > 0 ==> !IsSpace(s[0]) && !IsSpace(s[|s| - 1])
    ensures Strip(s) == s
  {
  }

  /** Stripping a word followed by one space gives back the word. */
  lemma StripTrailingSpace(s: string)
    requires |s| > 0 && !IsSpace(s[0]) && !IsSpace(s[|s| - 1])
    ensures Strip(s + " ") == s
  {
    var t := s + " ";
    assert t[0] == s[0];
    assert TrimStart(t) == t;
    assert t[..|t| - 1] == s;
    assert TrimEnd(t) == TrimEnd(s);
  }
}
