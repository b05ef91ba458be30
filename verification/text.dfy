/** String trimming as the widget uses it: `comment.trim()` both decides whether a
    comment is blank and produces the stored text. */
module Text {

  /** The code points `String.prototype.trim` strips: the ECMAScript WhiteSpace
      and LineTerminator productions (tab, vertical tab, form feed, space,
      no-break space, byte-order mark, the Unicode space separators, and the four
      line terminators). */
  predicate IsWhitespace(c: char) {
    || c == '\t' || c == '\n' || c == '\U{000B}' || c == '\U{000C}' || c == '\r'
    || c == ' ' || c == '\U{00A0}' || c == '\U{1680}'
    || ('\U{2000}' <= c <= '\U{200A}')
    || c == '\U{2028}' || c == '\U{2029}' || c == '\U{202F}' || c == '\U{205F}'
    || c == '\U{3000}' || c == '\U{FEFF}'
  }

  /** Every character is whitespace (the empty string included). */
  predicate IsBlank(s: string) {
    forall i :: 0 <= i < |s| ==> IsWhitespace(s[i])
  }

  /** `r` is what trimming `s` must give: a contiguous piece of `s` with only
      whitespace cut off on either side, and no whitespace left at its ends. */
  ghost predicate IsTrimOf(r: string, s: string) {
    && (|r| > 0 ==> !IsWhitespace(r[0]) && !IsWhitespace(r[|r| - 1]))
    && exists a :: 0 <= a && a + |r| <= |s| && s[a..a + |r|] == r
                   && IsBlank(s[..a]) && IsBlank(s[a + |r|..])
  }

  /** Drops leading whitespace. */
  function TrimStart(s: string): (r: string)
    ensures |r| <= |s| && r == s[|s| - |r|..]
    ensures forall i :: 0 <= i < |s| - |r| ==> IsWhitespace(s[i])
    ensures |r| > 0 ==> !IsWhitespace(r[0])
  {
    if |s| > 0 && IsWhitespace(s[0]) then TrimStart(s[1..]) else s
  }

  /** Drops trailing whitespace. */
  function TrimEnd(s: string): (r: string)
    ensures |r| <= |s| && r == s[..|r|]
    ensures forall i :: |r| <= i < |s| ==> IsWhitespace(s[i])
    ensures |r| > 0 ==> !IsWhitespace(r[|r| - 1])
  {
    if |s| > 0 && IsWhitespace(s[|s| - 1]) then TrimEnd(s[..|s| - 1]) else s
  }

  /** `String.prototype.trim`; `TrimMeetsSpec` states what it computes. */
  function Trim(s: string): (r: string)
    ensures |r| <= |s|
    ensures |r| > 0 ==> !IsWhitespace(r[0]) && !IsWhitespace(r[|r| - 1])
  {
    var t := TrimStart(s);
    var r := TrimEnd(t);
    assert |r| > 0 ==> r[0] == t[0];
    r
  }

  /** `Trim` meets its specification: it cuts exactly the leading and trailing
      whitespace and keeps the middle of the string intact. */
  lemma TrimMeetsSpec(s: string)
    ensures IsTrimOf(Trim(s), s)
  {
    var t := TrimStart(s);
    TrimIsSlice(s, t, TrimEnd(t));
  }

  /** The witness for `IsTrimOf`: the trimmed text starts where `TrimStart` stopped.
      Stated over the contracts of the two halves rather than their definitions. */
  lemma TrimIsSlice(s: string, t: string, r: string)
    requires |t| <= |s| && t == s[|s| - |t|..]
    requires forall i :: 0 <= i < |s| - |t| ==> IsWhitespace(s[i])
    requires |t| > 0 ==> !IsWhitespace(t[0])
    requires |r| <= |t| && r == t[..|r|]
    requires forall i :: |r| <= i < |t| ==> IsWhitespace(t[i])
    requires |r| > 0 ==> !IsWhitespace(r[|r| - 1])
    ensures IsTrimOf(r, s)
  {
    var a := |s| - |t|;
    assert t == s[a..];
    assert s[a..a + |r|] == t[..|r|];
    var tail := s[a + |r|..];
    forall i | 0 <= i < |tail|
      ensures IsWhitespace(tail[i])
    {
      assert tail[i] == t[|r| + i];
    }
    assert |r| > 0 ==> r[0] == t[0];
    assert 0 <= a && a + |r| <= |s| && s[a..a + |r|] == r
      && IsBlank(s[..a]) && IsBlank(tail);
  }

  /** A comment is rejected exactly when trimming leaves nothing: `!comment.trim()`
      holds iff the comment is all whitespace. */
  lemma {:induction false} TrimEmptyIffBlank(s: string)
    ensures Trim(s) == [] <==> IsBlank(s)
  {
    var t := TrimStart(s);
    if Trim(s) == [] {
      assert |t| == 0;
    } else {
      assert |t| > 0 && t[0] == s[|s| - |t|];
    }
  }

  /** Trimming a trimmed string changes nothing. */
  lemma {:induction false} TrimIdempotent(s: string)
    ensures Trim(Trim(s)) == Trim(s)
  {
    var r := Trim(s);
    if |r| > 0 {
      assert TrimStart(r) == r;
      assert TrimEnd(r) == r;
    } else {
      assert TrimStart(r) == [];
    }
  }
}
