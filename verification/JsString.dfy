/** The pieces of the JavaScript string library that the crawler relies on:
    the character classes `\s` and `.` of its regular expressions,
    `String.prototype.trim` and `String.prototype.toLowerCase`. */
module JsString {

  /** ECMAScript LineTerminator: the characters `.` in a regular expression
      does not match. */
  predicate IsLineTerminator(c: char) {
    c == '\n' || c == '\r' || c == '\U{2028}' || c == '\U{2029}'
  }

  /** ECMAScript WhiteSpace or LineTerminator: the characters `\s` matches,
      the characters `trim` removes and the characters `parseInt` skips. */
  predicate IsSpace(c: char) {
    || c == '\t' || c == '\U{B}' || c == '\U{C}' || c == ' '
    || c == '\U{A0}' || c == '\U{1680}' || ('\U{2000}' <= c <= '\U{200A}')
    || c == '\U{202F}' || c == '\U{205F}' || c == '\U{3000}' || c == '\U{FEFF}'
    || IsLineTerminator(c)
  }

  predicate AllSpace(s: string) {
    forall i :: 0 <= i < |s| ==> IsSpace(s[i])
  }

  predicate NoLineTerminator(s: string) {
    forall i :: 0 <= i < |s| ==> !IsLineTerminator(s[i])
  }

  /** A string `trim` leaves alone. */
  predicate IsTrimmed(s: string) {
    s == [] || (!IsSpace(s[0]) && !IsSpace(s[|s| - 1]))
  }

  /** `s` without its leading white space. */
  function TrimStart(s: string): (r: string)
    ensures |r| <= |s| && r == s[|s| - |r|..]
    ensures AllSpace(s[..|s| - |r|])
    ensures r == [] || !IsSpace(r[0])
  {
    if s != [] && IsSpace(s[0]) then
      var r := TrimStart(s[1..]);
      DropFrontStep(s, r);
      r
    else s
  }

  /** `s` without its trailing white space. */
  function TrimEnd(s: string): (r: string)
    ensures |r| <= |s| && r == s[..|r|]
    ensures AllSpace(s[|r|..])
    ensures r == [] || !IsSpace(r[|r| - 1])
  {
    if s != [] && IsSpace(s[|s| - 1]) then
      var r := TrimEnd(s[..|s| - 1]);
      DropBackStep(s, r);
      r
    else s
  }

  /** One white space character more in front of what `TrimStart` removed. */
  lemma DropFrontStep(s: string, r: string)
    requires s != [] && IsSpace(s[0])
    requires |r| <= |s| - 1 && r == s[1..][|s| - 1 - |r|..] && AllSpace(s[1..][..|s| - 1 - |r|])
    ensures |r| <= |s| && r == s[|s| - |r|..] && AllSpace(s[..|s| - |r|])
  {
    assert s[..|s| - |r|] == [s[0]] + s[1..][..|s| - 1 - |r|];
  }

  /** One white space character more behind what `TrimEnd` removed. */
  lemma DropBackStep(s: string, r: string)
    requires s != [] && IsSpace(s[|s| - 1])
    requires |r| <= |s| - 1 && r == s[..|s| - 1][..|r|] && AllSpace(s[..|s| - 1][|r|..])
    ensures |r| <= |s| && r == s[..|r|] && AllSpace(s[|r|..])
  {
    assert s[|r|..] == s[..|s| - 1][|r|..] + [s[|s| - 1]];
  }

  /** `r` is a slice of `s` with only white space before and after it. */
  predicate SpacedSlice(s: string, r: string) {
    exists a :: 0 <= a && a + |r| <= |s| && r == s[a..a + |r|] && AllSpace(s[..a]) && AllSpace(s[a + |r|..])
  }

  /** `String.prototype.trim`. */
  function Trim(s: string): (r: string)
    ensures IsTrimmed(r)
    ensures |r| <= |s|
    ensures AllSpace(s) <==> r == []
    ensures SpacedSlice(s, r)
  {
    var t := TrimStart(s);
    var r := TrimEnd(t);
    StripsBothEnds(s, t, r);
    r
  }

  /** What is left after white space is removed from the front (`t`) and
      then from the back (`r`): a trimmed slice of `s` with only white space
      around it, empty exactly when `s` is all white space. */
  lemma StripsBothEnds(s: string, t: string, r: string)
    requires |t| <= |s| && t == s[|s| - |t|..] && AllSpace(s[..|s| - |t|])
    requires t == [] || !IsSpace(t[0])
    requires |r| <= |t| && r == t[..|r|] && AllSpace(t[|r|..])
    requires r == [] || !IsSpace(r[|r| - 1])
    ensures IsTrimmed(r) && |r| <= |s|
    ensures AllSpace(s) <==> r == []
    ensures SpacedSlice(s, r)
  {
    var a := |s| - |t|;
    PrefixOfSuffix(s, t, r);
    if r != [] {
      assert r[0] == t[0] == s[a];
    } else {
      assert t[|r|..] == t;
      assert t == [];
      assert s == s[..a];
    }
    assert 0 <= a && a + |r| <= |s| && r == s[a..a + |r|] && AllSpace(s[..a]) && AllSpace(s[a + |r|..]);
  }

  /** A prefix of a suffix is a slice; white space after the prefix is
      white space after the slice. */
  lemma PrefixOfSuffix(s: string, t: string, r: string)
    requires |t| <= |s| && t == s[|s| - |t|..]
    requires |r| <= |t| && r == t[..|r|] && AllSpace(t[|r|..])
    ensures r == s[|s| - |t|..|s| - |t| + |r|] && AllSpace(s[|s| - |t| + |r|..])
  {
    assert s[|s| - |t| + |r|..] == t[|r|..];
  }

  /** `trim` keeps a trimmed string as it is, so trimming twice is trimming once. */
  lemma {:induction false} TrimIdempotent(s: string)
    ensures Trim(Trim(s)) == Trim(s)
  {
    TrimFixesTrimmed(Trim(s));
  }

  lemma {:induction false} TrimFixesTrimmed(s: string)
    requires IsTrimmed(s)
    ensures Trim(s) == s
  {
  }

  predicate IsAsciiUpper(c: char) { 'A' <= c <= 'Z' }
  predicate IsAsciiLower(c: char) { 'a' <= c <= 'z' }
  predicate IsDecimalDigit(c: char) { '0' <= c <= '9' }

  /** Upper-case basic Cyrillic letters А..Я (U+0410..U+042F). */
  predicate IsCyrillicUpper(c: char) { 'А' <= c <= 'Я' }
  /** Lower-case basic Cyrillic letters а..я (U+0430..U+044F). */
  predicate IsCyrillicLower(c: char) { 'а' <= c <= 'я' }

  /** The lower-case mapping of `toLowerCase` on ASCII and the Russian
      alphabet; other characters are left unchanged here. */
  function LowerChar(c: char): (r: char)
    ensures IsAsciiUpper(c) ==> IsAsciiLower(r) && r as int == c as int + 32
    ensures IsCyrillicUpper(c) ==> IsCyrillicLower(r) && r as int == c as int + 32
    ensures c == 'Ё' ==> r == 'ё'
    ensures !IsAsciiUpper(c) && !IsCyrillicUpper(c) && c != 'Ё' ==> r == c
  {
    if IsAsciiUpper(c) || IsCyrillicUpper(c) then (c as int + 32) as char
    else if c == 'Ё' then 'ё'
    else c
  }

  /** `String.prototype.toLowerCase`, character by character. */
  function ToLowerCase(s: string): (r: string)
    ensures |r| == |s|
    ensures forall i :: 0 <= i < |s| ==> r[i] == LowerChar(s[i])
  {
    seq(|s|, i requires 0 <= i < |s| => LowerChar(s[i]))
  }

  lemma ToLowerCaseAppend(a: string, b: string)
    ensures ToLowerCase(a + b) == ToLowerCase(a) + ToLowerCase(b)
  {
  }

  /** `TrimStart` removes exactly a leading run of white space. */
  lemma {:induction false} TrimStartSkips(ws: string, t: string)
    requires AllSpace(ws)
    requires t == [] || !IsSpace(t[0])
    ensures TrimStart(ws + t) == t
    decreases |ws|
  {
    if ws == [] {
      assert ws + t == t;
    } else {
      assert (ws + t)[1..] == ws[1..] + t;
      TrimStartSkips(ws[1..], t);
    }
  }

  /** `trim` of a trimmed text after white space is that text. */
  lemma TrimSkipsLeadingSpace(ws: string, t: string)
    requires AllSpace(ws)
    requires IsTrimmed(t)
    ensures Trim(ws + t) == t
  {
    TrimStartSkips(ws, t);
    TrimFixesTrimmed(t);
  }

  /** `TrimEnd` stops at a character that is not white space: what comes
      before it is kept whole. */
  lemma {:induction false} TrimEndAfter(d: string, rest: string)
    requires d != [] && !IsSpace(d[|d| - 1])
    ensures TrimEnd(d + rest) == d + TrimEnd(rest)
    decreases |rest|
  {
    var s := d + rest;
    if rest == [] {
      assert s == d && d + [] == d;
    } else if IsSpace(rest[|rest| - 1]) {
      assert s[|s| - 1] == rest[|rest| - 1];
      assert s[..|s| - 1] == d + rest[..|rest| - 1];
      TrimEndAfter(d, rest[..|rest| - 1]);
    } else {
      assert s[|s| - 1] == rest[|rest| - 1];
    }
  }

  /** `trim` of white space, a text that starts and ends with no white space,
      and anything after it: the leading blanks and the trailing blanks of
      the tail are removed. */
  lemma TrimAroundWord(ws: string, d: string, rest: string)
    requires AllSpace(ws)
    requires d != [] && IsTrimmed(d)
    ensures Trim(ws + d + rest) == d + TrimEnd(rest)
  {
    assert ws + d + rest == ws + (d + rest);
    assert (d + rest)[0] == d[0];
    TrimStartSkips(ws, d + rest);
    TrimEndAfter(d, rest);
  }
}
