/** `getBackgroundFromStyle` and `getColorFromStyle` (index.js): the two
    inline-style matchers. Each runs one regular expression from the start of
    the text and returns its capture group; when nothing matches, `exec`
    returns null and reading the capture throws, which is `None` here. */
module Style {
  import opened Wrappers
  import opened JsString

  /** The literal part of `/background-image:url\((.*)\)/` before the capture. */
  const UrlOpen: string := "background-image:url("
  /** `background(-color)?:` with the optional group taken. */
  const ColorDecl: string := "background-color:"
  /** `background(-color)?:` with the optional group skipped. */
  const BackgroundDecl: string := "background:"

  predicate HasAt(s: string, i: int, p: string) {
    0 <= i && i + |p| <= |s| && s[i..i + |p|] == p
  }

  /** The `\)` at `j` can end a `(.*)` that starts at `k`: `.` does not cross
      a line terminator. */
  predicate ClosesAt(s: string, k: int, j: int) {
    0 <= k <= j < |s| && s[j] == ')' && forall m :: k <= m < j ==> !IsLineTerminator(s[m])
  }

  /** The `\)` at `j` can end a match that starts at `i`. */
  predicate UrlClosesAt(s: string, i: int, j: int) {
    ClosesAt(s, i + |UrlOpen|, j)
  }

  /** The pattern matches at position `i`. */
  ghost predicate UrlMatchAt(s: string, i: int) {
    HasAt(s, i, UrlOpen) && exists j :: UrlClosesAt(s, i, j)
  }

  /** `i` is the leftmost position where the pattern matches. */
  ghost predicate LeftmostUrl(s: string, i: int) {
    UrlMatchAt(s, i) && forall i' :: 0 <= i' < i ==> !UrlMatchAt(s, i')
  }

  /** `j` is where the greedy `(.*)` started at `k` stops: the last `)` on the
      line. */
  ghost predicate GreedyClose(s: string, k: int, j: int) {
    ClosesAt(s, k, j) && forall j' :: ClosesAt(s, k, j') ==> j' <= j
  }

  /** The index of the first line terminator at or after `k`, or `|s|`. */
  function LineEnd(s: string, k: nat): (e: nat)
    requires k <= |s|
    ensures k <= e <= |s|
    ensures forall m :: k <= m < e ==> !IsLineTerminator(s[m])
    ensures e == |s| || IsLineTerminator(s[e])
    decreases |s| - k
  {
    if k == |s| || IsLineTerminator(s[k]) then k else LineEnd(s, k + 1)
  }

  /** The last `)` in `s[k..e]`. */
  function LastClose(s: string, k: nat, e: nat): (r: Option<nat>)
    requires k <= e <= |s|
    ensures r.Some? ==> k <= r.value < e && s[r.value] == ')'
    ensures r.Some? ==> forall m :: r.value < m < e ==> s[m] != ')'
    ensures r.None? ==> forall m :: k <= m < e ==> s[m] != ')'
    decreases e - k
  {
    if e == k then None
    else if s[e - 1] == ')' then Some(e - 1)
    else LastClose(s, k, e - 1)
  }

  /** Where the greedy capture begun at `k` ends, if a `)` follows on the
      same line. */
  function CloseOnLine(s: string, k: nat): (r: Option<nat>)
    requires k <= |s|
    ensures r.Some? ==> GreedyClose(s, k, r.value)
    ensures r.None? ==> forall j :: !ClosesAt(s, k, j)
  {
    var e := LineEnd(s, k);
    var r := LastClose(s, k, e);
    assert forall j :: ClosesAt(s, k, j) ==> j < e by {
      forall j | ClosesAt(s, k, j)
        ensures j < e
      {
      }
    }
    r
  }

  /** Whether the pattern matches at `i`, with the end of its capture. */
  function UrlMatchHere(s: string, i: nat): (r: Option<nat>)
    requires i <= |s|
    ensures r.Some? ==> UrlMatchAt(s, i) && GreedyClose(s, i + |UrlOpen|, r.value)
    ensures r.None? ==> !UrlMatchAt(s, i)
  {
    if HasAt(s, i, UrlOpen) then
      var r := CloseOnLine(s, i + |UrlOpen|);
      assert r.Some? ==> UrlClosesAt(s, i, r.value);
      assert r.None? ==> forall j :: !UrlClosesAt(s, i, j);
      r
    else None
  }

  /** The scan of `exec`: the first start position at or after `from` where
      the pattern matches, with the end of its capture. */
  function FindUrl(s: string, from: nat): (r: Option<(nat, nat)>)
    requires from <= |s|
    ensures r.Some? ==> from <= r.value.0 && UrlMatchAt(s, r.value.0)
    ensures r.Some? ==> GreedyClose(s, r.value.0 + |UrlOpen|, r.value.1)
    ensures r.Some? ==> forall i :: from <= i < r.value.0 ==> !UrlMatchAt(s, i)
    ensures r.None? ==> forall i :: from <= i <= |s| ==> !UrlMatchAt(s, i)
    decreases |s| - from
  {
    match UrlMatchHere(s, from)
    case Some(j) => Some((from, j))
    case None =>
      if from == |s| then None
      else
        var rest := FindUrl(s, from + 1);
        assert !UrlMatchAt(s, from);
        rest
  }

  /** A match at `i` whose greedy capture stops at `j` captures `v`. */
  ghost predicate UrlCapture(s: string, i: int, j: int, v: string) {
    GreedyClose(s, i + |UrlOpen|, j) && v == s[i + |UrlOpen|..j]
  }

  /** `getBackgroundFromStyle`: the text between the leftmost
      `background-image:url(` that has a `)` later on its line and the last
      such `)`; `None` exactly when no position matches. */
  function BackgroundFromStyle(style: string): (r: Option<string>)
    ensures r.Some? <==> exists i :: 0 <= i <= |style| && UrlMatchAt(style, i)
    ensures r.Some? ==> exists i, j :: LeftmostUrl(style, i) && UrlCapture(style, i, j, r.value)
  {
    match FindUrl(style, 0)
    case Some((i, j)) =>
      assert LeftmostUrl(style, i);
      assert UrlCapture(style, i, j, style[i + |UrlOpen|..j]);
      Some(style[i + |UrlOpen|..j])
    case None => None
  }

  /** The pattern `background(-color)?:` matches at position `i`. */
  predicate ColorMatchAt(s: string, i: int) {
    HasAt(s, i, ColorDecl) || HasAt(s, i, BackgroundDecl)
  }

  ghost predicate LeftmostColor(s: string, i: int) {
    ColorMatchAt(s, i) && forall i' :: 0 <= i' < i ==> !ColorMatchAt(s, i')
  }

  /** Where the second capture starts: the optional `-color` is tried first. */
  function ColorValueStart(s: string, i: int): (k: int)
    requires ColorMatchAt(s, i)
    ensures i < k <= |s| && s[k - 1] == ':'
  {
    if HasAt(s, i, ColorDecl) then i + |ColorDecl| else i + |BackgroundDecl|
  }

  /** `v` is what `(.*)` captures from position `k`: the rest of the line. */
  predicate ColorCaptureFrom(s: string, k: int, v: string) {
    && 0 <= k && k + |v| <= |s|
    && v == s[k..k + |v|]
    && NoLineTerminator(v)
    && (k + |v| == |s| || IsLineTerminator(s[k + |v|]))
  }

  /** The leftmost start position at or after `from` where the pattern matches. */
  function FindColor(s: string, from: nat): (r: Option<nat>)
    requires from <= |s|
    ensures r.Some? ==> from <= r.value && ColorMatchAt(s, r.value)
    ensures r.Some? ==> forall i :: from <= i < r.value ==> !ColorMatchAt(s, i)
    ensures r.None? ==> forall i :: from <= i <= |s| ==> !ColorMatchAt(s, i)
    decreases |s| - from
  {
    if ColorMatchAt(s, from) then Some(from)
    else if from == |s| then None
    else FindColor(s, from + 1)
  }

  /** `getColorFromStyle`: everything after the colon of the leftmost
      `background:` or `background-color:` up to the end of its line,
      untrimmed; `None` exactly when neither occurs. */
  function ColorFromStyle(style: string): (r: Option<string>)
    ensures r.Some? <==> exists i :: 0 <= i <= |style| && ColorMatchAt(style, i)
    ensures r.Some? ==> exists i :: LeftmostColor(style, i) && ColorCaptureFrom(style, ColorValueStart(style, i), r.value)
  {
    match FindColor(style, 0)
    case Some(i) =>
      assert LeftmostColor(style, i);
      var k := ColorValueStart(style, i);
      Some(style[k..LineEnd(style, k)])
    case None => None
  }

  /** A declaration written out in full is read back: the capture is the URL
      when the closing `)` ends its line. */
  lemma {:induction false} BackgroundRoundTrip(url: string, rest: string)
    requires NoLineTerminator(url)
    requires rest == [] || IsLineTerminator(rest[0])
    ensures BackgroundFromStyle(UrlOpen + url + ")" + rest) == Some(url)
  {
    var s := UrlOpen + url + ")" + rest;
    var k := |UrlOpen|;
    var close := k + |url|;
    assert s[..k] == UrlOpen;
    assert s[k..close] == url;
    assert s[close] == ')';
    assert HasAt(s, 0, UrlOpen);
    assert UrlClosesAt(s, 0, close);
    var r := BackgroundFromStyle(s);
    assert r.Some?;
    var i, j :| LeftmostUrl(s, i) && UrlCapture(s, i, j, r.value);
    assert i == 0;
    assert close + 1 == |s| || IsLineTerminator(s[close + 1]);
    assert j == close;
  }

  /** Without a `)` the pattern cannot match. */
  lemma NoCloseNoBackground(style: string)
    requires forall m :: 0 <= m < |style| ==> style[m] != ')'
    ensures BackgroundFromStyle(style) == None
  {
  }

  /** `background-color:` and `background:` declarations are read back as
      the rest of their line, leading blanks included. */
  lemma {:induction false} ColorRoundTrip(decl: string, value: string, rest: string)
    requires decl == ColorDecl || decl == BackgroundDecl
    requires NoLineTerminator(value)
    requires rest == [] || IsLineTerminator(rest[0])
    ensures ColorFromStyle(decl + value + rest) == Some(value)
  {
    var s := decl + value + rest;
    assert s == decl + (value + rest);
    DeclarationAtStart(decl, value + rest);
    assert LeftmostColor(s, 0);
    assert s[|decl|..|decl| + |value|] == value;
    assert ColorCaptureFrom(s, |decl|, value);
    ColorFromLeftmost(s, 0, value);
  }

  /** A text that starts with either declaration matches at 0, and its value
      starts right after the declaration. */
  lemma DeclarationAtStart(decl: string, t: string)
    requires decl == ColorDecl || decl == BackgroundDecl
    ensures ColorMatchAt(decl + t, 0)
    ensures ColorValueStart(decl + t, 0) == |decl|
  {
    var s := decl + t;
    assert s[..|decl|] == decl;
    if decl == BackgroundDecl {
      assert s[10] == ':';
      assert !HasAt(s, 0, ColorDecl) by {
        assert ColorDecl[10] == '-';
      }
    }
  }

  /** The rest of a line is determined by where it starts. */
  lemma CaptureIsUnique(s: string, k: int, v: string, w: string)
    requires ColorCaptureFrom(s, k, v) && ColorCaptureFrom(s, k, w)
    ensures v == w
  {
    assert forall j :: 0 <= j < |w| ==> w[j] == s[k + j];
    assert forall j :: 0 <= j < |v| ==> v[j] == s[k + j];
  }

  /** Whatever the leftmost declaration captures is the result. */
  lemma ColorFromLeftmost(s: string, i: int, v: string)
    requires LeftmostColor(s, i) && ColorCaptureFrom(s, ColorValueStart(s, i), v)
    ensures ColorFromStyle(s) == Some(v)
  {
    assert ColorFromStyle(s).Some?;
    var i', w :| LeftmostColor(s, i') && ColorCaptureFrom(s, ColorValueStart(s, i'), w) && w == ColorFromStyle(s).value;
    LeftmostIsUnique(s, i, i');
    CaptureIsUnique(s, ColorValueStart(s, i), v, w);
  }

  lemma LeftmostIsUnique(s: string, i: int, j: int)
    requires LeftmostColor(s, i) && LeftmostColor(s, j)
    ensures i == j
  {
  }

  /** The declaration `background-image:` is not a colour declaration. */
  const ImageDecl: string := "background-image:"

  /** A colour declaration begins with `b` and has `:` or `-c` after
      `background`. */
  lemma ColorMatchShape(s: string, i: int)
    ensures ColorMatchAt(s, i) ==> 0 <= i && i + 11 <= |s| && s[i] == 'b'
    ensures ColorMatchAt(s, i) ==> s[i + 10] == ':' || (i + 12 <= |s| && s[i + 11] == 'c')
  {
    if HasAt(s, i, ColorDecl) {
      assert s[i..i + |ColorDecl|][0] == s[i];
      assert s[i..i + |ColorDecl|][11] == s[i + 11];
    } else if HasAt(s, i, BackgroundDecl) {
      assert s[i..i + |BackgroundDecl|][0] == s[i];
      assert s[i..i + |BackgroundDecl|][10] == s[i + 10];
    }
  }

  /** A declaration found after a prefix is a declaration of the text
      after that prefix. */
  lemma MatchAfterPrefix(a: string, t: string, i: int)
    requires |a| <= i
    ensures ColorMatchAt(a + t, i) ==> ColorMatchAt(t, i - |a|)
  {
    var s := a + t;
    var j := i - |a|;
    if HasAt(s, i, ColorDecl) {
      assert s[i..i + |ColorDecl|] == t[j..j + |ColorDecl|];
    }
    if HasAt(s, i, BackgroundDecl) {
      assert s[i..i + |BackgroundDecl|] == t[j..j + |BackgroundDecl|];
    }
  }

  /** `background-image:` is not a colour declaration: a style made of it
      and a text holding no declaration of its own has no colour. */
  lemma {:induction false} ImageIsNoColor(tail: string)
    requires forall i :: 0 <= i <= |tail| ==> !ColorMatchAt(tail, i)
    ensures ColorFromStyle(ImageDecl + tail) == None
  {
    var s := ImageDecl + tail;
    assert forall m :: 1 <= m < |ImageDecl| ==> ImageDecl[m] != 'b';
    assert s[10] == '-' && s[11] == 'i';
    forall i | 0 <= i <= |s|
      ensures !ColorMatchAt(s, i)
    {
      if i < |ImageDecl| {
        assert s[i] == ImageDecl[i];
        ColorMatchShape(s, i);
      } else {
        MatchAfterPrefix(ImageDecl, tail, i);
      }
    }
  }

  /** Without a `b` no colour declaration can start anywhere. */
  lemma NoLetterBNoColor(style: string)
    requires forall m :: 0 <= m < |style| ==> style[m] != 'b'
    ensures ColorFromStyle(style) == None
  {
    forall i | 0 <= i <= |style|
      ensures !ColorMatchAt(style, i)
    {
      ColorMatchShape(style, i);
    }
  }

  lemma BackgroundExample()
    ensures BackgroundFromStyle(UrlOpen + "/img/a.png" + ")") == Some("/img/a.png")
  {
    BackgroundRoundTrip("/img/a.png", "");
    assert UrlOpen + "/img/a.png" + ")" + "" == UrlOpen + "/img/a.png" + ")";
  }

  lemma ColorExamples()
    ensures ColorFromStyle(ColorDecl + "#ffffff") == Some("#ffffff")
    ensures ColorFromStyle(BackgroundDecl + " red") == Some(" red")
  {
    ColorRoundTrip(ColorDecl, "#ffffff", "");
    assert ColorDecl + "#ffffff" + "" == ColorDecl + "#ffffff";
    ColorRoundTrip(BackgroundDecl, " red", "");
    assert BackgroundDecl + " red" + "" == BackgroundDecl + " red";
  }

  lemma ImageOnlyExample(url: string)
    requires url == "url(/img/bmw.png)"
    ensures ColorFromStyle(ImageDecl + url) == None
  {
    forall i | 0 <= i <= |url|
      ensures !ColorMatchAt(url, i)
    {
      ColorMatchShape(url, i);
    }
    ImageIsNoColor(url);
  }
}
