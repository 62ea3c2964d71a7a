/** `transliterate` and `generateAlias` (index.js): the deterministic
    Cyrillic-to-Latin slug that names every artifact and joins the three levels
    of the crawl. */
module Alias {
  import opened JsString

  /** Number of entries of the lookup table. */
  const TableSize := 33

  /** Entry `index` of the lookup table: index 0 is Ё/ё, indexes 1..32 are
      А..Я in alphabet order. The hard sign (27) and the soft sign (29)
      vanish. */
  function TableEntry(index: int): string
    requires 0 <= index < TableSize
  {
    match index
    case 0 => "yo"
    case 1 => "a"
    case 2 => "b"
    case 3 => "v"
    case 4 => "g"
    case 5 => "d"
    case 6 => "e"
    case 7 => "zh"
    case 8 => "z"
    case 9 => "i"
    case 10 => "y"
    case 11 => "k"
    case 12 => "l"
    case 13 => "m"
    case 14 => "n"
    case 15 => "o"
    case 16 => "p"
    case 17 => "r"
    case 18 => "s"
    case 19 => "t"
    case 20 => "u"
    case 21 => "f"
    case 22 => "h"
    case 23 => "c"
    case 24 => "ch"
    case 25 => "sh"
    case 26 => "shch"
    case 27 => ""
    case 28 => "y"
    case 29 => ""
    case 30 => "e"
    case 31 => "yu"
    case 32 => "ya"
    case _ => assert false; ""
  }

  /** Characters whose JavaScript `toUpperCase` is a basic Cyrillic capital
      although they lie outside U+0400..U+045F (the historic letter forms
      U+1C80..U+1C86). A non-unicode case-insensitive `[а-яё]` matches them. */
  predicate FoldsIntoCyrillic(c: char) {
    '\U{1C80}' <= c <= '\U{1C86}'
  }

  /** The first alternative of the pattern, `[а-яё]` under the `i` flag. */
  predicate IsCyrillicClass(c: char) {
    IsCyrillicUpper(c) || IsCyrillicLower(c) || c == 'Ё' || c == 'ё' || FoldsIntoCyrillic(c)
  }

  /** The second alternative, `[\s_-]`. */
  predicate IsSeparator(c: char) {
    IsSpace(c) || c == '_' || c == '-'
  }

  /** Characters no alternative matches, so `replace` keeps them:
      `[a-z\d]` under the `i` flag. */
  predicate IsAsciiAlnum(c: char) {
    IsAsciiLower(c) || IsAsciiUpper(c) || IsDecimalDigit(c)
  }

  /** The characters `transliterate` can output. */
  predicate IsWordChar(c: char) {
    IsAsciiAlnum(c) || c == '_'
  }

  /** The characters an alias is made of: `[a-z0-9_]`. */
  predicate IsAliasChar(c: char) {
    IsAsciiLower(c) || IsDecimalDigit(c) || c == '_'
  }

  predicate IsAlias(s: string) {
    forall i :: 0 <= i < |s| ==> IsAliasChar(s[i])
  }

  /** The table index the replacement callback computes from the code point. */
  function TableIndex(c: char): int
    requires IsCyrillicClass(c)
  {
    var code := c as int;
    if code == 1025 || code == 1105 then 0
    else if code > 1071 then code - 1071
    else code - 1039
  }

  /** `t[index]`; an index past the table reads `undefined`, which the
      replacement turns into the text "undefined". */
  function Lookup(index: int): string {
    if 0 <= index < TableSize then TableEntry(index) else "undefined"
  }

  /** What the global replace substitutes for one character. */
  function TranslitChar(c: char): (r: string)
    ensures |r| <= 9
    ensures forall j :: 0 <= j < |r| ==> IsWordChar(r[j])
  {
    TableIsLowerLatin();
    if IsCyrillicClass(c) then Lookup(TableIndex(c))
    else if IsSeparator(c) then "_"
    else if IsAsciiAlnum(c) then [c]
    else ""
  }

  lemma TableIsLowerLatin()
    ensures forall i, j :: 0 <= i < TableSize && 0 <= j < |TableEntry(i)| ==> IsAsciiLower(TableEntry(i)[j])
  {
  }

  /** `transliterate`: every match of the pattern is a single character, so
      the global replace rewrites the text one character at a time. */
  function Transliterate(s: string): (r: string)
    ensures |r| <= 9 * |s|
  {
    if |s| == 0 then [] else TranslitChar(s[0]) + Transliterate(s[1..])
  }

  /** `transliterate` outputs only ASCII letters, digits and `_`. */
  lemma {:induction false} TransliterateIsWord(s: string)
    ensures forall i :: 0 <= i < |Transliterate(s)| ==> IsWordChar(Transliterate(s)[i])
    decreases |s|
  {
    if s != [] {
      TransliterateIsWord(s[1..]);
    }
  }

  /** `.replace(/ /g, '_')`. */
  function SpacesToUnderscores(s: string): (r: string)
    ensures |r| == |s|
    ensures forall i :: 0 <= i < |s| ==> r[i] == (if s[i] == ' ' then '_' else s[i])
  {
    seq(|s|, i requires 0 <= i < |s| => if s[i] == ' ' then '_' else s[i])
  }

  /** `\w` and `-`: the characters `.replace(/[^\w-]+/g, '')` keeps. */
  predicate IsKeptByStrip(c: char) {
    IsAsciiAlnum(c) || c == '_' || c == '-'
  }

  /** `.replace(/[^\w-]+/g, '')`: deleting every run of other characters is
      deleting every other character. */
  function StripNonWord(s: string): (r: string)
    ensures |r| <= |s|
    ensures forall i :: 0 <= i < |r| ==> IsKeptByStrip(r[i])
    ensures (forall i :: 0 <= i < |s| ==> IsKeptByStrip(s[i])) ==> r == s
  {
    if |s| == 0 then []
    else if IsKeptByStrip(s[0]) then [s[0]] + StripNonWord(s[1..])
    else StripNonWord(s[1..])
  }

  /** Deleting characters one at a time: each character is kept or dropped
      on its own, so the result is the kept characters in their order. */
  lemma {:induction false} StripNonWordAppend(a: string, b: string)
    ensures StripNonWord([]) == []
    ensures |a| == 1 ==> StripNonWord(a) == if IsKeptByStrip(a[0]) then a else []
    ensures StripNonWord(a + b) == StripNonWord(a) + StripNonWord(b)
    decreases |a|
  {
    if a == [] {
      assert a + b == b;
    } else {
      assert (a + b)[0] == a[0];
      assert (a + b)[1..] == a[1..] + b;
      StripNonWordAppend(a[1..], b);
      if |a| == 1 {
        assert a[1..] == [];
        assert [a[0]] == a;
      }
    }
  }

  /** `generateAlias`. The three steps after `transliterate` find only
      letters, digits and `_`: lower-casing is the only one that changes
      anything, and the result is made of `[a-z0-9_]`. */
  function GenerateAlias(src: string): (r: string)
    ensures IsAlias(r)
    ensures r == ToLowerCase(Transliterate(src))
  {
    var t := Transliterate(src);
    TransliterateIsWord(src);
    var lowered := ToLowerCase(t);
    assert forall i :: 0 <= i < |lowered| ==> IsAliasChar(lowered[i]);
    var spaced := SpacesToUnderscores(lowered);
    assert spaced == lowered;
    StripNonWord(spaced)
  }

  /** The per-character rewrite: capitals and small letters of the Russian
      alphabet index the same table entry, so both give the same Latin text. */
  lemma TranslitCharCases(c: char)
    ensures IsCyrillicUpper(c) ==>
      TableIndex(c) == c as int - 1039 && 1 <= TableIndex(c) <= 32 && TranslitChar(c) == TableEntry(c as int - 1039)
    ensures IsCyrillicLower(c) ==>
      TableIndex(c) == c as int - 1071 && 1 <= TableIndex(c) <= 32 && TranslitChar(c) == TableEntry(c as int - 1071)
    ensures c == 'Ё' || c == 'ё' ==> TranslitChar(c) == "yo"
    ensures c == 'ъ' || c == 'Ъ' || c == 'ь' || c == 'Ь' ==> TranslitChar(c) == ""
    ensures FoldsIntoCyrillic(c) ==> TranslitChar(c) == "undefined"
    ensures IsSeparator(c) ==> TranslitChar(c) == "_"
    ensures IsAsciiAlnum(c) ==> TranslitChar(c) == [c]
    ensures !IsCyrillicClass(c) && !IsSeparator(c) && !IsAsciiAlnum(c) ==> TranslitChar(c) == ""
    ensures IsCyrillicUpper(c) ==> TranslitChar(c) == TranslitChar(LowerChar(c))
  {
  }

  /** Replacing character by character distributes over concatenation. */
  lemma {:induction false} TransliterateAppend(a: string, b: string)
    ensures Transliterate(a + b) == Transliterate(a) + Transliterate(b)
    decreases |a|
  {
    if a == [] {
      assert a + b == b;
    } else {
      assert (a + b)[1..] == a[1..] + b;
      TransliterateAppend(a[1..], b);
    }
  }

  lemma TransliterateEmpty()
    ensures Transliterate("") == ""
  {
  }

  /** A text made only of ASCII letters, digits and `_` passes through
      `transliterate` unchanged. */
  lemma {:induction false} TransliterateFixesWords(s: string)
    requires forall i :: 0 <= i < |s| ==> IsWordChar(s[i])
    ensures Transliterate(s) == s
    decreases |s|
  {
    if s != [] {
      TransliterateFixesWords(s[1..]);
      assert TranslitChar(s[0]) == [s[0]];
      assert s == [s[0]] + s[1..];
    }
  }

  /** An alias is its own alias. */
  lemma {:induction false} AliasIdempotent(s: string)
    ensures GenerateAlias(GenerateAlias(s)) == GenerateAlias(s)
  {
    var a := GenerateAlias(s);
    TransliterateFixesWords(a);
    assert ToLowerCase(a) == a;
  }

  /** Lower-casing one character first does not change what it contributes
      to the alias. */
  lemma LowerFirstSameChunk(c: char)
    ensures ToLowerCase(TranslitChar(LowerChar(c))) == ToLowerCase(TranslitChar(c))
  {
    TranslitCharCases(c);
    if IsAsciiUpper(c) {
      assert TranslitChar(LowerChar(c)) == [LowerChar(c)];
    }
  }

  /** Lower-casing the text first gives the same alias: the alias does not
      depend on letter case. */
  lemma {:induction false} AliasIgnoresCase(s: string)
    ensures GenerateAlias(ToLowerCase(s)) == GenerateAlias(s)
    decreases |s|
  {
    if s != [] {
      var l := ToLowerCase(s);
      assert l == [LowerChar(s[0])] + ToLowerCase(s[1..]);
      TransliterateAppend([LowerChar(s[0])], ToLowerCase(s[1..]));
      TransliterateAppend([s[0]], s[1..]);
      assert [s[0]] + s[1..] == s;
      assert Transliterate([s[0]]) == TranslitChar(s[0]);
      assert Transliterate([LowerChar(s[0])]) == TranslitChar(LowerChar(s[0]));
      ToLowerCaseAppend(TranslitChar(LowerChar(s[0])), Transliterate(ToLowerCase(s[1..])));
      ToLowerCaseAppend(TranslitChar(s[0]), Transliterate(s[1..]));
      LowerFirstSameChunk(s[0]);
      AliasIgnoresCase(s[1..]);
    }
  }

  lemma TransliterateCons(c: char, s: string)
    ensures Transliterate([c] + s) == TranslitChar(c) + Transliterate(s)
  {
    assert ([c] + s)[1..] == s;
  }

  /** Alias and transliteration agree whenever the transliteration has no
      capitals. */
  lemma AliasOfLowerTransliteration(src: string)
    requires IsAlias(Transliterate(src))
    ensures GenerateAlias(src) == Transliterate(src)
  {
    var t := Transliterate(src);
    assert ToLowerCase(t) == t;
  }

  /** The alias of a concatenation is the concatenation of the aliases. */
  lemma AliasAppend(a: string, b: string)
    ensures GenerateAlias(a + b) == GenerateAlias(a) + GenerateAlias(b)
  {
    TransliterateAppend(a, b);
    ToLowerCaseAppend(Transliterate(a), Transliterate(b));
  }
}
