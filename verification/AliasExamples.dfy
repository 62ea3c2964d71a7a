/** Worked examples of `generateAlias`. The transliteration of each short
    literal is computed outright; the examples are then put together from
    those facts with the lemmas of `Alias`.

    Several lemmas here take the text as a parameter pinned by a
    precondition (`requires s == "  "`) instead of writing the literal in
    the `ensures`. This is only for proof cost: a literal in a caller's
    context is unfolded by the verifier character by character wherever it
    appears, while a parameter stays an opaque name until the lemma is
    called, so each literal is unfolded once, in its own lemma. */
module AliasExamples {
  import opened JsString
  import opened Alias

  /** A three-letter text is the replacements of its three letters. */
  lemma TransliterateThree(s: string)
    requires |s| == 3
    ensures Transliterate(s) == TranslitChar(s[0]) + TranslitChar(s[1]) + TranslitChar(s[2])
  {
    TransliterateCons(s[2], []);
    assert [s[2]] + [] == s[2..];
    TransliterateCons(s[1], s[2..]);
    assert [s[1]] + s[2..] == s[1..];
    TransliterateCons(s[0], s[1..]);
    assert [s[0]] + s[1..] == s;
  }

  lemma TransliterateSpaces(s: string)
    requires s == "  "
    ensures Transliterate(s) == "__"
  {
    assert Transliterate("  ") == "__";
  }

  lemma TransliterateSeparators(s: string)
    requires s == " -_"
    ensures Transliterate(s) == "___"
  {
    assert Transliterate(" -_") == "___";
  }

  lemma TransliterateBmw(s: string)
    requires s == "BMW"
    ensures Transliterate(s) == "BMW"
  {
    TransliterateThree(s);
    assert TranslitChar('B') == "B";
    assert TranslitChar('M') == "M";
    assert TranslitChar('W') == "W";
  }

  lemma TransliterateX5(s: string)
    requires s == " X5"
    ensures Transliterate(s) == "_X5"
  {
    TransliterateThree(s);
    assert TranslitChar(' ') == "_";
    assert TranslitChar('X') == "X";
    assert TranslitChar('5') == "5";
  }

  lemma LowerBmwX5(s: string)
    requires s == "BMW_X5"
    ensures ToLowerCase(s) == "bmw_x5"
  {
    assert ToLowerCase("BMW_X5") == "bmw_x5";
  }

  lemma TransliterateToy(s: string)
    requires s == "Той"
    ensures Transliterate(s) == "toy"
  {
    TransliterateThree(s);
    assert TranslitChar('Т') == "t";
    assert TranslitChar('о') == "o";
    assert TranslitChar('й') == "y";
  }

  lemma TransliterateOta(s: string)
    requires s == "ота"
    ensures Transliterate(s) == "ota"
  {
    TransliterateThree(s);
    assert TranslitChar('о') == "o";
    assert TranslitChar('т') == "t";
    assert TranslitChar('а') == "a";
  }

  lemma TransliterateKa(s: string)
    requires s == " Ка"
    ensures Transliterate(s) == "_ka"
  {
    TransliterateThree(s);
    assert TranslitChar(' ') == "_";
    assert TranslitChar('К') == "k";
    assert TranslitChar('а') == "a";
  }

  lemma TransliterateMri(s: string)
    requires s == "мри"
    ensures Transliterate(s) == "mri"
  {
    TransliterateThree(s);
    assert TranslitChar('м') == "m";
    assert TranslitChar('р') == "r";
    assert TranslitChar('и') == "i";
  }

  lemma TransliterateToyota(s: string)
    requires s == "Тойота"
    ensures Transliterate(s) == "toyota" && IsAlias(Transliterate(s))
  {
    var a, b := s[..3], s[3..];
    assert a == "Той" && b == "ота";
    TransliterateToy(a);
    TransliterateOta(b);
    assert s == a + b;
    TransliterateAppend(a, b);
  }

  lemma TransliterateKamri(s: string)
    requires s == " Камри"
    ensures Transliterate(s) == "_kamri" && IsAlias(Transliterate(s))
  {
    var a, b := s[..3], s[3..];
    assert a == " Ка" && b == "мри";
    TransliterateKa(a);
    TransliterateMri(b);
    assert s == a + b;
    TransliterateAppend(a, b);
  }

  lemma TransliterateFolded(s: string)
    requires s == "\U{1C80}"
    ensures Transliterate(s) == "undefined"
  {
    assert Transliterate("\U{1C80}") == "undefined";
  }

  /** Two parts whose transliterations are aliases: the alias of the whole
      is the two transliterations joined. */
  lemma AliasOfParts(a: string, b: string)
    requires IsAlias(Transliterate(a)) && IsAlias(Transliterate(b))
    ensures GenerateAlias(a + b) == Transliterate(a) + Transliterate(b)
  {
    AliasAppend(a, b);
    AliasOfLowerTransliteration(a);
    AliasOfLowerTransliteration(b);
  }

  /** Each separator becomes its own `_`: a run of spaces is neither collapsed
      nor stripped from the ends. */
  lemma SpacesAreNotCollapsed(s: string, t: string)
    requires s == "  " && t == " -_"
    ensures GenerateAlias(s) == "__"
    ensures GenerateAlias(t) == "___"
  {
    TransliterateSpaces(s);
    TransliterateSeparators(t);
    AliasOfLowerTransliteration(s);
    AliasOfLowerTransliteration(t);
  }

  /** Latin capitals are lower-cased and the space becomes `_`. */
  lemma LatinExample(brand: string, model: string)
    requires brand == "BMW" && model == " X5"
    ensures GenerateAlias(brand + model) == "bmw_x5"
  {
    TransliterateBmw(brand);
    TransliterateX5(model);
    TransliterateAppend(brand, model);
    LowerBmwX5(Transliterate(brand + model));
  }

  /** Cyrillic words are transliterated letter by letter. */
  lemma CyrillicExample(brand: string, model: string)
    requires brand == "Тойота" && model == " Камри"
    ensures GenerateAlias(brand + model) == "toyota_kamri"
  {
    TransliterateToyota(brand);
    TransliterateKamri(model);
    AliasOfParts(brand, model);
  }

  /** A historic letter form that the case-insensitive class accepts indexes
      past the table and contributes the text "undefined". */
  lemma FoldedLetterExample(s: string)
    requires s == "\U{1C80}"
    ensures GenerateAlias(s) == "undefined"
  {
    TransliterateFolded(s);
    AliasOfLowerTransliteration(s);
  }
}
