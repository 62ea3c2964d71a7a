/** What the three page extractors `parseBrands`, `parseModel` and
    `parsePrice` (index.js) share. The markup is already reduced to what the
    selectors yield: texts, attributes (an absent attribute is `None`) and
    the lists of tiles, blocks and rows in document order. A callback that
    throws ends the extraction of the page, which is a `Failure` here. */
module Extract {
  import opened Wrappers
  import opened JsString
  import opened Style

  /** Reading the capture of a match that found nothing. */
  const NoBackground: string := "no background image in style"
  const NoColor: string := "no colour in style"
  /** Calling `trim` on an attribute the element does not carry. */
  const NoAttribute: string := "attribute is missing"

  /** An attribute handed to `exec` as it is: a missing one arrives as
      `undefined`, which `exec` reads as the text "undefined". */
  function StyleText(attr: Option<string>): string {
    match attr
    case Some(s) => s
    case None => "undefined"
  }

  /** `undefined` contains neither a `)` nor a `b`, so no style matcher
      accepts it: a missing attribute handed over untrimmed fails too. */
  lemma UndefinedMatchesNothing()
    ensures BackgroundFromStyle(StyleText(None)) == None
    ensures ColorFromStyle(StyleText(None)) == None
  {
    var u := StyleText(None);
    assert forall m :: 0 <= m < |u| ==> u[m] != ')' && u[m] != 'b';
    NoCloseNoBackground(u);
    NoLetterBNoColor(u);
  }

  /** `attr(...).trim()`: a missing attribute throws. */
  function TrimmedAttr(attr: Option<string>): (r: Result<string>)
    ensures r.Success? <==> attr.Some?
    ensures r.Success? ==> IsTrimmed(r.value)
  {
    match attr
    case Some(s) => Success(Trim(s))
    case None => Failure(NoAttribute)
  }

  /** `getBackgroundFromStyle` as a step that may throw. */
  function Background(style: string): Result<string> {
    match BackgroundFromStyle(style)
    case Some(url) => Success(url)
    case None => Failure(NoBackground)
  }

  /** `getColorFromStyle` as a step that may throw. */
  function ColorCode(style: string): Result<string> {
    match ColorFromStyle(style)
    case Some(code) => Success(code)
    case None => Failure(NoColor)
  }
}
