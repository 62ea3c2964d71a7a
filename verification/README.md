# aspotparser core, modelled in Dafny

The crawler reads a car catalogue site on three levels. The brand page gives
brand records and links to the models pages. Each models page gives model
records and links to the price pages. Each price page gives a price sheet of
unit blocks ("discounts") and equipment cards. The records are tied together
by aliases: Latin slugs generated from the Cyrillic display names.

This project models the pure part of `index.js`:

- `transliterate` and `generateAlias`, in `Alias`, with worked examples in
  `AliasExamples`. They depend on `JsString`, which models `trim`, JavaScript
  white space and `toLowerCase`.
- The two style matchers `getBackgroundFromStyle` and `getColorFromStyle`, in
  `Style`. Each regular expression is modelled with its leftmost-match and
  greedy-capture semantics.
- `parseInt` without a radix, in `JsNumber`. It reads the `offers` count.
- The keys, URLs and file names that join the three levels, in `Keys`. This
  includes `path.join` with the normalisation of Node's POSIX path module.
- The label/value rows folded into objects, last write wins, in `Rows`. This
  covers `settings`, `price` with `dealer` seeded first, and `info` with its
  `.last` list.
- The record assembly of `parseBrands`, `parseModel` and `parsePrice`, in
  `BrandPage`, `ModelPage` and `PricePage`.
  - Every page extractor takes the page already reduced to lists of tiles
    and rows: texts, optional attributes and sub-rows.
  - A step that throws in JavaScript is a `Failure` (`Wrappers.Result`). This
    covers reading the capture of a failed match and calling `trim` on a
    missing attribute. The helpers for this are in `Extract`.
  - `Wrappers.Traverse` is the `each` loop that stops at the first throw.

Behaviour worth noting:

- Every separator (white space, `_`, `-`) becomes its own `_`. Runs are not
  collapsed, so `"  "` gives `"__"`, not `""`.
- Lower-casing comes after the whole rewrite. For the letters the model
  lower-cases, the result is the same either way (`Alias.AliasIgnoresCase`).
- Both ъ (index 27) and ь (index 29) map to `""`.
- `getColorFromStyle("background: red")` is `" red"`, because the value is not
  trimmed.
- `offers` may be negative or NaN.
- A character such as U+1C80, which case-folds into `[а-яё]`, indexes past
  the table and yields `"undefined"`.

## Model

| member | source | states |
|---|---|---|
| Alias.TranslitChar | index.js:217-230 | One matched character is replaced by at most nine characters, all ASCII letters, digits or `_`. |
| Alias.TranslitCharCases | index.js:217-230 | A capital А–Я gives table entry code − 1039; a small letter а–я gives table entry code − 1071. Ё/ё give "yo", and ъ/Ъ/ь/Ь give "". A letter that case-folds into the class gives "undefined". Each white space, `_` or `-` gives one `_`. ASCII letters and digits are kept; every other character is deleted. A Cyrillic capital А–Я gives the same text as its small letter. |
| Alias.TableIsLowerLatin | index.js:225-229 | Every table entry is made of small ASCII letters. |
| Alias.Transliterate | index.js:216-232 | Each input character gives at most nine output characters. |
| Alias.TransliterateIsWord | index.js:216-232 | `transliterate` outputs only ASCII letters, digits and `_`. |
| Alias.TransliterateAppend | index.js:217-221 | The per-character global replace distributes over concatenation. |
| Alias.TransliterateEmpty | index.js:217-221 | The empty text transliterates to the empty text. |
| Alias.TransliterateFixesWords | index.js:217-221 | A text of ASCII letters, digits and `_` is left as it is. |
| Alias.StripNonWord | index.js:213 | `.replace(/[^\w-]+/g,'')` keeps only `\w` and `-`, and leaves a text made of them unchanged. |
| Alias.StripNonWordAppend | index.js:213 | Each character is kept or deleted on its own: a kept character stays, another one disappears, and the result for a concatenation is the concatenation of the results. |
| Alias.GenerateAlias | index.js:212-214 | An alias is made of `[a-z0-9_]` only. It equals the lower-cased transliteration, so the last two replacements change nothing. |
| Alias.AliasIdempotent | index.js:212-214 | The alias of an alias is that alias. |
| Alias.AliasIgnoresCase | index.js:212-230 | Lower-casing the input first gives the same alias. |
| Alias.AliasAppend | index.js:212-221 | The alias of a concatenation is the concatenation of the aliases. |
| Alias.AliasOfLowerTransliteration | index.js:212-214 | When the transliteration is already an alias, the alias is the transliteration. |
| AliasExamples.SpacesAreNotCollapsed | index.js:217-221 | `"  "` gives `"__"`, and space, `-`, `_` give `"___"`. |
| AliasExamples.LatinExample | index.js:212-214 | `"BMW X5"` gives `"bmw_x5"`. |
| AliasExamples.CyrillicExample | index.js:212-230 | `"Тойота Камри"` gives `"toyota_kamri"`. |
| AliasExamples.FoldedLetterExample | index.js:217-230 | U+1C80, which case-folds to В, reads past the table and gives `"undefined"`. |
| JsString.Trim | index.js:40 | `trim` removes leading and trailing white space only: the result is a slice of the text with only white space before and after it. The result is trimmed, and it is empty exactly when the text was all white space. |
| JsString.TrimIdempotent | index.js:40 | Trimming twice is trimming once. |
| JsString.TrimAroundWord | index.js:90 | `trim` of blanks, a text with no blank at either end, and a tail keeps that text whole and removes only the tail's trailing blanks. |
| JsString.TrimSkipsLeadingSpace | index.js:90 | White space before a trimmed text is removed and the text is kept. |
| Style.UrlMatchHere | index.js:201-202 | The pattern matches at a position exactly when it is reported there, together with the end of its greedy capture. |
| Style.FindUrl | index.js:201-202 | The scan of `exec` finds the leftmost position where `background-image:url(` is followed on the same line by `)`, or reports that there is none. |
| Style.CloseOnLine | index.js:201 | The greedy `(.*)` stops at the last `)` before the end of the line. |
| Style.BackgroundFromStyle | index.js:200-204 | There is a result exactly when the pattern matches somewhere. The result is what the leftmost match captures up to the last `)` of its line. |
| Style.BackgroundRoundTrip | index.js:200-204 | A one-line `background-image:url(<u>)` declaration reads back `<u>`. |
| Style.NoCloseNoBackground | index.js:200-204 | A style without `)` has no background image, so the extractor throws. |
| Style.BackgroundExample | index.js:200-204 | `background-image:url(/img/a.png)` gives `/img/a.png`. |
| Style.FindColor | index.js:207-208 | The scan finds the leftmost `background:` or `background-color:`, or reports that there is none. |
| Style.ColorFromStyle | index.js:206-210 | There is a result exactly when some declaration matches. The result is the rest of the line after the colon of the leftmost one, with `-color` tried first. |
| Style.ColorRoundTrip | index.js:206-210 | `background-color:<v>` and `background:<v>` on one line both read back `<v>`, untrimmed. |
| Style.ColorFromLeftmost | index.js:206-210 | Whatever the leftmost match captures is the result. |
| Style.ImageIsNoColor | index.js:206-209 | `background-image:` is not a colour declaration: followed by any text holding no `background:` or `background-color:` of its own, as an image URL like `url(/img/bmw.png)`, the style has no colour. |
| Style.NoLetterBNoColor | index.js:206-209 | A style without a `b` has no colour, so the extractor throws. |
| Style.ColorExamples | index.js:206-210 | `background-color:#ffffff` gives `#ffffff`, and `background: red` gives ` red`. |
| Style.ImageOnlyExample | index.js:206-210 | `background-image:url(/img/bmw.png)` has no colour. |
| JsNumber.ParseInt | index.js:90 | A number is read only when a decimal digit follows the blanks and the optional sign, so a text without digits is NaN. A negative result comes from a `-` after the blanks. |
| JsNumber.DigitRun | index.js:90 | `parseInt` reads the longest prefix of digits, stopping at the first non-digit. |
| JsNumber.ParseIntReadsDecimal | index.js:90 | Leading white space, an optional sign and a decimal numeral without leading zeros are read as the signed value. Whatever non-digit text follows the digits is ignored, except an `x` or `X` right after a lone `0`, which switches to radix 16. Negative counts are kept. |
| JsNumber.ParseIntOfUnsigned | index.js:90 | A text that starts with a digit is read with no sign and no blank skipped. |
| JsNumber.ParseIntOfDecimal | index.js:90 | A decimal numeral without leading zeros at the start of the text is read back, whatever non-digit text follows it, except an `x` or `X` right after a lone `0`. |
| JsNumber.ParseIntWithoutDigits | index.js:90 | Without a digit after the blanks and the optional sign the result is NaN (`None`), not a failure. This covers a sign followed by a blank or by a second sign, as in `"- 5"` and `"+-5"`. |
| JsNumber.TrailingTextExample | index.js:90 | `"12 шт"` gives 12. |
| JsNumber.HexExample | index.js:90 | `"0x1A"` is read in radix 16 as 26. |
| ModelPage.Offers | index.js:90 | `offers` is a number only when the count text has a digit. |
| ModelPage.OffersReadsCount | index.js:90 | `offers` is the leading decimal numeral, without leading zeros, of the trimmed count text. Blanks before it, a unit after it and blanks after that are ignored, except a unit starting with `x` or `X` right after a lone `0`, which switches to radix 16. |
| Keys.JoinPlain | index.js:46 | `path.join` normalises the joined path: dropping empty and `.` segments and resolving `..` leaves a one-segment directory and a plain segment as the two with one `/` between them. |
| Keys.JoinResolvesDots | index.js:46 | The normalisation is not plain concatenation: `/<d>` joined with `../<seg>` gives `/<seg>`, and with `./<seg>` gives `/<d>/<seg>`. |
| Keys.AliasNameIsPlain | index.js:46 | `<alias>.json` is a plain path segment, so `path.join` has nothing to normalise. |
| Keys.ModelsUrl | index.js:46 | `models_url` is `/models/<alias>.json`. |
| Keys.ModelsUrlRoundTrip | index.js:46 | The alias can be read back from `models_url`, so distinct aliases give distinct URLs. |
| Keys.CompositeKey | index.js:92-95 | The key is brand, `_`, model alias, and it is an alias when both parts are. |
| Keys.PricesUrl | index.js:92 | `prices_url` is `/prices/<brand>_<alias>.json`. |
| Keys.ModelsFile | index.js:97 | The models of a brand are written to `models/<alias>.json` under the data directory. |
| Keys.PricesFile | index.js:188 | The prices of a model are written to `prices/<key>.json` under the data directory. |
| Keys.ModelsUrlNamesModelsFile | index.js:97 | A brand's `models_url` is, after the leading `/`, the file its models are saved to. |
| Keys.PricesUrlNamesPricesFile | index.js:188 | A model's `prices_url` is, after the leading `/`, the file its prices are saved to. |
| Keys.CompositeKeyCollides | index.js:92-95 | The composite key is not injective. (`a_b`, `c`) and (`a`, `b_c`) are all aliases and share a key. |
| Rows.Fold | index.js:129-139 | Folding rows never removes a seeded property, and every new property is one a fold may store: never `__proto__`, and not `""` in the `.last` list. |
| Rows.RowKey | index.js:132 | A row is stored under an alias. |
| Rows.FoldKeys | index.js:129-139 | A folded object has a property exactly when the seed has it or some row writes it. `__proto__` is never written, and neither is `""` in the `.last` list. |
| Rows.FoldLastWins | index.js:130-133 | The value of a property is that of the last row that writes it. |
| Rows.FoldKeepsSeed | index.js:134-139 | A property no row writes keeps its seeded value. |
| Rows.SettingsFromRows | index.js:129-133 | `settings` has exactly the aliases of the row labels other than `__proto__`. Each holds the trimmed value of the last row with that alias. |
| Rows.PricesDealer | index.js:134-139 | `dealer` is always present. It holds the unit's trimmed price unless a row aliased `dealer` overwrote it, in which case it holds the last such row's value. |
| Rows.InfoEmptyKey | index.js:155-166 | The `.last` list never adds the property `""`. It is present only if a row of the first lists wrote it. |
| Rows.InfoLastListWins | index.js:160-166 | A row of the `.last` list overrides the first lists for its property. |
| Rows.InfoFirstListValue | index.js:155-166 | A property the `.last` list does not write keeps the last value from the first lists. This includes `""` when the `.last` list's rows with an empty label are skipped. |
| Rows.InfoEmptyLabelExample | index.js:155-166 | A first-list row with an empty label stores `""`, and a `.last` row whose label trims to nothing is skipped, so `info[""]` keeps the first value. |
| Rows.FoldSkipsProto | index.js:132 | `__proto__` never becomes a property. |
| Extract.UndefinedMatchesNothing | index.js:44 | A missing style attribute arrives as the text "undefined", which neither matcher accepts. |
| Extract.TrimmedAttr | index.js:145 | `.attr(...).trim()` succeeds exactly when the attribute is present, and gives a trimmed text. |
| Wrappers.Traverse | index.js:38-50 | The `each` callback runs on the items in order. The loop succeeds exactly when every callback does, with one result per item. A failure carries the error of the first failing item. |
| BrandPage.ParseBrandTile | index.js:39-49 | A tile succeeds exactly when its span style names a background image, and otherwise fails with that error. The record has the trimmed name, its alias, the image URL and `/models/<alias>.json`. The link carries the alias and the `href`. |
| BrandPage.BrandLinkNamesModelsFile | index.js:46-49 | A brand's link names an alias, and `models_url` is the file that alias's models are saved to. |
| BrandPage.BrandItems | index.js:38-50 | The tiles are parsed in order, and the page fails exactly when some tile fails. |
| BrandPage.ParseBrands | index.js:38-50 | One record and one link per tile, in document order. The i-th link is built from the i-th record. The page fails exactly when some tile has no background image. |
| ModelPage.ParseModelTile | index.js:84-95 | A tile succeeds exactly when its photo style names an image and its link has an `href`. The photo error is reported first. The record has the trimmed name, its alias, `offers`, the image and `prices_url`. The link carries the composite key and the trimmed `href`. |
| ModelPage.ModelLinkNamesPricesFile | index.js:92-95 | A model's link key is an alias, and `prices_url` is the file saved under that key. |
| ModelPage.ModelItems | index.js:83-96 | The tiles are parsed in order. The page fails exactly when some tile fails, and item i is what tile i gives. |
| ModelPage.ModelItemsFromTiles | index.js:83-96 | Each item of a parsed page is the record and the link of its own tile. |
| ModelPage.ParseModels | index.js:83-96 | One record and one price link per tile, in document order, built from the same composite key. The page fails exactly when some tile fails. |
| PricePage.UnitColor | index.js:143-146 | The `color` object is the trimmed colour name and the code read from the trimmed swatch style. It fails exactly when the swatch style is missing or names no colour. |
| PricePage.UnitImage | index.js:149 | The image is read from the trimmed photo style. It fails exactly when that style is missing or names no image. |
| PricePage.ParseUnit | index.js:125-150 | A block succeeds exactly when both styles are present and the trimmed swatch style names a colour and the trimmed photo style an image. The record has the trimmed name, its alias, the colour, `settings`, `price` and the image. |
| PricePage.ParseTableRow | index.js:170-177 | A row succeeds exactly when its untrimmed swatch style names a colour. The entry has the trimmed colour name, the code and the trimmed price. |
| PricePage.ColorPrices | index.js:168-179 | The rows are parsed in order, and the list fails exactly when some row fails. |
| PricePage.Table | index.js:168-179 | The header row 0 is dropped: n rows give max(0, n − 1) entries, and entry j comes from row j + 1. The list fails exactly when some row after the header fails. |
| PricePage.TableIgnoresHeader | index.js:168-169 | Replacing the header row does not change the list. |
| PricePage.ParseCard | index.js:154-184 | A card succeeds exactly when its table does and its trimmed photo style names an image. The record has the image, the `info` object and the colour/price list. |
| PricePage.Discounts | index.js:124-152 | One record per unit block, in order. The list fails exactly when some block fails. |
| PricePage.PriceCards | index.js:153-187 | One record per card, in order. The list fails exactly when some card fails. |
| PricePage.ParsePrices | index.js:120-187 | The sheet has one record per unit block and one per card, in document order. It fails exactly when some block or card fails. |

## Left out

- Network and disk I/O (`request`, `fs.writeFile`, `__dirname`). A page enters the model as the lists its selectors produce, and the file written is named by `Keys.ModelsFile` and `Keys.PricesFile`.
- HTML parsing and selector evaluation. The cheerio library is not part of this model. `.carinfo li` also matches the rows of `.carinfo.last li`; the model receives both lists as given and does not derive one from the other.
- Promise orchestration (`main`, `parseModels`, `Promise.all`): concurrency and settle order. This includes `reject()` without `return` after a failed request, and the inner `Promise.all` that has no rejection handler.
- `JSON.stringify` output: the property order of an object (integer-like keys first) and the text format. Objects are maps.
- ModelPage.ParseModels: requires the brand to be an alias. Every call in the crawler passes an alias, and under that condition `path.join` has nothing to normalise (`Keys.JoinPlain`). For the same reason, Keys.PricesUrl, Keys.ModelsUrl, Keys.ModelsFile and Keys.PricesFile require an alias.
- ModelPage.ModelItems: states which tiles fail the page but not which error the first failing tile reports. `ModelPage.ParseModelTile` states the error per tile.
- PricePage.ParsePrices: states when the page fails, not which error it reports.
- JsString.ToLowerCase: only ASCII A–Z, Cyrillic А–Я and Ё are lower-cased. Inside `generateAlias` its input is ASCII, so it is exact there.
- Alias.AliasIgnoresCase: holds for the lower-casing modelled here, not for every character JavaScript's `toLowerCase` maps. It fails for the Kelvin sign U+212A, which lower-cases to `k` (alias `k`) while its own alias is empty, and for U+0130, which lower-cases to `i` and U+0307 (alias `i`) while its own alias is empty.
- Keys.Join: `path.join` with two arguments. The file paths join four, starting from `__dirname`, which is left out; they are modelled relative to the data directory.
- JsNumber.ParseInt: the value is an unbounded integer. It does not model IEEE double rounding of long numerals, nor `-0` for `"-0"`.
- Strings are sequences of Unicode scalar values, not UTF-16 code units. Characters outside the Basic Multilingual Plane are deleted by `transliterate` either way.
