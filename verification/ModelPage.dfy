/** `parseModel` (index.js, lines 83-96): the model records of one brand
    and the links to their price pages. */
module ModelPage {
  import opened Wrappers
  import opened JsString
  import opened JsNumber
  import opened Alias
  import opened Style
  import opened Keys
  import opened Extract

  /** A `.carlist li` tile: the text of `.car-title`, the text of
      `.complete-set`, the `style` of `.car-photo` and the `href` of its
      link. */
  datatype ModelTile = ModelTile(title: string, completeSet: string, photoStyle: Option<string>, href: Option<string>)

  /** `offers` is NaN, which is `None`, when the count has no digits. */
  datatype CarModel = CarModel(name: string, alias: string, offers: Option<int>, imageUrl: string, pricesUrl: string)

  /** What a price page is fetched from, and the composite key it is saved
      under. */
  datatype PricesLink = PricesLink(model: string, link: string)

  datatype ModelItem = ModelItem(model: CarModel, link: PricesLink)

  /** The `offers` count: `parseInt` of the trimmed text. */
  function Offers(text: string): (r: Option<int>)
    ensures r.Some? ==> HasDigit(text)
  {
    OffersNeedsDigit(text);
    ParseInt(Trim(text))
  }

  /** A count is read only from a text that has a digit. */
  lemma OffersNeedsDigit(text: string)
    ensures ParseInt(Trim(text)).Some? ==> HasDigit(text)
  {
    if ParseInt(Trim(text)).Some? {
      TrimKeepsDigit(text);
    }
  }


  /** The count is the leading decimal numeral (without leading zeros) of
      the text; blanks around it and a unit after it (as in "12 шт") are
      ignored, except a unit starting with `x` or `X` right after a lone
      `0`, which makes `parseInt` read radix 16. */
  lemma OffersReadsCount(ws: string, n: nat, rest: string)
    requires AllSpace(ws)
    requires rest == [] || !IsDecimalDigit(rest[0])
    requires n == 0 && |rest| > 0 ==> rest[0] != 'x' && rest[0] != 'X'
    ensures Offers(ws + Decimal(n) + rest) == Some(n)
  {
    var d := Decimal(n);
    assert IsTrimmed(d) by {
      assert IsDecimalDigit(d[0]) && IsDecimalDigit(d[|d| - 1]);
    }
    TrimAroundWord(ws, d, rest);
    var tail := TrimEnd(rest);
    assert tail != [] ==> tail[0] == rest[0];
    ParseIntOfDecimal(n, tail);
  }

  /** The photo style (not trimmed) names a background image and the link
      has an `href`. */
  predicate ModelTileOk(tile: ModelTile) {
    BackgroundFromStyle(StyleText(tile.photoStyle)).Some? && tile.href.Some?
  }

  /** The photo is read when the record is built, before the link, so a bad
      photo style is reported before a missing `href`. */
  function ModelTileError(tile: ModelTile): string {
    if BackgroundFromStyle(StyleText(tile.photoStyle)).None? then NoBackground else NoAttribute
  }

  /** `m` and `l` are the record and the link tile `tile` of brand `brand`
      stands for: the link carries the composite key, which the record's
      `prices_url` is built from. */
  predicate ModelFromTile(brand: string, tile: ModelTile, m: CarModel, l: PricesLink)
    requires IsAlias(brand)
  {
    && ModelTileOk(tile)
    && m.name == Trim(tile.title)
    && m.alias == GenerateAlias(m.name)
    && m.offers == Offers(tile.completeSet)
    && m.imageUrl == BackgroundFromStyle(StyleText(tile.photoStyle)).value
    && l.model == CompositeKey(brand, m.alias)
    && m.pricesUrl == PricesUrl(l.model)
    && l.link == Trim(tile.href.value)
  }

  /** One model tile of brand `brand`. */
  function ParseModelTile(brand: string, tile: ModelTile): (r: Result<ModelItem>)
    requires IsAlias(brand)
    ensures r.Success? <==> ModelTileOk(tile)
    ensures r.Success? ==> ModelFromTile(brand, tile, r.value.model, r.value.link)
    ensures r.Failure? ==> r.error == ModelTileError(tile)
  {
    var name := Trim(tile.title);
    var alias := GenerateAlias(name);
    var key := CompositeKey(brand, alias);
    match Background(StyleText(tile.photoStyle))
    case Failure(e) => Failure(e)
    case Success(url) =>
      var model := CarModel(name, alias, Offers(tile.completeSet), url, PricesUrl(key));
      match TrimmedAttr(tile.href)
      case Failure(e) => Failure(e)
      case Success(link) => Success(ModelItem(model, PricesLink(key, link)))
  }

  /** The price link of a model carries an alias, and the record's
      `prices_url` is the file the price page of that key is saved to. */
  lemma ModelLinkNamesPricesFile(brand: string, tile: ModelTile, m: CarModel, l: PricesLink)
    requires IsAlias(brand)
    requires ModelFromTile(brand, tile, m, l)
    ensures IsAlias(l.model)
    ensures m.pricesUrl == "/" + PricesFile(l.model)
  {
    PricesUrlNamesPricesFile(l.model);
  }

  /** The output of a models page: the records saved to
      `models/<brand>.json` and the links the price pages are fetched from. */
  datatype ModelList = ModelList(models: seq<CarModel>, links: seq<PricesLink>)

  /** Projections of the items onto their records and their links; the
      ensures spell out the comprehension pointwise so callers need not
      unfold it. */
  function Models(items: seq<ModelItem>): (ms: seq<CarModel>)
    ensures |ms| == |items| && forall i :: 0 <= i < |items| ==> ms[i] == items[i].model
  {
    seq(|items|, i requires 0 <= i < |items| => items[i].model)
  }

  function PriceLinks(items: seq<ModelItem>): (ls: seq<PricesLink>)
    ensures |ls| == |items| && forall i :: 0 <= i < |items| ==> ls[i] == items[i].link
  {
    seq(|items|, i requires 0 <= i < |items| => items[i].link)
  }

  predicate ModelTilesOk(tiles: seq<ModelTile>) {
    forall i :: 0 <= i < |tiles| ==> ModelTileOk(tiles[i])
  }

  /** The tiles parsed one by one, stopping at the first bad one. */
  function ModelItems(brand: string, tiles: seq<ModelTile>): (r: Result<seq<ModelItem>>)
    requires IsAlias(brand)
    ensures r.Success? <==> ModelTilesOk(tiles)
    ensures r.Success? ==> |r.value| == |tiles|
    ensures r.Success? ==> forall i :: 0 <= i < |tiles| ==> ParseModelTile(brand, tiles[i]) == Success(r.value[i])
  {
    Traverse(tiles, t => ParseModelTile(brand, t))
  }

  /** Every item of a successful parse is the record and link of its tile. */
  lemma ModelItemsFromTiles(brand: string, tiles: seq<ModelTile>)
    requires IsAlias(brand)
    ensures ModelItems(brand, tiles).Success? ==>
      forall i :: 0 <= i < |tiles| ==> ModelFromTile(brand, tiles[i], ModelItems(brand, tiles).value[i].model, ModelItems(brand, tiles).value[i].link)
  {
    var r := ModelItems(brand, tiles);
    if r.Success? {
      forall i | 0 <= i < |tiles|
        ensures ModelFromTile(brand, tiles[i], r.value[i].model, r.value[i].link)
      {
        assert ParseModelTile(brand, tiles[i]) == Success(r.value[i]);
      }
    }
  }

  /** `parseModel` after the page is loaded: one record and one link per
      tile, in order; a bad tile fails the page. */
  function ParseModels(brand: string, tiles: seq<ModelTile>): (r: Result<ModelList>)
    requires IsAlias(brand)
    ensures r.Success? <==> ModelTilesOk(tiles)
    ensures r.Success? ==> |r.value.models| == |tiles| && |r.value.links| == |tiles|
    ensures r.Success? ==> forall i :: 0 <= i < |tiles| ==> ModelFromTile(brand, tiles[i], r.value.models[i], r.value.links[i])
  {
    ModelItemsFromTiles(brand, tiles);
    match ModelItems(brand, tiles)
    case Failure(e) => Failure(e)
    case Success(items) => Success(ModelList(Models(items), PriceLinks(items)))
  }
}
