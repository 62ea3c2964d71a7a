/** `parseBrands` (index.js, lines 38-50): the brand records and the links
    to the models pages. */
module BrandPage {
  import opened Wrappers
  import opened JsString
  import opened Alias
  import opened Style
  import opened Keys
  import opened Extract

  /** A `.model-carousel a` tile: its text, the `style` of its `span` and
      its `href`. */
  datatype BrandTile = BrandTile(text: string, spanStyle: Option<string>, href: Option<string>)

  datatype Brand = Brand(name: string, imageUrl: string, alias: string, modelsUrl: string)

  /** What the models page of a brand is fetched from. */
  datatype ModelsLink = ModelsLink(brand: string, link: Option<string>)

  datatype BrandItem = BrandItem(brand: Brand, link: ModelsLink)

  /** The span style of the tile names a background image. It is not
      trimmed, so a missing one is the text "undefined", which fails. */
  predicate BrandTileOk(tile: BrandTile) {
    BackgroundFromStyle(StyleText(tile.spanStyle)).Some?
  }

  /** `b` and `l` are the record and the link tile `tile` stands for: the
      trimmed text, its alias, the image URL, the models URL, and a link
      that carries the record's alias and the tile's `href`. */
  predicate BrandFromTile(tile: BrandTile, b: Brand, l: ModelsLink) {
    && BrandTileOk(tile)
    && b.name == Trim(tile.text)
    && b.alias == GenerateAlias(b.name)
    && b.imageUrl == BackgroundFromStyle(StyleText(tile.spanStyle)).value
    && b.modelsUrl == ModelsUrl(b.alias)
    && l == ModelsLink(b.alias, tile.href)
  }

  /** One brand tile: the record and the link to its models page. */
  function ParseBrandTile(tile: BrandTile): (r: Result<BrandItem>)
    ensures r.Success? <==> BrandTileOk(tile)
    ensures r.Success? ==> BrandFromTile(tile, r.value.brand, r.value.link)
    ensures r.Failure? ==> r.error == NoBackground
  {
    var name := Trim(tile.text);
    var alias := GenerateAlias(name);
    match Background(StyleText(tile.spanStyle))
    case Failure(e) => Failure(e)
    case Success(url) =>
      Success(BrandItem(Brand(name, url, alias, ModelsUrl(alias)), ModelsLink(alias, tile.href)))
  }

  /** The link of a brand names an alias, and the record's `models_url` is
      the file the models page of that alias is saved to. */
  lemma BrandLinkNamesModelsFile(tile: BrandTile, b: Brand, l: ModelsLink)
    requires BrandFromTile(tile, b, l)
    ensures IsAlias(b.alias) && l.brand == b.alias
    ensures b.modelsUrl == "/" + ModelsFile(l.brand)
  {
    ModelsUrlNamesModelsFile(b.alias);
  }

  /** The output of the brands page: the records saved to `brands.json` and
      the links the models pages are fetched from. */
  datatype BrandList = BrandList(brands: seq<Brand>, links: seq<ModelsLink>)

  /** Projections of the items onto their records and their links; the
      ensures spell out the comprehension pointwise so callers need not
      unfold it. */
  function Brands(items: seq<BrandItem>): (bs: seq<Brand>)
    ensures |bs| == |items| && forall i :: 0 <= i < |items| ==> bs[i] == items[i].brand
  {
    seq(|items|, i requires 0 <= i < |items| => items[i].brand)
  }

  function BrandLinks(items: seq<BrandItem>): (ls: seq<ModelsLink>)
    ensures |ls| == |items| && forall i :: 0 <= i < |items| ==> ls[i] == items[i].link
  {
    seq(|items|, i requires 0 <= i < |items| => items[i].link)
  }

  predicate BrandTilesOk(tiles: seq<BrandTile>) {
    forall i :: 0 <= i < |tiles| ==> BrandTileOk(tiles[i])
  }

  /** The tiles parsed one by one, stopping at the first bad one. */
  function BrandItems(tiles: seq<BrandTile>): (r: Result<seq<BrandItem>>)
    ensures r.Success? <==> BrandTilesOk(tiles)
    ensures r.Success? ==> |r.value| == |tiles|
    ensures r.Success? ==> forall i :: 0 <= i < |tiles| ==> BrandFromTile(tiles[i], r.value[i].brand, r.value[i].link)
    ensures r.Failure? ==> r.error == NoBackground
  {
    Traverse(tiles, ParseBrandTile)
  }

  /** `parseBrands` after the page is loaded: one record and one link per
      tile, in order, the i-th link built from the i-th record; a tile
      without a background image fails the page. */
  function ParseBrands(tiles: seq<BrandTile>): (r: Result<BrandList>)
    ensures r.Success? <==> BrandTilesOk(tiles)
    ensures r.Success? ==> |r.value.brands| == |tiles| && |r.value.links| == |tiles|
    ensures r.Success? ==> forall i :: 0 <= i < |tiles| ==> BrandFromTile(tiles[i], r.value.brands[i], r.value.links[i])
    ensures r.Failure? ==> r.error == NoBackground
  {
    match BrandItems(tiles)
    case Failure(e) => Failure(e)
    case Success(items) => Success(BrandList(Brands(items), BrandLinks(items)))
  }
}
