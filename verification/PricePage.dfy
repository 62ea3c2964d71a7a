/** `parsePrice` (index.js, lines 124-187): the unit blocks and the
    equipment cards of one model's price page. */
module PricePage {
  import opened Wrappers
  import opened JsString
  import opened Alias
  import opened Style
  import opened Rows
  import opened Extract

  /** A `.car__unit__block`: its name text, the setting rows, the dealer
      price text, the price-setting rows, the colour name text, the `style`
      of the colour swatch and the `style` of the photo. */
  datatype UnitBlock = UnitBlock(
    name: string, settingRows: seq<Row>, dealer: string, priceRows: seq<Row>,
    colorName: string, colorStyle: Option<string>, photoStyle: Option<string>)

  datatype Color = Color(name: string, code: string)

  datatype Discount = Discount(
    name: string, alias: string, color: Color, settings: Object, price: Object, imageUrl: string)

  /** The swatch style is present (it is trimmed, and trimming a missing
      one throws) and, trimmed, names a colour. */
  predicate UnitColorOk(unit: UnitBlock) {
    unit.colorStyle.Some? && ColorFromStyle(Trim(unit.colorStyle.value)).Some?
  }

  /** The photo style is present and, trimmed, names an image. */
  predicate UnitImageOk(unit: UnitBlock) {
    unit.photoStyle.Some? && BackgroundFromStyle(Trim(unit.photoStyle.value)).Some?
  }

  predicate UnitOk(unit: UnitBlock) {
    UnitColorOk(unit) && UnitImageOk(unit)
  }

  /** `d` is the record block `unit` stands for. */
  predicate DiscountFromUnit(unit: UnitBlock, d: Discount) {
    && UnitOk(unit)
    && d.name == Trim(unit.name)
    && d.alias == GenerateAlias(d.name)
    && d.color == Color(Trim(unit.colorName), ColorFromStyle(Trim(unit.colorStyle.value)).value)
    && d.settings == Settings(unit.settingRows)
    && d.price == Prices(unit.dealer, unit.priceRows)
    && d.imageUrl == BackgroundFromStyle(Trim(unit.photoStyle.value)).value
  }

  /** The `color` object of a block: its trimmed name and the code read from
      the trimmed swatch style. */
  function UnitColor(unit: UnitBlock): (r: Result<Color>)
    ensures r.Success? <==> UnitColorOk(unit)
    ensures r.Success? ==> r.value.name == Trim(unit.colorName)
    ensures r.Success? ==> r.value.code == ColorFromStyle(Trim(unit.colorStyle.value)).value
  {
    match TrimmedAttr(unit.colorStyle)
    case Failure(e) => Failure(e)
    case Success(style) =>
      match ColorCode(style)
      case Failure(e) => Failure(e)
      case Success(code) => Success(Color(Trim(unit.colorName), code))
  }

  /** The image URL of a block, read from the trimmed photo style. */
  function UnitImage(unit: UnitBlock): (r: Result<string>)
    ensures r.Success? <==> UnitImageOk(unit)
    ensures r.Success? ==> r.value == BackgroundFromStyle(Trim(unit.photoStyle.value)).value
  {
    match TrimmedAttr(unit.photoStyle)
    case Failure(e) => Failure(e)
    case Success(style) => Background(style)
  }

  /** One block; the colour is read before the photo. */
  function ParseUnit(unit: UnitBlock): (r: Result<Discount>)
    ensures r.Success? <==> UnitOk(unit)
    ensures r.Success? ==> DiscountFromUnit(unit, r.value)
  {
    var name := Trim(unit.name);
    match UnitColor(unit)
    case Failure(e) => Failure(e)
    case Success(color) =>
      match UnitImage(unit)
      case Failure(e) => Failure(e)
      case Success(url) =>
        Success(Discount(name, GenerateAlias(name), color, Settings(unit.settingRows), Prices(unit.dealer, unit.priceRows), url))
  }

  /** A `.car-list tr` row: the colour name text, the `style` of its colour
      swatch and the price text. */
  datatype TableRow = TableRow(colorText: string, colorStyle: Option<string>, priceText: string)

  datatype ColorPrice = ColorPrice(color: Color, price: string)

  /** The swatch style, not trimmed, names a colour. */
  predicate RowOk(row: TableRow) {
    ColorFromStyle(StyleText(row.colorStyle)).Some?
  }

  /** `p` is the entry row `row` stands for. */
  predicate PriceFromRow(row: TableRow, p: ColorPrice) {
    && RowOk(row)
    && p == ColorPrice(Color(Trim(row.colorText), ColorFromStyle(StyleText(row.colorStyle)).value), Trim(row.priceText))
  }

  /** One row of the colour/price table. */
  function ParseTableRow(row: TableRow): (r: Result<ColorPrice>)
    ensures r.Success? <==> RowOk(row)
    ensures r.Success? ==> PriceFromRow(row, r.value)
  {
    match ColorCode(StyleText(row.colorStyle))
    case Failure(e) => Failure(e)
    case Success(code) => Success(ColorPrice(Color(Trim(row.colorText), code), Trim(row.priceText)))
  }

  /** The entries of the given rows, in order. */
  function ColorPrices(rows: seq<TableRow>): (r: Result<seq<ColorPrice>>)
    ensures r.Success? <==> forall j :: 0 <= j < |rows| ==> RowOk(rows[j])
    ensures r.Success? ==> |r.value| == |rows|
    ensures r.Success? ==> forall j :: 0 <= j < |rows| ==> PriceFromRow(rows[j], r.value[j])
  {
    Traverse(rows, ParseTableRow)
  }

  /** The colour/price list: every row but the first (the header), whose
      content is never read. */
  function Table(rows: seq<TableRow>): (r: Result<seq<ColorPrice>>)
    ensures r.Success? <==> forall j :: 1 <= j < |rows| ==> RowOk(rows[j])
    ensures r.Success? ==> |r.value| == if |rows| == 0 then 0 else |rows| - 1
    ensures r.Success? ==> forall j :: 0 <= j < |r.value| ==> PriceFromRow(rows[j + 1], r.value[j])
  {
    if |rows| == 0 then Success([])
    else
      assert forall j :: 1 <= j < |rows| ==> rows[1..][j - 1] == rows[j];
      ColorPrices(rows[1..])
  }

  /** The header row can be anything: the list depends on the other rows
      only. */
  lemma TableIgnoresHeader(header: TableRow, rows: seq<TableRow>)
    requires |rows| > 0
    ensures Table([header] + rows[1..]) == Table(rows)
  {
    assert ([header] + rows[1..])[1..] == rows[1..];
  }

  /** A `.car-card-equipment.car-card`: the rows of its info lists, the rows
      of its last info list, the rows of its table and the `style` of its
      photo. */
  datatype Card = Card(infoRows: seq<Row>, lastRows: seq<Row>, table: seq<TableRow>, photoStyle: Option<string>)

  datatype PriceCard = PriceCard(imageUrl: string, info: Object, prices: seq<ColorPrice>)

  /** Every table row after the header names a colour, and the photo
      style, trimmed, names an image. */
  predicate CardOk(card: Card) {
    && Table(card.table).Success?
    && card.photoStyle.Some? && BackgroundFromStyle(Trim(card.photoStyle.value)).Some?
  }

  /** `p` is the record card `card` stands for. */
  predicate PriceCardFrom(card: Card, p: PriceCard) {
    && CardOk(card)
    && p.imageUrl == BackgroundFromStyle(Trim(card.photoStyle.value)).value
    && p.info == Info(card.infoRows, card.lastRows)
    && p.prices == Table(card.table).value
  }

  /** One card; the table is read before the photo. */
  function ParseCard(card: Card): (r: Result<PriceCard>)
    ensures r.Success? <==> CardOk(card)
    ensures r.Success? ==> PriceCardFrom(card, r.value)
  {
    match Table(card.table)
    case Failure(e) => Failure(e)
    case Success(prices) =>
      match TrimmedAttr(card.photoStyle)
      case Failure(e) => Failure(e)
      case Success(photoStyle) =>
        match Background(photoStyle)
        case Failure(e) => Failure(e)
        case Success(url) => Success(PriceCard(url, Info(card.infoRows, card.lastRows), prices))
  }

  /** The content saved to `prices/<key>.json`. */
  datatype PriceSheet = PriceSheet(discount: seq<Discount>, price: seq<PriceCard>)

  /** `parsePrice` after the page is loaded: one record per unit block and
      one per card, in order; any bad block or card fails the page. */
  predicate UnitsOk(units: seq<UnitBlock>) {
    forall i :: 0 <= i < |units| ==> UnitOk(units[i])
  }

  predicate CardsOk(cards: seq<Card>) {
    forall i :: 0 <= i < |cards| ==> CardOk(cards[i])
  }

  function Discounts(units: seq<UnitBlock>): (r: Result<seq<Discount>>)
    ensures r.Success? <==> UnitsOk(units)
    ensures r.Success? ==> |r.value| == |units|
    ensures r.Success? ==> forall i :: 0 <= i < |units| ==> DiscountFromUnit(units[i], r.value[i])
  {
    Traverse(units, ParseUnit)
  }

  function PriceCards(cards: seq<Card>): (r: Result<seq<PriceCard>>)
    ensures r.Success? <==> CardsOk(cards)
    ensures r.Success? ==> |r.value| == |cards|
    ensures r.Success? ==> forall i :: 0 <= i < |cards| ==> PriceCardFrom(cards[i], r.value[i])
  {
    Traverse(cards, ParseCard)
  }

  function ParsePrices(units: seq<UnitBlock>, cards: seq<Card>): (r: Result<PriceSheet>)
    ensures r.Success? <==> UnitsOk(units) && CardsOk(cards)
    ensures r.Success? ==> |r.value.discount| == |units| && |r.value.price| == |cards|
    ensures r.Success? ==> forall i :: 0 <= i < |units| ==> DiscountFromUnit(units[i], r.value.discount[i])
    ensures r.Success? ==> forall i :: 0 <= i < |cards| ==> PriceCardFrom(cards[i], r.value.price[i])
  {
    match Discounts(units)
    case Failure(e) => Failure(e)
    case Success(discount) =>
      match PriceCards(cards)
      case Failure(e) => Failure(e)
      case Success(price) => Success(PriceSheet(discount, price))
  }
}
