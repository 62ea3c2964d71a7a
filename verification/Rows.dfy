/** The label/value rows of a price page folded into plain objects: the
    `settings` and `price` objects of a unit block and the `info` object of
    an equipment card (index.js, lines 129-139 and 155-166). An object is a
    map from property name to string; the order JSON output lists the
    properties in is not modelled. */
module Rows {
  import opened JsString
  import opened Alias

  /** One row as the page shows it: the text of its label element and the
      text of its value element. */
  datatype Row = Row(labelText: string, valueText: string)

  type Object = map<string, string>

  /** The property a row is stored under: the alias of its trimmed label. */
  function RowKey(row: Row): (k: string)
    ensures IsAlias(k)
  {
    GenerateAlias(Trim(row.labelText))
  }

  /** The value a row stores: its trimmed value text. */
  function RowValue(row: Row): (v: string)
    ensures IsTrimmed(v)
  {
    Trim(row.valueText)
  }

  /** Assigning a string to `__proto__` does not create a property. */
  const ProtoKey: string := "__proto__"

  /** Whether a fold stores key `k`: never `__proto__`, and not the empty
      key when the fold skips empty labels (the `.last` info list). */
  predicate Stored(k: string, skipEmpty: bool) {
    k != ProtoKey && (skipEmpty ==> k != "")
  }

  /** `obj[k] = v` for a string value. */
  function Assign(obj: Object, k: string, v: string, skipEmpty: bool): Object {
    if Stored(k, skipEmpty) then obj[k := v] else obj
  }

  /** A property assignment a row makes: the key and the value. */
  datatype Entry = Entry(key: string, value: string)

  /** The assignments the rows make, in document order. The ensures spells
      out the comprehension pointwise so callers need not unfold it. */
  function Entries(rows: seq<Row>): (es: seq<Entry>)
    ensures |es| == |rows|
    ensures forall i :: 0 <= i < |rows| ==> es[i] == Entry(RowKey(rows[i]), RowValue(rows[i]))
  {
    seq(|rows|, i requires 0 <= i < |rows| => Entry(RowKey(rows[i]), RowValue(rows[i])))
  }

  /** The assignments made one after the other, in order, onto `seed`. */
  function Fold(seed: Object, es: seq<Entry>, skipEmpty: bool): (r: Object)
    ensures seed.Keys <= r.Keys
    ensures forall k :: k in r && k !in seed ==> Stored(k, skipEmpty)
    decreases |es|
  {
    if |es| == 0 then seed
    else
      var last := es[|es| - 1];
      Assign(Fold(seed, es[..|es| - 1], skipEmpty), last.key, last.value, skipEmpty)
  }

  /** Assignment `i` writes property `k`. */
  predicate Writes(es: seq<Entry>, i: int, k: string, skipEmpty: bool) {
    0 <= i < |es| && es[i].key == k && Stored(k, skipEmpty)
  }

  /** Assignment `i` is the last one that writes property `k`. */
  predicate LastWrite(es: seq<Entry>, i: int, k: string, skipEmpty: bool) {
    Writes(es, i, k, skipEmpty) && forall j :: i < j < |es| ==> es[j].key != k
  }

  /** The fold has a property exactly when the seed has it or some
      assignment writes it. */
  lemma {:induction false} FoldKeys(seed: Object, es: seq<Entry>, skipEmpty: bool, k: string)
    ensures k in Fold(seed, es, skipEmpty) <==> k in seed || exists i :: Writes(es, i, k, skipEmpty)
    decreases |es|
  {
    if |es| > 0 {
      var init := es[..|es| - 1];
      FoldKeys(seed, init, skipEmpty, k);
      assert forall i :: 0 <= i < |init| ==> (Writes(init, i, k, skipEmpty) <==> Writes(es, i, k, skipEmpty));
      if exists i :: Writes(es, i, k, skipEmpty) {
        var i :| Writes(es, i, k, skipEmpty);
        if i < |init| {
          assert Writes(init, i, k, skipEmpty);
        }
      }
      if es[|es| - 1].key == k && Stored(k, skipEmpty) {
        assert Writes(es, |es| - 1, k, skipEmpty);
      }
    }
  }

  /** Later assignments overwrite earlier ones: the value is the last
      writer's. */
  lemma {:induction false} FoldLastWins(seed: Object, es: seq<Entry>, skipEmpty: bool, k: string, i: int)
    requires LastWrite(es, i, k, skipEmpty)
    ensures k in Fold(seed, es, skipEmpty) && Fold(seed, es, skipEmpty)[k] == es[i].value
    decreases |es|
  {
    var init := es[..|es| - 1];
    if i < |es| - 1 {
      assert es[|es| - 1].key != k;
      assert LastWrite(init, i, k, skipEmpty);
      FoldLastWins(seed, init, skipEmpty, k, i);
    }
  }

  /** A property no assignment writes keeps the seed's value. */
  lemma {:induction false} FoldKeepsSeed(seed: Object, es: seq<Entry>, skipEmpty: bool, k: string)
    requires forall i :: 0 <= i < |es| ==> !Writes(es, i, k, skipEmpty)
    requires k in seed
    ensures k in Fold(seed, es, skipEmpty) && Fold(seed, es, skipEmpty)[k] == seed[k]
    decreases |es|
  {
    if |es| > 0 {
      var init := es[..|es| - 1];
      assert !Writes(es, |es| - 1, k, skipEmpty);
      assert forall i :: 0 <= i < |init| ==> (Writes(init, i, k, skipEmpty) <==> Writes(es, i, k, skipEmpty));
      FoldKeepsSeed(seed, init, skipEmpty, k);
    }
  }

  /** The `settings` object of a unit block. */
  function Settings(rows: seq<Row>): Object {
    Fold(map[], Entries(rows), false)
  }

  /** Each property of `settings` comes from the last row whose label
      aliases to it, and no other property is present. */
  lemma SettingsFromRows(rows: seq<Row>, k: string)
    ensures k in Settings(rows) <==> exists i :: Writes(Entries(rows), i, k, false)
    ensures forall i :: LastWrite(Entries(rows), i, k, false) ==> Settings(rows)[k] == RowValue(rows[i])
  {
    FoldKeys(map[], Entries(rows), false, k);
    forall i | LastWrite(Entries(rows), i, k, false)
      ensures Settings(rows)[k] == RowValue(rows[i])
    {
      FoldLastWins(map[], Entries(rows), false, k, i);
    }
  }

  const DealerKey: string := "dealer"

  /** The `price` object of a unit block: `dealer` is set from the unit's
      price first, then the price-setting rows are assigned. */
  function Prices(dealer: string, rows: seq<Row>): Object {
    Fold(map[DealerKey := Trim(dealer)], Entries(rows), false)
  }

  /** `dealer` is always present; it holds the unit's own price unless a
      price-setting row whose label aliases to `dealer` overwrote it. */
  lemma PricesDealer(dealer: string, rows: seq<Row>)
    ensures DealerKey in Prices(dealer, rows)
    ensures (forall i :: 0 <= i < |rows| ==> RowKey(rows[i]) != DealerKey) ==> Prices(dealer, rows)[DealerKey] == Trim(dealer)
    ensures forall i :: LastWrite(Entries(rows), i, DealerKey, false) ==> Prices(dealer, rows)[DealerKey] == RowValue(rows[i])
  {
    var seed := map[DealerKey := Trim(dealer)];
    var es := Entries(rows);
    FoldKeys(seed, es, false, DealerKey);
    if forall i :: 0 <= i < |rows| ==> RowKey(rows[i]) != DealerKey {
      FoldKeepsSeed(seed, es, false, DealerKey);
    }
    forall i | LastWrite(es, i, DealerKey, false)
      ensures Prices(dealer, rows)[DealerKey] == RowValue(rows[i])
    {
      FoldLastWins(seed, es, false, DealerKey, i);
    }
  }

  /** The `info` object of an equipment card: every row of the info lists,
      then the rows of the last list whose label alias is not empty. */
  function Info(rows: seq<Row>, lastRows: seq<Row>): Object {
    Fold(Fold(map[], Entries(rows), false), Entries(lastRows), true)
  }

  /** The last list never introduces the empty property: it is present
      only when some row of the first lists wrote it. */
  lemma InfoEmptyKey(rows: seq<Row>, lastRows: seq<Row>)
    ensures "" in Info(rows, lastRows) <==> exists i :: Writes(Entries(rows), i, "", false)
  {
    var first := Fold(map[], Entries(rows), false);
    FoldKeys(map[], Entries(rows), false, "");
    FoldKeys(first, Entries(lastRows), true, "");
  }

  /** A row of the last list overrides the first lists for its property. */
  lemma InfoLastListWins(rows: seq<Row>, lastRows: seq<Row>, k: string, i: int)
    requires LastWrite(Entries(lastRows), i, k, true)
    ensures k in Info(rows, lastRows) && Info(rows, lastRows)[k] == RowValue(lastRows[i])
  {
    FoldLastWins(Fold(map[], Entries(rows), false), Entries(lastRows), true, k, i);
  }

  /** A property the last list does not write keeps the first lists' last
      value. This includes `""` when the last list only has rows with an
      empty alias, since that list skips them. */
  lemma InfoFirstListValue(rows: seq<Row>, lastRows: seq<Row>, k: string, i: int)
    requires LastWrite(Entries(rows), i, k, false)
    requires forall j :: 0 <= j < |lastRows| ==> !Writes(Entries(lastRows), j, k, true)
    ensures k in Info(rows, lastRows) && Info(rows, lastRows)[k] == RowValue(rows[i])
  {
    var first := Fold(map[], Entries(rows), false);
    FoldLastWins(map[], Entries(rows), false, k, i);
    FoldKeepsSeed(first, Entries(lastRows), true, k);
  }

  /** An empty label in the last list does not clear the empty property a
      first-list row set: `info[""]` keeps the first list's value. */
  lemma InfoEmptyLabelExample(rows: seq<Row>, lastRows: seq<Row>)
    requires rows == [Row("", "v")] && lastRows == [Row(" ", "w")]
    ensures "" in Info(rows, lastRows) && Info(rows, lastRows)[""] == "v"
  {
    assert IsTrimmed(rows[0].valueText);
    EmptyLabelRow(rows[0]);
    assert Entries(rows)[0] == Entry("", "v");
    assert LastWrite(Entries(rows), 0, "", false);
    InfoFirstListValue(rows, lastRows, "", 0);
  }

  /** A row whose label is all white space and whose value is already
      trimmed is stored under `""` with its value as it stands. */
  lemma EmptyLabelRow(row: Row)
    requires AllSpace(row.labelText) && IsTrimmed(row.valueText)
    ensures RowKey(row) == "" && RowValue(row) == row.valueText
  {
    EmptyLabelKey(row.labelText);
    TrimFixesTrimmed(row.valueText);
  }

  /** A label that trims to nothing is stored under `""`. */
  lemma EmptyLabelKey(text: string)
    requires AllSpace(text)
    ensures GenerateAlias(Trim(text)) == ""
  {
    TransliterateEmpty();
    assert ToLowerCase([]) == [];
  }

  /** `__proto__` never becomes a property of a folded object. */
  lemma FoldSkipsProto(seed: Object, es: seq<Entry>, skipEmpty: bool)
    requires ProtoKey !in seed
    ensures ProtoKey !in Fold(seed, es, skipEmpty)
  {
    FoldKeys(seed, es, skipEmpty, ProtoKey);
  }
}
