/** The merging of inventory rows in app/api/inventory_orders_vision_routes.py. */
module StoreMerge {
  import opened Options
  import opened Strings

  /** A row of the query; one whose price or quantity cannot be converted is unreadable. */
  datatype Row =
    | Unreadable
    | Row(itemId: Option<string>, sku: Option<string>, name: Option<string>, category: Option<string>,
          unit: Option<string>, price: Option<real>, quantity: Option<real>)

  datatype Item = Item(itemId: string, sku: Option<string>, name: string, category: Option<string>,
                       unit: Option<string>, price: Option<real>, quantity: real)

  function Payload(row: Row): Item
    requires row.Row?
  {
    Item(if row.itemId.Some? then row.itemId.value else "None", row.sku,
         if row.name.Some? then row.name.value else "", row.category, row.unit, row.price,
         if row.quantity.Some? then row.quantity.value else 0.0)
  }

  /** Every run of white space becomes one space. */
  function Collapse(s: string): string
    decreases |s|
  {
    if s == "" then ""
    else if Blank(s[0]) then " " + Collapse(StripLeft(s[1..]))
    else [s[0]] + Collapse(s[1..])
  }

  lemma CollapseIsEmptyIffTextIs(s: string)
    ensures Collapse(s) == "" <==> s == ""
  {
  }

  function ProductName(name: string): string {
    Collapse(Lower(Strip(name)))
  }

  function ItemKey(item: Item): string {
    var id := Strip(item.itemId);
    if id != "" then id else ProductName(item.name)
  }

  /** What the loop makes of a row: nothing, or an item and the key it is merged under. */
  datatype Reading = Skipped | Keyed(key: string, item: Item)

  function Read(row: Row): Reading {
    if row.Unreadable? then Skipped
    else if ItemKey(Payload(row)) == "" then Skipped
    else Keyed(ItemKey(Payload(row)), Payload(row))
  }

  function ReadAll(rows: seq<Row>): seq<Reading> {
    seq(|rows|, i requires 0 <= i < |rows| => Read(rows[i]))
  }

  lemma NoneIsNotBlank()
    ensures Strip("None") == "None"
  {
    assert StripLeft("None") == "None";
    assert StripRight("None") == "None";
  }

  /** A null id counts as the text "None". The query never gives one: ids are the table's primary key. */
  lemma RowsWithoutIdShareOneKey(row: Row)
    requires row.Row? && row.itemId.None?
    ensures Read(row) == Keyed("None", Payload(row))
  {
    NoneIsNotBlank();
  }

  /** A readable row is skipped exactly when it has an id, and a name if any, of nothing but white space. */
  lemma SkippedIffIdAndNameAreBlank(row: Row)
    requires row.Row?
    ensures Read(row).Skipped? <==>
        row.itemId.Some? && Strip(row.itemId.value) == "" && (row.name.None? || Strip(row.name.value) == "")
  {
    NoneIsNotBlank();
    CollapseIsEmptyIffTextIs(Lower(Strip(Payload(row).name)));
  }

  // ---------- what reading makes of a row ----------

  /** The words of a text; a text that starts or ends with white space has an empty one there. */
  function Words(s: string): (words: seq<string>)
    ensures words != []
  {
    if s == "" then [""]
    else
      var rest := Words(s[1..]);
      if !Blank(s[0]) then [[s[0]] + rest[0]] + rest[1..]
      else if rest[0] == "" && |rest| > 1 then rest
      else [""] + rest
  }

  /** All white space is single spaces. */
  predicate SingleSpaced(s: string) {
    && (forall i | 0 <= i < |s| && Blank(s[i]) :: s[i] == ' ')
    && forall i | 0 < i < |s| :: !(Blank(s[i - 1]) && Blank(s[i]))
  }

  lemma {:induction false} WordsWithoutTheStart(s: string)
    requires s != "" && Blank(s[0]) && StripLeft(s) != ""
    ensures Words(s) == [""] + Words(StripLeft(s))
  {
    StripLeftEndsAtText(s);
    if Blank(s[1]) {
      WordsWithoutTheStart(s[1..]);
    } else {
      assert StripLeft(s[1..]) == s[1..];
    }
  }

  lemma {:induction false} BlankTextHasNoWords(s: string)
    requires s != "" && StripLeft(s) == ""
    ensures Words(s) == ["", ""]
  {
    if |s| > 1 {
      BlankTextHasNoWords(s[1..]);
    }
  }

  lemma {:induction false} CollapseKeepsTheWords(s: string)
    ensures Words(Collapse(s)) == Words(s)
    ensures SingleSpaced(Collapse(s))
    ensures s != "" ==> Collapse(s) != "" && (Blank(Collapse(s)[0]) <==> Blank(s[0]))
    decreases |s|
  {
    if s != "" {
      if Blank(s[0]) {
        var rest := StripLeft(s[1..]);
        StripLeftEndsAtText(s);
        CollapseKeepsTheWords(rest);
        assert Collapse(s)[1..] == Collapse(rest);
        if rest == "" {
          BlankTextHasNoWords(s);
        } else {
          WordsWithoutTheStart(s);
        }
      } else {
        CollapseKeepsTheWords(s[1..]);
        assert Collapse(s)[1..] == Collapse(s[1..]);
      }
    }
  }

  /** A product name has the words of the stripped, lower-case name, with one space between them. */
  lemma ProductNameHasTheWords(name: string)
    ensures Words(ProductName(name)) == Words(Lower(Strip(name))) && SingleSpaced(ProductName(name))
  {
    CollapseKeepsTheWords(Lower(Strip(name)));
  }

  /** The id as text, which is "None" for none. */
  ghost function IdText(row: Row): string
    requires row.Row?
  {
    if row.itemId.Some? then row.itemId.value else "None"
  }

  ghost function NameText(row: Row): string
    requires row.Row?
  {
    if row.name.Some? then row.name.value else ""
  }

  /** A row is read under its id or else its product name, with its own fields and a missing quantity as zero. */
  lemma ReadingHasTheFields(row: Row)
    requires Read(row).Keyed?
    ensures row.Row?
    ensures Read(row).key == if Strip(IdText(row)) != "" then Strip(IdText(row)) else ProductName(NameText(row))
    ensures Read(row).item == Item(IdText(row), row.sku, NameText(row), row.category, row.unit, row.price,
                                   if row.quantity.Some? then row.quantity.value else 0.0)
  {
  }

  // ---------- what the merged list should hold, key by key ----------

  predicate Has(reading: Reading, key: string) {
    reading.Keyed? && reading.key == key
  }

  /** The item of the earliest reading with the key. */
  function First(readings: seq<Reading>, key: string): Option<Item> {
    if readings == [] then None
    else
      var earlier, last := First(readings[..|readings| - 1], key), readings[|readings| - 1];
      if earlier.None? && Has(last, key) then Some(last.item) else earlier
  }

  function PriceIn(reading: Reading, key: string): Option<real> {
    if Has(reading, key) then reading.item.price else None
  }

  /** The earliest price that is not null among the readings with the key. */
  function FirstPrice(readings: seq<Reading>, key: string): Option<real> {
    if readings == [] then None
    else
      var earlier := FirstPrice(readings[..|readings| - 1], key);
      if earlier.Some? then earlier else PriceIn(readings[|readings| - 1], key)
  }

  function QuantityIn(reading: Reading, key: string): real {
    if Has(reading, key) then reading.item.quantity else 0.0
  }

  function Quantity(readings: seq<Reading>, key: string): real {
    if readings == [] then 0.0
    else Quantity(readings[..|readings| - 1], key) + QuantityIn(readings[|readings| - 1], key)
  }

  /** The keys in the order in which they first occur. */
  function Keys(readings: seq<Reading>): seq<string> {
    if readings == [] then []
    else
      var earlier, last := Keys(readings[..|readings| - 1]), readings[|readings| - 1];
      if last.Skipped? || last.key in earlier then earlier else earlier + [last.key]
  }

  predicate Occurs(readings: seq<Reading>, key: string) {
    exists i | 0 <= i < |readings| :: Has(readings[i], key)
  }

  lemma OccursSnoc(readings: seq<Reading>, last: Reading, key: string)
    ensures Occurs(readings + [last], key) <==> Occurs(readings, key) || Has(last, key)
  {
    assert (readings + [last])[|readings|] == last;
    assert forall i | 0 <= i < |readings| :: (readings + [last])[i] == readings[i];
  }

  lemma OneMore(readings: seq<Reading>, last: Reading, key: string)
    ensures Quantity(readings + [last], key) == Quantity(readings, key) + QuantityIn(last, key)
    ensures FirstPrice(readings + [last], key) ==
              if FirstPrice(readings, key).Some? then FirstPrice(readings, key) else PriceIn(last, key)
    ensures First(readings + [last], key) ==
              if First(readings, key).None? && Has(last, key) then Some(last.item) else First(readings, key)
  {
    assert (readings + [last])[..|readings|] == readings;
  }

  lemma OneMoreKey(readings: seq<Reading>, last: Reading)
    ensures Keys(readings + [last]) ==
              if last.Skipped? || last.key in Keys(readings) then Keys(readings) else Keys(readings) + [last.key]
  {
    assert (readings + [last])[..|readings|] == readings;
  }

  lemma {:induction false} KeysOccur(readings: seq<Reading>, key: string)
    ensures key in Keys(readings) <==> Occurs(readings, key)
    ensures First(readings, key).Some? <==> Occurs(readings, key)
  {
    if readings != [] {
      var earlier, last := readings[..|readings| - 1], readings[|readings| - 1];
      assert readings == earlier + [last];
      KeysOccur(earlier, key);
      OccursSnoc(earlier, last, key);
    }
  }

  lemma {:induction false} KeysAreDistinct(readings: seq<Reading>)
    ensures forall i, j | 0 <= i < j < |Keys(readings)| :: Keys(readings)[i] != Keys(readings)[j]
  {
    if readings != [] {
      KeysAreDistinct(readings[..|readings| - 1]);
    }
  }

  /** The key occurs before reading `q`. */
  predicate OccursBefore(readings: seq<Reading>, key: string, q: nat)
    requires q <= |readings|
  {
    exists p | 0 <= p < q :: Has(readings[p], key)
  }

  /** The keys are listed in the order in which they first occur. */
  lemma {:induction false} KeysAreInOrder(readings: seq<Reading>, i: nat, j: nat, q: nat)
    requires i < j < |Keys(readings)| && q < |readings| && Has(readings[q], Keys(readings)[j])
    ensures OccursBefore(readings, Keys(readings)[i], q)
  {
    var n := |readings| - 1;
    var earlier := readings[..n];
    if q < n && j < |Keys(earlier)| {
      KeysAreInOrder(earlier, i, j, q);
      var p :| 0 <= p < q && Has(earlier[p], Keys(earlier)[i]);
      assert Has(readings[p], Keys(readings)[i]);
    } else if q < n {
      assert Has(earlier[q], Keys(readings)[j]);
      KeysOccur(earlier, Keys(readings)[j]);
    } else {
      KeysOccur(earlier, Keys(readings)[i]);
      var p :| 0 <= p < n && Has(earlier[p], Keys(readings)[i]);
      assert Has(readings[p], Keys(readings)[i]);
    }
  }

  lemma {:induction false} Absent(readings: seq<Reading>, key: string)
    requires !Occurs(readings, key)
    ensures First(readings, key).None? && FirstPrice(readings, key).None? && Quantity(readings, key) == 0.0
  {
    if readings != [] {
      var earlier, last := readings[..|readings| - 1], readings[|readings| - 1];
      assert readings == earlier + [last];
      OccursSnoc(earlier, last, key);
      Absent(earlier, key);
    }
  }

  /** `First` is the item of the reading with the key that no other reading with the key precedes. */
  lemma {:induction false} FirstIsTheEarliest(readings: seq<Reading>, key: string, i: nat)
    requires i < |readings| && Has(readings[i], key) && !Occurs(readings[..i], key)
    ensures First(readings, key) == Some(readings[i].item)
  {
    var earlier, last := readings[..|readings| - 1], readings[|readings| - 1];
    if i < |earlier| {
      assert earlier[..i] == readings[..i];
      FirstIsTheEarliest(earlier, key, i);
    } else {
      assert readings[..i] == earlier;
      Absent(earlier, key);
    }
  }

  /** No reading with the key has a price. */
  predicate Unpriced(readings: seq<Reading>, key: string) {
    forall i | 0 <= i < |readings| :: PriceIn(readings[i], key).None?
  }

  /** `FirstPrice` is the price of the reading with the key that no other priced one precedes. */
  lemma {:induction false} FirstPriceIsTheEarliest(readings: seq<Reading>, key: string, i: nat)
    requires i < |readings| && PriceIn(readings[i], key).Some? && Unpriced(readings[..i], key)
    ensures FirstPrice(readings, key) == PriceIn(readings[i], key)
  {
    var earlier := readings[..|readings| - 1];
    if i < |earlier| {
      assert earlier[..i] == readings[..i];
      FirstPriceIsTheEarliest(earlier, key, i);
    } else {
      assert readings[..i] == earlier;
      UnpricedHasNoPrice(earlier, key);
    }
  }

  lemma {:induction false} UnpricedHasNoPrice(readings: seq<Reading>, key: string)
    ensures FirstPrice(readings, key).None? <==> Unpriced(readings, key)
  {
    if readings != [] {
      var earlier, last := readings[..|readings| - 1], readings[|readings| - 1];
      UnpricedHasNoPrice(earlier, key);
      assert forall i | 0 <= i < |earlier| :: earlier[i] == readings[i];
    }
  }

  // ---------- the merging loop ----------

  /** What one key should have got from the readings. */
  predicate Describes(item: Item, readings: seq<Reading>, key: string) {
    var first := First(readings, key);
    first.Some? && item == first.value.(price := FirstPrice(readings, key), quantity := Quantity(readings, key))
  }

  ghost predicate IsMerge(items: map<string, Item>, order: seq<string>, readings: seq<Reading>) {
    && order == Keys(readings)
    && (forall key :: key in items <==> key in order)
    && forall key | key in items :: Describes(items[key], readings, key)
  }

  /** A reading says nothing about the items of other keys. */
  lemma OtherKeysKeep(item: Item, readings: seq<Reading>, last: Reading, key: string)
    requires Describes(item, readings, key) && !Has(last, key)
    ensures Describes(item, readings + [last], key)
  {
    OneMore(readings, last, key);
  }

  lemma NewKey(readings: seq<Reading>, last: Reading)
    requires last.Keyed? && last.key !in Keys(readings)
    ensures Describes(last.item, readings + [last], last.key)
  {
    OneMore(readings, last, last.key);
    KeysOccur(readings, last.key);
    Absent(readings, last.key);
  }

  function Add(item: Item, more: Item): Item {
    item.(quantity := item.quantity + more.quantity, price := if item.price.None? then more.price else item.price)
  }

  lemma KnownKey(item: Item, readings: seq<Reading>, last: Reading)
    requires last.Keyed? && Describes(item, readings, last.key)
    ensures Describes(Add(item, last.item), readings + [last], last.key)
  {
    OneMore(readings, last, last.key);
  }

  /** One turn of the loop. */
  method MergeOne(items: map<string, Item>, order: seq<string>, reading: Reading, ghost readings: seq<Reading>)
    returns (items': map<string, Item>, order': seq<string>)
    requires IsMerge(items, order, readings)
    ensures IsMerge(items', order', readings + [reading])
  {
    items', order' := items, order;
    OneMoreKey(readings, reading);
    if reading.Keyed? {
      if reading.key !in items {
        NewKey(readings, reading);
        items', order' := items[reading.key := reading.item], order + [reading.key];
      } else {
        KnownKey(items[reading.key], readings, reading);
        items' := items[reading.key := Add(items[reading.key], reading.item)];
      }
    }
    forall other | other in items && !Has(reading, other)
      ensures Describes(items[other], readings + [reading], other)
    {
      OtherKeysKeep(items[other], readings, reading, other);
    }
  }

  lemma ReadAllSnoc(rows: seq<Row>, i: nat)
    requires i < |rows|
    ensures ReadAll(rows[..i + 1]) == ReadAll(rows[..i]) + [Read(rows[i])]
  {
  }

  /** The items by key, with the order in which the dictionary lists them. */
  method MergeRows(rows: seq<Row>) returns (items: map<string, Item>, order: seq<string>)
    ensures IsMerge(items, order, ReadAll(rows))
  {
    items, order := map[], [];
    for i := 0 to |rows|
      invariant IsMerge(items, order, ReadAll(rows[..i]))
    {
      ReadAllSnoc(rows, i);
      items, order := MergeOne(items, order, Read(rows[i]), ReadAll(rows[..i]));
    }
    assert rows[..|rows|] == rows;
  }

  // ---------- conservation ----------

  function UsableTotal(readings: seq<Reading>): real {
    if readings == [] then 0.0
    else
      var last := readings[|readings| - 1];
      UsableTotal(readings[..|readings| - 1]) + if last.Keyed? then last.item.quantity else 0.0
  }

  /** The quantities the readings have under the listed keys. */
  function Listed(readings: seq<Reading>, keys: seq<string>): real {
    if keys == [] then 0.0 else Listed(readings, keys[..|keys| - 1]) + Quantity(readings, keys[|keys| - 1])
  }

  lemma {:induction false} ListedWithOneMore(readings: seq<Reading>, last: Reading, keys: seq<string>)
    requires forall i, j | 0 <= i < j < |keys| :: keys[i] != keys[j]
    ensures Listed(readings + [last], keys) ==
              Listed(readings, keys) + if last.Keyed? && last.key in keys then last.item.quantity else 0.0
  {
    if keys != [] {
      var others, key := keys[..|keys| - 1], keys[|keys| - 1];
      ListedWithOneMore(readings, last, others);
      OneMore(readings, last, key);
      assert keys == others + [key];
    }
  }

  /** A new key is listed last, with the quantity of its first reading. */
  lemma NewKeyIsListed(earlier: seq<Reading>, last: Reading)
    requires last.Keyed? && last.key !in Keys(earlier)
    ensures Listed(earlier + [last], Keys(earlier + [last]))
            == Listed(earlier + [last], Keys(earlier)) + last.item.quantity
  {
    OneMoreKey(earlier, last);
    KeysOccur(earlier, last.key);
    Absent(earlier, last.key);
    OneMore(earlier, last, last.key);
    assert (Keys(earlier) + [last.key])[..|Keys(earlier)|] == Keys(earlier);
  }

  lemma UsableTotalSnoc(earlier: seq<Reading>, last: Reading)
    ensures UsableTotal(earlier + [last]) == UsableTotal(earlier) + if last.Keyed? then last.item.quantity else 0.0
  {
    assert (earlier + [last])[..|earlier|] == earlier;
  }

  lemma OneMoreIsNotLost(earlier: seq<Reading>, last: Reading)
    requires Listed(earlier, Keys(earlier)) == UsableTotal(earlier)
    ensures Listed(earlier + [last], Keys(earlier + [last])) == UsableTotal(earlier + [last])
  {
    UsableTotalSnoc(earlier, last);
    KeysAreDistinct(earlier);
    ListedWithOneMore(earlier, last, Keys(earlier));
    if last.Keyed? && last.key !in Keys(earlier) {
      NewKeyIsListed(earlier, last);
    } else {
      OneMoreKey(earlier, last);
    }
  }

  lemma {:induction false} NothingIsLost(readings: seq<Reading>)
    ensures Listed(readings, Keys(readings)) == UsableTotal(readings)
  {
    if readings != [] {
      var earlier, last := readings[..|readings| - 1], readings[|readings| - 1];
      NothingIsLost(earlier);
      OneMoreIsNotLost(earlier, last);
      assert readings == earlier + [last];
    }
  }

  function Total(items: map<string, Item>, order: seq<string>): real
    requires forall i | 0 <= i < |order| :: order[i] in items
  {
    if order == [] then 0.0 else Total(items, order[..|order| - 1]) + items[order[|order| - 1]].quantity
  }

  lemma {:induction false} TotalIsListed(items: map<string, Item>, readings: seq<Reading>, keys: seq<string>)
    requires forall i | 0 <= i < |keys| :: keys[i] in items && items[keys[i]].quantity == Quantity(readings, keys[i])
    ensures Total(items, keys) == Listed(readings, keys)
  {
    if keys != [] {
      TotalIsListed(items, readings, keys[..|keys| - 1]);
    }
  }

  /** The merged items hold what all rows with a usable key hold together. */
  lemma MergeConservesTheTotal(items: map<string, Item>, order: seq<string>, readings: seq<Reading>)
    requires IsMerge(items, order, readings)
    ensures forall i | 0 <= i < |order| :: order[i] in items
    ensures Total(items, order) == UsableTotal(readings)
  {
    TotalIsListed(items, readings, order);
    NothingIsLost(readings);
  }

  /** What the rows hold that are neither unreadable nor without an id and a name. */
  ghost function RowTotal(rows: seq<Row>): real {
    if rows == [] then 0.0
    else
      var row := rows[|rows| - 1];
      RowTotal(rows[..|rows| - 1]) +
      if row.Row? && row.quantity.Some? && (Strip(IdText(row)) != "" || Strip(NameText(row)) != "")
      then row.quantity.value else 0.0
  }

  lemma {:induction false} ReadingsHoldTheRowTotal(rows: seq<Row>)
    ensures UsableTotal(ReadAll(rows)) == RowTotal(rows)
  {
    if rows != [] {
      var earlier, row := rows[..|rows| - 1], rows[|rows| - 1];
      ReadingsHoldTheRowTotal(earlier);
      assert ReadAll(rows)[..|rows| - 1] == ReadAll(earlier);
      if row.Row? {
        SkippedIffIdAndNameAreBlank(row);
        NoneIsNotBlank();
      }
    }
  }

  /** The quantities of the merged items add up to those of the rows. */
  lemma MergeConservesTheRows(items: map<string, Item>, order: seq<string>, rows: seq<Row>)
    requires IsMerge(items, order, ReadAll(rows))
    ensures forall i | 0 <= i < |order| :: order[i] in items
    ensures Total(items, order) == RowTotal(rows)
  {
    MergeConservesTheTotal(items, order, ReadAll(rows));
    ReadingsHoldTheRowTotal(rows);
  }

  /** A merged item has the fields of the first row with its key. */
  lemma ItemHasTheFirstRowsFields(items: map<string, Item>, order: seq<string>, rows: seq<Row>, i: nat)
    requires IsMerge(items, order, ReadAll(rows)) && i < |rows| && Read(rows[i]).Keyed?
    requires !Occurs(ReadAll(rows)[..i], Read(rows[i]).key)
    ensures var row, key := rows[i], Read(rows[i]).key;
      && row.Row? && key in items
      && items[key] == Item(IdText(row), row.sku, NameText(row), row.category, row.unit,
                            items[key].price, items[key].quantity)
  {
    var key := Read(rows[i]).key;
    FirstIsTheEarliest(ReadAll(rows), key, i);
    ReadingHasTheFields(rows[i]);
    assert Has(ReadAll(rows)[i], key);
    KeysOccur(ReadAll(rows), key);
    assert Describes(items[key], ReadAll(rows), key);
  }

  // ---------- when nothing is merged ----------

  predicate SameKey(a: Reading, b: Reading) {
    a.Keyed? && b.Keyed? && a.key == b.key
  }

  lemma {:induction false} KeysAreNoMoreThanReadings(readings: seq<Reading>)
    ensures |Keys(readings)| <= |readings|
  {
    if readings != [] {
      KeysAreNoMoreThanReadings(readings[..|readings| - 1]);
    }
  }

  /** Each reading has a key of its own. */
  predicate AllDiffer(readings: seq<Reading>) {
    && (forall i | 0 <= i < |readings| :: readings[i].Keyed?)
    && (forall i, j | 0 <= i < j < |readings| :: !SameKey(readings[i], readings[j]))
  }

  /** Every row gets an item of its own exactly when none is skipped and no two share a key. */
  lemma {:induction false} NothingMergesIffKeysDiffer(readings: seq<Reading>)
    ensures |Keys(readings)| == |readings| <==> AllDiffer(readings)
  {
    if readings != [] {
      var n := |readings| - 1;
      var earlier, last := readings[..n], readings[n];
      NothingMergesIffKeysDiffer(earlier);
      KeysAreNoMoreThanReadings(earlier);
      if last.Keyed? {
        KeysOccur(earlier, last.key);
        LastDiffersIff(readings);
      }
    }
  }

  lemma LastDiffersIff(readings: seq<Reading>)
    requires readings != [] && readings[|readings| - 1].Keyed?
    ensures var earlier := readings[..|readings| - 1];
      AllDiffer(readings) <==> AllDiffer(earlier) && !Occurs(earlier, readings[|readings| - 1].key)
  {
    var n := |readings| - 1;
    var earlier := readings[..n];
    assert forall i | 0 <= i < n :: earlier[i] == readings[i];
    if AllDiffer(readings) {
      forall i | 0 <= i < n
        ensures !Has(earlier[i], readings[n].key)
      {
        assert !SameKey(readings[i], readings[n]);
      }
    }
  }

  /** What the schema promises of the ids: every row has one, not blank, and no two are the same. */
  ghost predicate IdsAreKeys(rows: seq<Row>) {
    && (forall i | 0 <= i < |rows| :: rows[i].Row? && rows[i].itemId.Some? && Strip(rows[i].itemId.value) != "")
    && (forall i, j | 0 <= i < j < |rows| :: Strip(rows[i].itemId.value) != Strip(rows[j].itemId.value))
  }

  lemma IdIsTheKey(row: Row)
    requires row.Row? && row.itemId.Some? && Strip(row.itemId.value) != ""
    ensures Read(row) == Keyed(Strip(row.itemId.value), Payload(row))
  {
  }

  /** So the rows of the query are all listed, each as an item of its own. */
  lemma RowsOfTheSchemaStayApart(rows: seq<Row>)
    requires IdsAreKeys(rows)
    ensures AllDiffer(ReadAll(rows)) && |Keys(ReadAll(rows))| == |rows|
  {
    forall i | 0 <= i < |rows|
      ensures ReadAll(rows)[i] == Keyed(Strip(rows[i].itemId.value), Payload(rows[i]))
    {
      IdIsTheKey(rows[i]);
    }
    NothingMergesIffKeysDiffer(ReadAll(rows));
  }

  // ---------- the order of the rows ----------

  function Without(readings: seq<Reading>, i: nat): seq<Reading>
    requires i < |readings|
  {
    readings[..i] + readings[i + 1..]
  }

  lemma {:induction false} WithoutOne(readings: seq<Reading>, i: nat, key: string)
    requires i < |readings|
    ensures Quantity(readings, key) == Quantity(Without(readings, i), key) + QuantityIn(readings[i], key)
  {
    var earlier, last := readings[..|readings| - 1], readings[|readings| - 1];
    if i == |readings| - 1 {
      assert Without(readings, i) == earlier;
    } else {
      WithoutOne(earlier, i, key);
      assert Without(readings, i) == Without(earlier, i) + [last];
      OneMore(Without(earlier, i), last, key);
    }
  }

  lemma WithoutIsOneFewer(readings: seq<Reading>, i: nat)
    requires i < |readings|
    ensures multiset(readings) == multiset(Without(readings, i)) + multiset{readings[i]}
  {
    assert readings == readings[..i] + ([readings[i]] + readings[i + 1..]);
  }

  lemma Cancel(a: multiset<Reading>, b: multiset<Reading>, x: Reading)
    requires a + multiset{x} == b + multiset{x}
    ensures a == b
  {
    assert a == a + multiset{x} - multiset{x};
    assert b == b + multiset{x} - multiset{x};
  }

  /** Any order of the readings gives the same quantities. */
  lemma {:induction false} QuantitiesIgnoreTheOrder(a: seq<Reading>, b: seq<Reading>, key: string)
    requires multiset(a) == multiset(b)
    ensures Quantity(a, key) == Quantity(b, key)
    decreases |a|
  {
    if a == [] {
      assert |multiset(b)| == 0;
    } else {
      var earlier, last := a[..|a| - 1], a[|a| - 1];
      assert last in multiset(b);
      var i :| 0 <= i < |b| && b[i] == last;
      WithoutIsOneFewer(b, i);
      WithoutIsOneFewer(a, |a| - 1);
      assert Without(a, |a| - 1) == earlier;
      Cancel(multiset(earlier), multiset(Without(b, i)), last);
      QuantitiesIgnoreTheOrder(earlier, Without(b, i), key);
      WithoutOne(b, i, key);
    }
  }

  lemma OccurrenceIgnoresTheOrder(a: seq<Reading>, b: seq<Reading>, key: string)
    requires multiset(a) == multiset(b) && Occurs(a, key)
    ensures Occurs(b, key)
  {
    var i :| 0 <= i < |a| && Has(a[i], key);
    assert a[i] in multiset(b);
    var j :| 0 <= j < |b| && b[j] == a[i];
  }

  /** Two orders of the same rows give items with the same keys and the same quantities. */
  lemma MergesAgree(a: seq<Reading>, b: seq<Reading>, itemsA: map<string, Item>, itemsB: map<string, Item>, key: string)
    requires multiset(a) == multiset(b) && IsMerge(itemsA, Keys(a), a) && IsMerge(itemsB, Keys(b), b)
    ensures key in itemsA <==> key in itemsB
    ensures key in itemsA ==> itemsA[key].quantity == itemsB[key].quantity
  {
    KeysOccur(a, key);
    KeysOccur(b, key);
    if Occurs(a, key) {
      OccurrenceIgnoresTheOrder(a, b, key);
    } else if Occurs(b, key) {
      OccurrenceIgnoresTheOrder(b, a, key);
    }
    QuantitiesIgnoreTheOrder(a, b, key);
  }

  // ---------- merging again ----------

  /** The merged items, in order, as readings. */
  function Reread(items: map<string, Item>, order: seq<string>): seq<Reading>
    requires forall i | 0 <= i < |order| :: order[i] in items
  {
    if order == [] then []
    else
      var key := order[|order| - 1];
      Reread(items, order[..|order| - 1]) + [Keyed(key, items[key])]
  }

  function AsRow(item: Item): Row {
    Row(Some(item.itemId), item.sku, Some(item.name), item.category, item.unit, item.price, Some(item.quantity))
  }

  /** Every reading of the rows is keyed by its own item. */
  lemma {:induction false} FirstKeepsItsKey(rows: seq<Row>, key: string)
    requires First(ReadAll(rows), key).Some?
    ensures key != "" && ItemKey(First(ReadAll(rows), key).value) == key
  {
    if rows != [] {
      var earlier := rows[..|rows| - 1];
      assert ReadAll(rows)[..|rows| - 1] == ReadAll(earlier);
      if First(ReadAll(earlier), key).Some? {
        FirstKeepsItsKey(earlier, key);
      }
    }
  }

  /** Each merged item, given back as a row, is read as itself under its key. */
  lemma MergedItemsReadBack(item: Item, rows: seq<Row>, key: string)
    requires Describes(item, ReadAll(rows), key)
    ensures Read(AsRow(item)) == Keyed(key, item)
  {
    FirstKeepsItsKey(rows, key);
    assert Payload(AsRow(item)) == item;
  }

  lemma {:induction false} MergingAgainChangesNothing(items: map<string, Item>, keys: seq<string>)
    requires forall i | 0 <= i < |keys| :: keys[i] in items
    requires forall i, j | 0 <= i < j < |keys| :: keys[i] != keys[j]
    ensures Keys(Reread(items, keys)) == keys
    ensures forall i | 0 <= i < |keys| :: Describes(items[keys[i]], Reread(items, keys), keys[i])
  {
    if keys != [] {
      var others, key := keys[..|keys| - 1], keys[|keys| - 1];
      var earlier, last := Reread(items, others), Keyed(key, items[key]);
      assert keys == others + [key];
      MergingAgainChangesNothing(items, others);
      OneMoreKey(earlier, last);
      NewKey(earlier, last);
      forall i | 0 <= i < |others|
        ensures Describes(items[others[i]], earlier + [last], others[i])
      {
        OtherKeysKeep(items[others[i]], earlier, last, others[i]);
      }
    }
  }

  /** The merge of what a merge gave is that merge. */
  lemma MergeIsIdempotent(items: map<string, Item>, order: seq<string>, readings: seq<Reading>)
    requires IsMerge(items, order, readings)
    ensures forall i | 0 <= i < |order| :: order[i] in items
    ensures IsMerge(items, order, Reread(items, order))
  {
    KeysAreDistinct(readings);
    MergingAgainChangesNothing(items, order);
    forall key | key in items
      ensures Describes(items[key], Reread(items, order), key)
    {
      var i :| 0 <= i < |order| && order[i] == key;
    }
  }
}
