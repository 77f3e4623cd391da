/**
 `extractMaterials`: turns one parsed listing page into material records.

 The page is abstracted to the four element lists the extractor queries, in
 document order: the texts of the title elements (`.product-title, .item-name`),
 of the price elements (`.price, .item-price`), of the discount elements
 (`.discount-percentage.discount-product`) and of the stock labels
 (`.label.label-default, #product-availability-grid`).
 */
module Extract {
  import opened Text

  datatype Material = Material(
    shop: string,
    material: string,
    title: string,
    price: string,
    discount: string,
    stock: string,
    date: string)

  datatype Page = Page(
    titles: seq<string>,
    prices: seq<string>,
    discounts: seq<string>,
    labels: seq<string>)

  const SinStock: string := "Sin stock"
  const FueraDeStock: string := "Fuera de stock"

  /** `.eq(i).text()`: the text of the i-th element, or "" past the end of the list. */
  function TextAt(texts: seq<string>, i: nat): string
  {
    if i < |texts| then texts[i] else ""
  }

  /** The title as compared and stored: lowered, then trimmed. */
  function NormaliseTitle(text: string): string
  {
    Trim(ToLower(text))
  }

  predicate TitleMatches(text: string, materialName: string)
  {
    Contains(NormaliseTitle(text), materialName)
  }

  /** The stock field: one marker for either out-of-stock phrase, "" otherwise. */
  function StockOf(labelText: string): string
  {
    if Contains(labelText, SinStock) || Contains(labelText, FueraDeStock) then SinStock else ""
  }

  /** The record built for the title at position `i`, every field read at that same position. */
  function RecordAt(page: Page, i: nat, materialName: string, shop: string, date: string): Material
    requires i < |page.titles|
  {
    Material(
      shop,
      materialName,
      NormaliseTitle(page.titles[i]),
      Trim(TextAt(page.prices, i)),
      Trim(TextAt(page.discounts, i)),
      StockOf(Trim(TextAt(page.labels, i))),
      date)
  }

  /** `Flags(titles, m)[i]`: whether the title at position `i` matches. */
  function Flags(titles: seq<string>, materialName: string): (flags: seq<bool>)
    ensures |flags| == |titles|
  {
    seq(|titles|, i requires 0 <= i < |titles| => TitleMatches(titles[i], materialName))
  }

  /** The positions below `n` whose flag is set, in increasing order. */
  function Positions(flags: seq<bool>, n: nat): (idx: seq<nat>)
    requires n <= |flags|
    ensures forall k :: 0 <= k < |idx| ==> idx[k] < n
  {
    if n == 0 then []
    else Positions(flags, n - 1) + (if flags[n - 1] then [n - 1] else [])
  }

  function MatchIndices(titles: seq<string>, materialName: string): seq<nat>
  {
    Positions(Flags(titles, materialName), |titles|)
  }

  /** The set of matching title positions. */
  function MatchSet(titles: seq<string>, materialName: string): set<nat>
  {
    set i: nat | i < |titles| && TitleMatches(titles[i], materialName)
  }

  /** The records for the matching titles among the first `n`, in document order. */
  function ExtractionBefore(page: Page, materialName: string, shop: string, date: string, n: nat): seq<Material>
    requires n <= |page.titles|
  {
    var idx := Positions(Flags(page.titles, materialName), n);
    seq(|idx|, k requires 0 <= k < |idx| => RecordAt(page, idx[k], materialName, shop, date))
  }

  /** Reference definition: one record per matching title, in document order. */
  function Extraction(page: Page, materialName: string, shop: string, date: string): seq<Material>
  {
    ExtractionBefore(page, materialName, shop, date, |page.titles|)
  }

  /** `extractMaterials`: walks the titles, pushing one record per match. */
  method ExtractMaterials(page: Page, materialName: string, shop: string, date: string)
    returns (materialData: seq<Material>)
    ensures materialData == Extraction(page, materialName, shop, date)
  {
    materialData := [];
    var index := 0;
    while index < |page.titles|
      invariant index <= |page.titles|
      invariant materialData == ExtractionBefore(page, materialName, shop, date, index)
    {
      ExtractionStep(page, materialName, shop, date, index);
      var title := NormaliseTitle(page.titles[index]);
      if Contains(title, materialName) {
        var price := Trim(TextAt(page.prices, index));
        var discount := Trim(TextAt(page.discounts, index));
        var stock := StockOf(Trim(TextAt(page.labels, index)));
        var record := Material(shop, materialName, title, price, discount, stock, date);
        assert record == RecordAt(page, index, materialName, shop, date);
        materialData := materialData + [record];
      }
      index := index + 1;
    }
  }

  /** Looking at one more title appends its record if, and only if, it matches. */
  lemma ExtractionStep(page: Page, materialName: string, shop: string, date: string, n: nat)
    requires n < |page.titles|
    ensures ExtractionBefore(page, materialName, shop, date, n + 1)
      == ExtractionBefore(page, materialName, shop, date, n)
         + (if TitleMatches(page.titles[n], materialName) then [RecordAt(page, n, materialName, shop, date)] else [])
  {
    var flags := Flags(page.titles, materialName);
    assert flags[n] == TitleMatches(page.titles[n], materialName);
  }

  /** The positions are strictly increasing and are exactly those whose flag is set. */
  lemma {:induction false} PositionsSpec(flags: seq<bool>, n: nat)
    requires n <= |flags|
    ensures forall k, l :: 0 <= k < l < |Positions(flags, n)| ==> Positions(flags, n)[k] < Positions(flags, n)[l]
    ensures forall i: nat :: i in Positions(flags, n) <==> i < n && flags[i]
  {
    if n > 0 {
      PositionsSpec(flags, n - 1);
    }
  }

  lemma {:induction false} PositionsCount(flags: seq<bool>, n: nat)
    requires n <= |flags|
    ensures |Positions(flags, n)| == |set i: nat | i < n && flags[i]|
  {
    if n > 0 {
      PositionsCount(flags, n - 1);
      var before := set i: nat | i < n - 1 && flags[i];
      assert n - 1 !in before;
      if flags[n - 1] {
        assert (set i: nat | i < n && flags[i]) == before + {n - 1};
      } else {
        assert (set i: nat | i < n && flags[i]) == before;
      }
    }
  }

  /** The match positions are strictly increasing and are exactly the matching titles. */
  lemma MatchIndicesSpec(titles: seq<string>, materialName: string)
    ensures var idx := MatchIndices(titles, materialName);
      forall k, l :: 0 <= k < l < |idx| ==> idx[k] < idx[l]
    ensures forall i: nat :: i in MatchIndices(titles, materialName) <==> i < |titles| && TitleMatches(titles[i], materialName)
  {
    PositionsSpec(Flags(titles, materialName), |titles|);
  }

  /** Exactly one record per title whose lowered, trimmed text contains the material name. */
  lemma ExtractionCount(page: Page, materialName: string, shop: string, date: string)
    ensures |Extraction(page, materialName, shop, date)| == |MatchSet(page.titles, materialName)|
  {
    var flags := Flags(page.titles, materialName);
    PositionsCount(flags, |flags|);
    assert (set i: nat | i < |flags| && flags[i]) == MatchSet(page.titles, materialName);
  }

  /**
   The record pushed for title `i`: shop, material and date are the arguments,
   the title is lowered and trimmed, price and discount are the trimmed texts
   at the same index (or "" past the end), and stock reports either phrase on
   the label at that index.
   */
  lemma RecordAtFields(page: Page, i: nat, materialName: string, shop: string, date: string)
    requires i < |page.titles|
    ensures var r := RecordAt(page, i, materialName, shop, date);
      && r.shop == shop && r.material == materialName && r.date == date
      && r.title == Trim(ToLower(page.titles[i]))
      && (Contains(r.title, materialName) <==> TitleMatches(page.titles[i], materialName))
      && r.price == (if i < |page.prices| then Trim(page.prices[i]) else "")
      && r.discount == (if i < |page.discounts| then Trim(page.discounts[i]) else "")
      && (r.stock == SinStock || r.stock == "")
      && (r.stock == SinStock <==>
            i < |page.labels| && (Contains(page.labels[i], SinStock) || Contains(page.labels[i], FueraDeStock)))
  {
    var labelText := TextAt(page.labels, i);
    TrimKeepsPhrase(labelText, SinStock);
    TrimKeepsPhrase(labelText, FueraDeStock);
    if i >= |page.labels| {
      assert !Contains("", SinStock);
      assert !Contains("", FueraDeStock);
    }
  }

  /**
   Record `k` comes from the `k`-th matching title `i`, in document order, and
   every field of it is read at that same position `i`.
   */
  lemma ExtractionFields(page: Page, materialName: string, shop: string, date: string, k: nat)
    requires k < |Extraction(page, materialName, shop, date)|
    ensures var r := Extraction(page, materialName, shop, date)[k];
      var i := MatchIndices(page.titles, materialName)[k];
      && i < |page.titles|
      && (forall l :: 0 <= l < k ==> MatchIndices(page.titles, materialName)[l] < i)
      && r == RecordAt(page, i, materialName, shop, date)
      && r.shop == shop && r.material == materialName && r.date == date
      && r.title == NormaliseTitle(page.titles[i]) && Contains(r.title, materialName)
      && r.price == (if i < |page.prices| then Trim(page.prices[i]) else "")
      && r.discount == (if i < |page.discounts| then Trim(page.discounts[i]) else "")
      && (r.stock == SinStock || r.stock == "")
      && (r.stock == SinStock <==>
            i < |page.labels| && (Contains(page.labels[i], SinStock) || Contains(page.labels[i], FueraDeStock)))
  {
    var idx := MatchIndices(page.titles, materialName);
    var i := idx[k];
    MatchIndicesSpec(page.titles, materialName);
    assert i in idx;
    RecordAtFields(page, i, materialName, shop, date);
  }

  /** Every matching title yields a record. */
  lemma ExtractionCovers(page: Page, materialName: string, shop: string, date: string, i: nat)
    requires i < |page.titles| && TitleMatches(page.titles[i], materialName)
    ensures exists k :: (0 <= k < |Extraction(page, materialName, shop, date)|
      && MatchIndices(page.titles, materialName)[k] == i
      && Extraction(page, materialName, shop, date)[k] == RecordAt(page, i, materialName, shop, date))
  {
    MatchIndicesSpec(page.titles, materialName);
    var idx := MatchIndices(page.titles, materialName);
    assert i in idx;
    var k :| 0 <= k < |idx| && idx[k] == i;
    assert Extraction(page, materialName, shop, date)[k] == RecordAt(page, i, materialName, shop, date);
  }

  /** A page with no matching title yields no record, and only such a page. */
  lemma ExtractionEmpty(page: Page, materialName: string, shop: string, date: string)
    ensures Extraction(page, materialName, shop, date) == []
      <==> forall i :: 0 <= i < |page.titles| ==> !TitleMatches(page.titles[i], materialName)
  {
    MatchIndicesSpec(page.titles, materialName);
    var idx := MatchIndices(page.titles, materialName);
    if idx != [] {
      assert idx[0] in idx;
    }
  }

  /** A material name with an upper-case letter never matches: only the title is lowered. */
  lemma UpperCaseNameMatchesNothing(page: Page, materialName: string, shop: string, date: string, k: nat)
    requires k < |materialName| && IsUpper(materialName[k])
    ensures Extraction(page, materialName, shop, date) == []
  {
    forall i | 0 <= i < |page.titles| ensures !TitleMatches(page.titles[i], materialName) {
      UpperNeverFound(page.titles[i], materialName, k);
    }
    ExtractionEmpty(page, materialName, shop, date);
  }

  /** The second phrase is reported under the first marker, not as its own text. */
  lemma OutOfStockReportedAsSinStock()
    ensures StockOf(FueraDeStock) == SinStock
    ensures StockOf("") == ""
  {
    assert FueraDeStock <= FueraDeStock;
    assert !Contains("", SinStock);
  }

  lemma CementTitle(text: string)
    requires text == " Cemento x50kg "
    ensures NormaliseTitle(text) == "cemento x50kg"
  {
    var lowered := ToLower(text);
    assert lowered == " cemento x50kg ";
    assert lowered[1..] == "cemento x50kg ";
    assert TrimStart(lowered) == "cemento x50kg ";
    assert "cemento x50kg "[..13] == "cemento x50kg";
  }

  lemma IronTitle(text: string)
    requires text == "Hierro 8mm"
    ensures NormaliseTitle(text) == "hierro 8mm"
  {
    var lowered := ToLower(text);
    assert lowered == "hierro 8mm";
  }

  lemma CementMatches(text: string, name: string)
    requires text == " Cemento x50kg " && name == "cemento"
    ensures TitleMatches(text, name)
  {
    CementTitle(text);
    assert name <= NormaliseTitle(text);
  }

  lemma IronMisses(text: string, name: string)
    requires text == "Hierro 8mm" && name == "cemento"
    ensures !TitleMatches(text, name)
  {
    IronTitle(text);
    var s := NormaliseTitle(text);
    assert 'c' !in s;
    if Contains(s, name) {
      ContainsChars(s, name, 0);
    }
  }

  lemma CementFlags(titles: seq<string>, name: string)
    requires titles == [" Cemento x50kg ", "Hierro 8mm"] && name == "cemento"
    ensures Flags(titles, name) == [true, false]
  {
    CementMatches(titles[0], name);
    IronMisses(titles[1], name);
  }

  lemma FirstOfTwo(flags: seq<bool>)
    requires flags == [true, false]
    ensures Positions(flags, 2) == [0]
  {
    assert Positions(flags, 1) == [0];
  }

  /** Of a cement and an iron listing, the filter "cemento" keeps the first. */
  lemma CementMatchesFirstOnly(titles: seq<string>, name: string)
    requires titles == [" Cemento x50kg ", "Hierro 8mm"] && name == "cemento"
    ensures MatchIndices(titles, name) == [0]
  {
    CementFlags(titles, name);
    FirstOfTwo(Flags(titles, name));
  }

  /** One Sagosa cement page with a cement and an iron listing. */
  lemma CementExample(page: Page, date: string)
    requires page == Page([" Cemento x50kg ", "Hierro 8mm"], ["$5000", "$8000"], [], [])
    ensures Extraction(page, "cemento", "Sagosa", date)
      == [Material("Sagosa", "cemento", "cemento x50kg", "$5000", "", "", date)]
  {
    CementMatchesFirstOnly(page.titles, "cemento");
    CementTitle(page.titles[0]);
    var r := RecordAt(page, 0, "cemento", "Sagosa", date);
    assert Trim(page.prices[0]) == "$5000";
    assert !Contains("", SinStock);
    assert r == Material("Sagosa", "cemento", "cemento x50kg", "$5000", "", "", date);
  }
}
