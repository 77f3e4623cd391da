/**
 `getMaterial`: walks the source catalog, extracts each successfully fetched
 page and groups the records by shop, then hands the batch to the store once.

 Fetching and HTML parsing are outside the model: the response for the i-th
 catalog entry is given as `responses[i]`, either `None` (`fetchHtml`
 returned `null`) or the body text together with the page parsed from it.
 */
module Pipeline {
  import opened Extract
  import opened DateStore

  datatype Option<T> = None | Some(value: T)

  datatype Source = Source(shop: string, url: string, materialName: string)

  datatype Download = Download(html: string, page: Page)

  /** `MATERIALS_CONFIG`, identical in both files. */
  const MaterialsConfig: seq<Source> := [
    Source("Sagosa", "https://www.sagosa.com.ar/2665-cemento", "cemento"),
    Source("Sagosa", "https://www.sagosa.com.ar/2723-hierro", "hierro"),
    Source("Sagosa", "https://www.sagosa.com.ar/2646-aridos", "bolson"),
    Source("Sagosa", "https://www.sagosa.com.ar/2755-malla", "malla"),
    Source("Mottesi", "https://mottesimateriales.com.ar/construccion/hierro", "hierro"),
    Source("Mottesi", "https://mottesimateriales.com.ar/construccion/mallas/", "malla"),
    Source("Mottesi", "https://mottesimateriales.com.ar/construccion/aridos/", "bols\U{00F3}n"),
    Source("Mottesi", "https://mottesimateriales.com.ar/construccion/cementicios/", "cemento"),
    Source("NeoMat", "https://www.neomat.com.ar/obra-gruesa/cementicio", "cemento"),
    Source("NeoMat", "https://www.neomat.com.ar/obra-gruesa/fierrera", "hierro nervado"),
    Source("NeoMat", "https://www.neomat.com.ar/obra-gruesa/fierrera", "malla")
  ]

  /** `if (html)`: a `null` response and an empty body are both skipped. */
  predicate Succeeded(response: Option<Download>)
  {
    response.Some? && response.value.html != ""
  }

  /** What one catalog entry gives the grouping: nothing, or its shop and extracted records. */
  datatype Outcome = Skipped | Extracted(shop: string, records: seq<Material>)

  function OutcomeOf(source: Source, response: Option<Download>, date: string): Outcome
  {
    if Succeeded(response) then
      Extracted(source.shop, Extraction(response.value.page, source.materialName, source.shop, date))
    else Skipped
  }

  function Outcomes(catalog: seq<Source>, responses: seq<Option<Download>>, date: string): (outcomes: seq<Outcome>)
    requires |responses| == |catalog|
    ensures |outcomes| == |catalog|
  {
    seq(|catalog|, j requires 0 <= j < |catalog| => OutcomeOf(catalog[j], responses[j], date))
  }

  /** The records one entry adds to `shop`. */
  function Contribution(outcome: Outcome, shop: string): seq<Material>
  {
    if outcome.Extracted? && outcome.shop == shop then outcome.records else []
  }

  /** Reference definition: `shop`'s records, entry by entry in catalog order. */
  function ShopRecords(outcomes: seq<Outcome>, shop: string): seq<Material>
    decreases |outcomes|
  {
    if outcomes == [] then []
    else
      var n := |outcomes| - 1;
      ShopRecords(outcomes[..n], shop) + Contribution(outcomes[n], shop)
  }

  /** Shops with at least one successful fetch. */
  function FetchedShops(outcomes: seq<Outcome>): set<string>
  {
    set j | 0 <= j < |outcomes| && outcomes[j].Extracted? :: outcomes[j].shop
  }

  /** An entry for each fetched shop, holding its records. */
  function Group(outcomes: seq<Outcome>): MaterialsByShop
  {
    map shop | shop in FetchedShops(outcomes) :: ShopRecords(outcomes, shop)
  }

  /** The batch a run builds from the catalog and what each fetch returned. */
  function Grouping(catalog: seq<Source>, responses: seq<Option<Download>>, date: string): MaterialsByShop
    requires |responses| == |catalog|
  {
    Group(Outcomes(catalog, responses, date))
  }

  /** The batch built from the first `n` catalog entries. */
  function GroupingBefore(catalog: seq<Source>, responses: seq<Option<Download>>, date: string, n: nat): MaterialsByShop
    requires |responses| == |catalog| && n <= |catalog|
  {
    Group(Outcomes(catalog, responses, date)[..n])
  }

  /** One step of the grouping loop: a success appends its records to its shop's entry, opening it if needed. */
  function AddSource(before: MaterialsByShop, source: Source, response: Option<Download>, date: string): MaterialsByShop
  {
    if Succeeded(response) then
      before[source.shop := (if source.shop in before then before[source.shop] else [])
        + Extraction(response.value.page, source.materialName, source.shop, date)]
    else before
  }

  /** The grouping as the loop builds it, entry by entry. */
  function GroupingFold(catalog: seq<Source>, responses: seq<Option<Download>>, date: string, n: nat): MaterialsByShop
    requires |responses| == |catalog| && n <= |catalog|
    decreases n
  {
    if n == 0 then map[]
    else AddSource(GroupingFold(catalog, responses, date, n - 1), catalog[n - 1], responses[n - 1], date)
  }

  /** The entry-by-entry fold agrees with the per-shop reference definition. */
  lemma {:induction false} FoldIsGroup(catalog: seq<Source>, responses: seq<Option<Download>>, date: string, n: nat)
    requires |responses| == |catalog| && n <= |catalog|
    ensures GroupingFold(catalog, responses, date, n) == GroupingBefore(catalog, responses, date, n)
    decreases n
  {
    if n == 0 {
      GroupingNone(catalog, responses, date);
    } else {
      FoldIsGroup(catalog, responses, date, n - 1);
      FoldStep(catalog, responses, date, n - 1);
    }
  }

  lemma FoldStep(catalog: seq<Source>, responses: seq<Option<Download>>, date: string, n: nat)
    requires |responses| == |catalog| && n < |catalog|
    requires GroupingFold(catalog, responses, date, n) == GroupingBefore(catalog, responses, date, n)
    ensures GroupingFold(catalog, responses, date, n + 1) == GroupingBefore(catalog, responses, date, n + 1)
  {
    GroupingStep(catalog, responses, date, n);
  }

  /** The grouping loop of `getMaterial`. */
  method GroupByShop(catalog: seq<Source>, responses: seq<Option<Download>>, date: string)
    returns (allMaterials: MaterialsByShop)
    requires |responses| == |catalog|
    ensures allMaterials == Grouping(catalog, responses, date)
  {
    allMaterials := map[];
    var i := 0;
    while i < |catalog|
      invariant i <= |catalog|
      invariant allMaterials == GroupingFold(catalog, responses, date, i)
    {
      var source := catalog[i];
      var html := responses[i];
      if Succeeded(html) {
        var materials := ExtractMaterials(html.value.page, source.materialName, source.shop, date);
        ghost var before := allMaterials;
        if source.shop !in allMaterials {
          allMaterials := allMaterials[source.shop := []];
        }
        allMaterials := allMaterials[source.shop := allMaterials[source.shop] + materials];
        OpenThenAppend(before, source.shop, materials);
      }
      i := i + 1;
    }
    FoldIsGroup(catalog, responses, date, |catalog|);
    GroupingAll(catalog, responses, date);
  }

  /** One more catalog entry, in the terms the grouping loop uses. */
  lemma GroupingStep(catalog: seq<Source>, responses: seq<Option<Download>>, date: string, n: nat)
    requires |responses| == |catalog| && n < |catalog|
    ensures GroupingBefore(catalog, responses, date, n + 1)
      == AddSource(GroupingBefore(catalog, responses, date, n), catalog[n], responses[n], date)
  {
    var outcomes := Outcomes(catalog, responses, date);
    assert outcomes[..n + 1] == outcomes[..n] + [outcomes[n]];
    GroupStep(outcomes[..n], outcomes[n]);
  }

  lemma GroupingNone(catalog: seq<Source>, responses: seq<Option<Download>>, date: string)
    requires |responses| == |catalog|
    ensures GroupingBefore(catalog, responses, date, 0) == map[]
  {
    assert FetchedShops(Outcomes(catalog, responses, date)[..0]) == {};
  }

  /** Opening a missing entry with `[]` and then appending is a single update. */
  lemma OpenThenAppend<K, V>(m: map<K, seq<V>>, key: K, xs: seq<V>)
    ensures var withEntry := if key in m then m else m[key := []];
      withEntry[key := withEntry[key] + xs] == m[key := (if key in m then m[key] else []) + xs]
  {
  }

  lemma GroupingAll(catalog: seq<Source>, responses: seq<Option<Download>>, date: string)
    requires |responses| == |catalog|
    ensures GroupingBefore(catalog, responses, date, |catalog|) == Grouping(catalog, responses, date)
  {
    var outcomes := Outcomes(catalog, responses, date);
    assert outcomes[..|catalog|] == outcomes;
  }

  /** One more entry: a success appends to (or opens) its shop's entry, a skipped one changes nothing. */
  lemma GroupStep(outcomes: seq<Outcome>, next: Outcome)
    ensures var before := Group(outcomes);
      Group(outcomes + [next])
        == if next.Extracted? then
             before[next.shop := (if next.shop in before then before[next.shop] else []) + next.records]
           else before
  {
    FetchedShopsSnoc(outcomes, next);
    if next.Extracted? {
      GroupStepExtracted(outcomes, next);
    } else {
      GroupStepSkipped(outcomes, next);
    }
  }

  lemma GroupStepExtracted(outcomes: seq<Outcome>, next: Outcome)
    requires next.Extracted?
    requires FetchedShops(outcomes + [next]) == FetchedShops(outcomes) + {next.shop}
    ensures var before := Group(outcomes);
      Group(outcomes + [next])
        == before[next.shop := (if next.shop in before then before[next.shop] else []) + next.records]
  {
    var before := Group(outcomes);
    var after := Group(outcomes + [next]);
    var expected := before[next.shop := (if next.shop in before then before[next.shop] else []) + next.records];
    forall shop | shop in after ensures after[shop] == expected[shop] {
      ShopRecordsSnoc(outcomes, next, shop);
      if shop == next.shop && next.shop !in before {
        ShopRecordsOfUnfetched(outcomes, next.shop);
      }
    }
    MapEqual(after, expected);
  }

  lemma GroupStepSkipped(outcomes: seq<Outcome>, next: Outcome)
    requires next.Skipped?
    requires FetchedShops(outcomes + [next]) == FetchedShops(outcomes)
    ensures Group(outcomes + [next]) == Group(outcomes)
  {
    var before := Group(outcomes);
    var after := Group(outcomes + [next]);
    forall shop | shop in after ensures after[shop] == before[shop] {
      ShopRecordsSnoc(outcomes, next, shop);
    }
    MapEqual(after, before);
  }

  lemma FetchedShopsSnoc(outcomes: seq<Outcome>, next: Outcome)
    ensures FetchedShops(outcomes + [next])
      == FetchedShops(outcomes) + (if next.Extracted? then {next.shop} else {})
  {
    var o := outcomes + [next];
    forall shop | shop in FetchedShops(o)
      ensures shop in FetchedShops(outcomes) + (if next.Extracted? then {next.shop} else {})
    {
      var j :| 0 <= j < |o| && o[j].Extracted? && o[j].shop == shop;
      if j < |outcomes| {
        assert outcomes[j] == o[j];
      }
    }
    forall shop | shop in FetchedShops(outcomes) ensures shop in FetchedShops(o) {
      var j :| 0 <= j < |outcomes| && outcomes[j].Extracted? && outcomes[j].shop == shop;
      assert o[j] == outcomes[j];
    }
    if next.Extracted? {
      assert o[|outcomes|] == next;
    }
  }

  /** A shop without a successful fetch has no records. */
  lemma {:induction false} ShopRecordsOfUnfetched(outcomes: seq<Outcome>, shop: string)
    requires shop !in FetchedShops(outcomes)
    ensures ShopRecords(outcomes, shop) == []
    decreases |outcomes|
  {
    if outcomes != [] {
      var n := |outcomes| - 1;
      ShopRecordsOfUnfetched(outcomes[..n], shop);
      if outcomes[n].Extracted? {
        assert outcomes[n].shop != shop;
      }
    }
  }

  /** One entry appended adds its records at the end. */
  lemma ShopRecordsSnoc(outcomes: seq<Outcome>, next: Outcome, shop: string)
    ensures ShopRecords(outcomes + [next], shop)
      == ShopRecords(outcomes, shop) + Contribution(next, shop)
  {
    assert (outcomes + [next])[..|outcomes|] == outcomes;
  }

  /** Per-shop records of a split catalog are the records of its parts, in order. */
  lemma {:induction false} ShopRecordsConcat(o1: seq<Outcome>, o2: seq<Outcome>, shop: string)
    ensures ShopRecords(o1 + o2, shop) == ShopRecords(o1, shop) + ShopRecords(o2, shop)
    decreases |o2|
  {
    if o2 == [] {
      assert o1 + o2 == o1;
    } else {
      ShopRecordsConcat(o1, o2[..|o2| - 1], shop);
      ConcatSnoc(o1, o2, shop);
    }
  }

  lemma ConcatSnoc(o1: seq<Outcome>, o2: seq<Outcome>, shop: string)
    requires o2 != []
    requires ShopRecords(o1 + o2[..|o2| - 1], shop) == ShopRecords(o1, shop) + ShopRecords(o2[..|o2| - 1], shop)
    ensures ShopRecords(o1 + o2, shop) == ShopRecords(o1, shop) + ShopRecords(o2, shop)
  {
    InitOfAppend(o1, o2);
    ShopRecordsLast(o1 + o2, shop);
    ShopRecordsLast(o2, shop);
    AppendAssoc(ShopRecords(o1, shop), ShopRecords(o2[..|o2| - 1], shop), Contribution(o2[|o2| - 1], shop));
  }

  lemma ShopRecordsLast(outcomes: seq<Outcome>, shop: string)
    requires outcomes != []
    ensures ShopRecords(outcomes, shop)
      == ShopRecords(outcomes[..|outcomes| - 1], shop) + Contribution(outcomes[|outcomes| - 1], shop)
  {
  }

  lemma InitOfAppend<T>(a: seq<T>, b: seq<T>)
    requires b != []
    ensures (a + b)[..|a + b| - 1] == a + b[..|b| - 1]
    ensures (a + b)[|a + b| - 1] == b[|b| - 1]
  {
  }

  lemma AppendAssoc<T>(a: seq<T>, b: seq<T>, c: seq<T>)
    ensures (a + b) + c == a + (b + c)
  {
  }

  function Without<T>(s: seq<T>, j: nat): seq<T>
    requires j < |s|
  {
    s[..j] + s[j + 1..]
  }

  /** A skipped entry leaves no trace: the grouping is the one without it. */
  lemma SkippedLeavesNoTrace(outcomes: seq<Outcome>, j: nat)
    requires j < |outcomes| && outcomes[j].Skipped?
    ensures Group(outcomes) == Group(Without(outcomes, j))
  {
    var o := Without(outcomes, j);
    SkippedKeepsFetched(outcomes, j);
    forall shop | shop in Group(outcomes) ensures Group(outcomes)[shop] == Group(o)[shop] {
      SkippedKeepsRecords(outcomes, j, shop);
    }
    MapEqual(Group(outcomes), Group(o));
  }

  lemma SkippedKeepsFetched(outcomes: seq<Outcome>, j: nat)
    requires j < |outcomes| && outcomes[j].Skipped?
    ensures FetchedShops(outcomes) == FetchedShops(Without(outcomes, j))
  {
    var o := Without(outcomes, j);
    forall shop | shop in FetchedShops(outcomes) ensures shop in FetchedShops(o) {
      var i :| 0 <= i < |outcomes| && outcomes[i].Extracted? && outcomes[i].shop == shop;
      if i < j {
        assert o[i] == outcomes[i];
      } else {
        assert o[i - 1] == outcomes[i];
      }
    }
    forall shop | shop in FetchedShops(o) ensures shop in FetchedShops(outcomes) {
      var i :| 0 <= i < |o| && o[i].Extracted? && o[i].shop == shop;
      if i < j {
        assert o[i] == outcomes[i];
      } else {
        assert o[i] == outcomes[i + 1];
      }
    }
  }

  lemma SkippedKeepsRecords(outcomes: seq<Outcome>, j: nat, shop: string)
    requires j < |outcomes| && outcomes[j].Skipped?
    ensures ShopRecords(outcomes, shop) == ShopRecords(Without(outcomes, j), shop)
  {
    var front, back := outcomes[..j], outcomes[j + 1..];
    assert outcomes == (front + [outcomes[j]]) + back;
    ShopRecordsConcat(front + [outcomes[j]], back, shop);
    ShopRecordsSnoc(front, outcomes[j], shop);
    ShopRecordsConcat(front, back, shop);
  }

  /**
   A failed fetch neither aborts the run nor leaves a trace: the batch is the
   one the catalog would give without that entry.
   */
  lemma FailedSourceSkipped(catalog: seq<Source>, responses: seq<Option<Download>>, date: string, j: nat)
    requires |responses| == |catalog| && j < |catalog|
    requires !Succeeded(responses[j])
    ensures Grouping(catalog, responses, date) == Grouping(Without(catalog, j), Without(responses, j), date)
  {
    var outcomes := Outcomes(catalog, responses, date);
    SkippedLeavesNoTrace(outcomes, j);
    assert Outcomes(Without(catalog, j), Without(responses, j), date) == Without(outcomes, j);
  }

  /** A shop has an entry exactly when one of its sources was fetched successfully. */
  lemma GroupingKeys(catalog: seq<Source>, responses: seq<Option<Download>>, date: string, shop: string)
    requires |responses| == |catalog|
    ensures shop in Grouping(catalog, responses, date)
      <==> exists j :: 0 <= j < |catalog| && Succeeded(responses[j]) && catalog[j].shop == shop
  {
    var outcomes := Outcomes(catalog, responses, date);
    if shop in Grouping(catalog, responses, date) {
      var j :| 0 <= j < |outcomes| && outcomes[j].Extracted? && outcomes[j].shop == shop;
      assert Succeeded(responses[j]) && catalog[j].shop == shop;
    }
    if exists j :: 0 <= j < |catalog| && Succeeded(responses[j]) && catalog[j].shop == shop {
      var j :| 0 <= j < |catalog| && Succeeded(responses[j]) && catalog[j].shop == shop;
      assert outcomes[j].Extracted? && outcomes[j].shop == shop;
    }
  }

  /** A successful fetch opens its shop's entry even when nothing on the page matched. */
  lemma SucceededOpensEntry(catalog: seq<Source>, responses: seq<Option<Download>>, date: string, j: nat)
    requires |responses| == |catalog| && j < |catalog|
    requires Succeeded(responses[j])
    ensures catalog[j].shop in Grouping(catalog, responses, date)
  {
    var outcomes := Outcomes(catalog, responses, date);
    assert outcomes[j].Extracted? && outcomes[j].shop == catalog[j].shop;
  }

  /** A run where every fetch failed builds an empty batch, which leaves the stored day as it was. */
  lemma AllFailedChangesNothing(catalog: seq<Source>, responses: seq<Option<Download>>, date: string,
                                store: Store, location: string)
    requires |responses| == |catalog|
    requires forall j :: 0 <= j < |responses| ==> !Succeeded(responses[j])
    ensures Grouping(catalog, responses, date) == map[]
    ensures Stored(store, location, Grouping(catalog, responses, date))[location] == Existing(store, location)
  {
    var outcomes := Outcomes(catalog, responses, date);
    assert forall j :: 0 <= j < |outcomes| ==> outcomes[j].Skipped?;
    assert FetchedShops(outcomes) == {};
    var existing := Existing(store, location);
    assert Merge(existing, map[]) == existing;
  }

  /** `getMaterial` in scrape.ts: group the configured sources, then merge into the JSON file. */
  method GetMaterialJson(responses: seq<Option<Download>>, date: string, files: Store, filePath: string, written: bool)
    returns (updated: Store)
    requires |responses| == |MaterialsConfig|
    ensures updated == if written then Stored(files, filePath, Grouping(MaterialsConfig, responses, date)) else files
  {
    var allMaterials := GroupByShop(MaterialsConfig, responses, date);
    updated := WriteToJson(files, allMaterials, filePath, written);
  }

  /** `getMaterial` in scrape.js: group the configured sources, then merge under today's KV key. */
  method GetMaterialKV(responses: seq<Option<Download>>, date: string, kv: Store, iso: string, stored: bool)
    returns (updated: Store)
    requires |responses| == |MaterialsConfig|
    ensures updated == if stored then Stored(kv, StorageKey(iso), Grouping(MaterialsConfig, responses, date)) else kv
  {
    var allMaterials := GroupByShop(MaterialsConfig, responses, date);
    updated := WriteToKV(kv, allMaterials, iso, stored);
  }

  lemma ConfigShape()
    ensures |MaterialsConfig| == 11
    ensures forall j :: 0 <= j < |MaterialsConfig| ==> MaterialsConfig[j].shop in {"Sagosa", "Mottesi", "NeoMat"}
  {
  }
}
