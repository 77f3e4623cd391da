/**
 The date-keyed store: the merge loop shared by `writeToJson` (scrape.ts) and
 `writeToKV` (scrape.js), the storage write around it, and the KV key
 `materials_YYYY-MM-DD`.

 A storage backend is a map from a location to the stored `MaterialsByShop`:
 for scrape.ts the location is the JSON file's path, for scrape.js the KV key.
 An absent location reads as the empty map, as `fs.existsSync` failing and
 `kv.get(key) || {}` both do.
 */
module DateStore {
  import opened Extract

  /** `MaterialsByShop`: each shop's records, in the order they were stored. */
  type MaterialsByShop = map<string, seq<Material>>

  type Store = map<string, MaterialsByShop>

  /** The merge restricted to the batch shops in `done`: append for a known shop, install for a new one. */
  function MergeShops(existing: MaterialsByShop, data: MaterialsByShop, done: set<string>): MaterialsByShop
    requires done <= data.Keys
  {
    map shop | shop in existing.Keys + done ::
      if shop in done then
        (if shop in existing then existing[shop] + data[shop] else data[shop])
      else existing[shop]
  }

  /** Reference definition of the merge: every shop of the batch merged in. */
  function Merge(existing: MaterialsByShop, data: MaterialsByShop): MaterialsByShop
  {
    MergeShops(existing, data, data.Keys)
  }

  /** The merge loop: `for (const shop in data)`, pushing onto or installing each entry. */
  method MergeInto(existing: MaterialsByShop, data: MaterialsByShop) returns (existingData: MaterialsByShop)
    ensures existingData == Merge(existing, data)
  {
    existingData := existing;
    var pending := data.Keys;
    assert existing == MergeShops(existing, data, {});
    while pending != {}
      invariant pending <= data.Keys
      invariant existingData == MergeShops(existing, data, data.Keys - pending)
      decreases pending
    {
      var shop :| shop in pending;
      MergeShopsStep(existing, data, data.Keys - pending, shop);
      if shop in existingData {
        existingData := existingData[shop := existingData[shop] + data[shop]];
      } else {
        existingData := existingData[shop := data[shop]];
      }
      assert data.Keys - (pending - {shop}) == (data.Keys - pending) + {shop};
      pending := pending - {shop};
    }
  }

  /** Merging one more batch shop updates just that shop's entry. */
  lemma MergeShopsStep(existing: MaterialsByShop, data: MaterialsByShop, done: set<string>, shop: string)
    requires done <= data.Keys && shop in data && shop !in done
    ensures var before := MergeShops(existing, data, done);
      MergeShops(existing, data, done + {shop})
        == before[shop := if shop in before then before[shop] + data[shop] else data[shop]]
  {
    var before := MergeShops(existing, data, done);
    var after := MergeShops(existing, data, done + {shop});
    var expected := before[shop := if shop in before then before[shop] + data[shop] else data[shop]];
    assert after.Keys == expected.Keys;
    MapEqual(after, expected);
  }

  lemma MapEqual<K, V>(m1: map<K, V>, m2: map<K, V>)
    requires m1.Keys == m2.Keys
    requires forall k :: k in m1 ==> m1[k] == m2[k]
    ensures m1 == m2
  {
  }

  /** Records held for `shop`, 0 when the shop has no entry. */
  function RecordCount(m: MaterialsByShop, shop: string): nat
  {
    if shop in m then |m[shop]| else 0
  }

  /** Append-only growth: every shop kept, its old records a prefix of its new ones. */
  predicate Extends(before: MaterialsByShop, after: MaterialsByShop)
  {
    forall shop :: shop in before ==> shop in after && before[shop] <= after[shop]
  }

  /** A shop present before and in the batch: old records first, then the batch, in order. */
  lemma MergeAppends(existing: MaterialsByShop, data: MaterialsByShop, shop: string)
    requires shop in existing && shop in data
    ensures shop in Merge(existing, data)
    ensures var r := Merge(existing, data)[shop];
      && |r| == |existing[shop]| + |data[shop]|
      && r[..|existing[shop]|] == existing[shop]
      && r[|existing[shop]|..] == data[shop]
  {
    var r := Merge(existing, data)[shop];
    assert r == existing[shop] + data[shop];
    assert r[..|existing[shop]|] == existing[shop];
    assert r[|existing[shop]|..] == data[shop];
  }

  /** A shop new to the store gets the batch's records, unchanged. */
  lemma MergeInstalls(existing: MaterialsByShop, data: MaterialsByShop, shop: string)
    requires shop !in existing && shop in data
    ensures shop in Merge(existing, data) && Merge(existing, data)[shop] == data[shop]
  {
  }

  /** Shops absent from the batch keep exactly what they had, and no shop appears from nowhere. */
  lemma MergeKeepsOthers(existing: MaterialsByShop, data: MaterialsByShop, shop: string)
    requires shop !in data
    ensures shop in Merge(existing, data) <==> shop in existing
    ensures shop in existing ==> Merge(existing, data)[shop] == existing[shop]
  {
  }

  lemma MergeExtends(existing: MaterialsByShop, data: MaterialsByShop)
    ensures Extends(existing, Merge(existing, data))
    ensures Merge(existing, data).Keys == existing.Keys + data.Keys
  {
    forall shop | shop in existing
      ensures shop in Merge(existing, data) && existing[shop] <= Merge(existing, data)[shop]
    {
      if shop in data {
        MergeAppends(existing, data, shop);
      }
    }
  }

  /** Nothing is deduplicated: counts add up. */
  lemma MergeCount(existing: MaterialsByShop, data: MaterialsByShop, shop: string)
    ensures RecordCount(Merge(existing, data), shop) == RecordCount(existing, shop) + RecordCount(data, shop)
  {
  }

  /** The same batch merged twice into a day holds it twice. */
  lemma MergeTwice(existing: MaterialsByShop, data: MaterialsByShop, shop: string)
    requires shop in data
    ensures RecordCount(Merge(Merge(existing, data), data), shop) == RecordCount(existing, shop) + 2 * |data[shop]|
    ensures shop !in existing ==> Merge(Merge(existing, data), data)[shop] == data[shop] + data[shop]
  {
    MergeCount(existing, data, shop);
    MergeCount(Merge(existing, data), data, shop);
  }

  /** The snapshot after several runs of one day, each merging its batch in turn. */
  function MergeRuns(existing: MaterialsByShop, batches: seq<MaterialsByShop>): MaterialsByShop
    decreases |batches|
  {
    if batches == [] then existing
    else MergeRuns(Merge(existing, batches[0]), batches[1..])
  }

  function BatchCount(batches: seq<MaterialsByShop>, shop: string): nat
    decreases |batches|
  {
    if batches == [] then 0 else RecordCount(batches[0], shop) + BatchCount(batches[1..], shop)
  }

  /** Any number of runs only appends, and each shop holds every run's records. */
  lemma {:induction false} MergeRunsAppendOnly(existing: MaterialsByShop, batches: seq<MaterialsByShop>, shop: string)
    ensures Extends(existing, MergeRuns(existing, batches))
    ensures RecordCount(MergeRuns(existing, batches), shop) == RecordCount(existing, shop) + BatchCount(batches, shop)
    decreases |batches|
  {
    if batches != [] {
      var next := Merge(existing, batches[0]);
      MergeExtends(existing, batches[0]);
      MergeCount(existing, batches[0], shop);
      MergeRunsAppendOnly(next, batches[1..], shop);
      ExtendsTransitive(existing, next, MergeRuns(next, batches[1..]));
    }
  }

  lemma ExtendsTransitive(a: MaterialsByShop, b: MaterialsByShop, c: MaterialsByShop)
    requires Extends(a, b) && Extends(b, c)
    ensures Extends(a, c)
  {
    forall shop | shop in a ensures shop in c && a[shop] <= c[shop] {
      assert a[shop] == b[shop][..|a[shop]|];
      assert b[shop] == c[shop][..|b[shop]|];
      assert a[shop] == c[shop][..|a[shop]|];
    }
  }

  /** What a location holds before the merge: the stored value, or `{}`. */
  function Existing(store: Store, location: string): MaterialsByShop
  {
    if location in store then store[location] else map[]
  }

  /** The store after a successful merge-and-write of `data` at `location`. */
  function Stored(store: Store, location: string, data: MaterialsByShop): Store
  {
    store[location := Merge(Existing(store, location), data)]
  }

  /**
   Read, merge, write back. `written` says whether the write went through; a
   failed write is only logged, so the store keeps its old value.
   */
  method Persist(store: Store, location: string, data: MaterialsByShop, written: bool) returns (updated: Store)
    ensures updated == if written then Stored(store, location, data) else store
    ensures forall other :: other in store && other != location ==> other in updated && updated[other] == store[other]
    ensures written ==> location in updated && Extends(Existing(store, location), updated[location])
  {
    var existingData: MaterialsByShop := map[];
    if location in store {
      existingData := store[location];
    }
    existingData := MergeInto(existingData, data);
    MergeExtends(Existing(store, location), data);
    if written {
      updated := store[location := existingData];
    } else {
      updated := store;
    }
  }

  /** Two runs on one day with the same batch: every batch shop holds it twice over. */
  lemma SameDayTwice(store: Store, location: string, data: MaterialsByShop, shop: string)
    requires shop in data
    ensures var twice := Stored(Stored(store, location, data), location, data);
      RecordCount(twice[location], shop) == RecordCount(Existing(store, location), shop) + 2 * |data[shop]|
  {
    MergeTwice(Existing(store, location), data, shop);
  }

  /** `toISOString().split('T')[0]`: everything before the first 'T'. */
  function DatePart(iso: string): (date: string)
    ensures date <= iso
    ensures 'T' !in date
    ensures |date| < |iso| ==> iso[|date|] == 'T'
  {
    if iso == [] || iso[0] == 'T' then [] else [iso[0]] + DatePart(iso[1..])
  }

  function StorageKey(iso: string): string
  {
    "materials_" + DatePart(iso)
  }

  /** For an ISO timestamp `YYYY-MM-DDTHH:mm:ss.sssZ` the key carries its first ten characters. */
  lemma StorageKeyOfTimestamp(iso: string)
    requires |iso| > 10 && iso[10] == 'T' && 'T' !in iso[..10]
    ensures StorageKey(iso) == "materials_" + iso[..10]
  {
    var date := DatePart(iso);
    assert date == iso[..10];
  }

  /** `2024-05-17T13:45:00.000Z` is stored under `materials_2024-05-17`. */
  lemma StorageKeyExample(iso: string)
    requires iso == "2024-05-17T13:45:00.000Z"
    ensures StorageKey(iso) == "materials_2024-05-17"
  {
    var date := "2024-05-17";
    assert iso == date + "T13:45:00.000Z";
    assert iso[..10] == date;
    assert forall k :: 0 <= k < |date| ==> date[k] != 'T';
    StorageKeyOfTimestamp(iso);
  }

  /** `writeToJson` (scrape.ts): the whole run lands in the one file at `filePath`. */
  method WriteToJson(files: Store, data: MaterialsByShop, filePath: string, written: bool) returns (updated: Store)
    ensures updated == if written then Stored(files, filePath, data) else files
  {
    updated := Persist(files, filePath, data, written);
  }

  /** `writeToKV` (scrape.js): the run lands under today's `materials_YYYY-MM-DD` key. */
  method WriteToKV(kv: Store, data: MaterialsByShop, iso: string, stored: bool) returns (updated: Store)
    ensures updated == if stored then Stored(kv, StorageKey(iso), data) else kv
    ensures forall key :: key in kv && key != StorageKey(iso) ==> key in updated && updated[key] == kv[key]
  {
    var key := StorageKey(iso);
    updated := Persist(kv, key, data, stored);
  }
}
