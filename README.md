# Material scraper: scrape-and-normalise pipeline in Dafny

This project models the scraping core of the material-price scraper.
That core is written twice in near-identical form: `app/api/scrape.ts`
stores its results in a JSON file, and `app/api/scrape.js` stores them in a
Vercel KV store. One run does three things:

1. For each entry of the fixed source catalog (`MATERIALS_CONFIG`: eleven
   shop/URL/material triples for three shops), it fetches the listing page.
   If the fetch succeeded it extracts material records (`extractMaterials`).
2. It groups the records of the successful sources by shop (`getMaterial`).
3. It merges the batch into the stored snapshot by appending, never
   overwriting (`writeToJson` / `writeToKV`). In the KV variant the snapshot
   lives under the key `materials_YYYY-MM-DD`.

The logic both files share is modelled once. The two entry points differ
in where they write, and in one error path: scrape.ts reads the existing
file outside its `try` (`app/api/scrape.ts:83-86`), so a read that throws
ends the run, while scrape.js reads the KV store inside its `try`
(`app/api/scrape.js:64-69`), so a failed read is logged and nothing is
stored.

Modules, leaf first:

- `Text` (text.dfy): the three JavaScript string operations the extractor
  uses. `trim` is exact over the ECMAScript WhiteSpace and LineTerminator
  code points. `toLowerCase` covers ASCII and Latin-1 letters. `includes`
  is proved equal to the usual "occurs at some offset" definition.
- `Extract` (extract.dfy): `extractMaterials`. A parsed page is four lists
  of element texts in document order: titles, prices, discounts and stock
  labels. `ExtractMaterials` is the imperative loop. It is proved equal to
  `Extraction`, which builds one record per matching title position, with
  every field read at that same position.
- `DateStore` (store.dfy): the merge loop (`MergeInto`, proved equal to the
  map `Merge`), the read-merge-write around it (`Persist`), and the KV key
  (`DatePart`, `StorageKey`). A storage backend is a map from location to
  snapshot: the file path for scrape.ts, the KV key for scrape.js.
- `Pipeline` (pipeline.dfy): the catalog, the grouping loop
  (`GroupByShop`, proved equal to `Grouping`) and the two entry points
  `GetMaterialJson` and `GetMaterialKV`.

External inputs become parameters:
- each fetch result is `None` or the body text paired with the page parsed
  from it;
- the record date (`toLocaleDateString('es-AR')`) is a string;
- the clock's ISO timestamp is a string;
- whether the final write went through is a boolean.

Behaviour of the code that is easy to misread:

- Stock: the code stores `'Sin stock'` for both phrases. A label reading
  `'Fuera de stock'` is therefore stored as `'Sin stock'`
  (`OutOfStockReportedAsSinStock`).
- Skipped fetches: `if (html)` skips an empty body as well as `null`
  (`Succeeded`).
- scrape.ts is not date-keyed. It always writes one `materials.json` file, so
  runs on different days accumulate in one snapshot. Only scrape.js keys by
  date.
- A failed write is caught and logged in both files, and the run still
  returns normally. The model treats a write as all-or-nothing: `Persist`
  with `written == false` leaves the store as it was (see "Left out" for
  what this does not capture).
- The KV key takes the UTC date from `toISOString`. The record `date` is the
  local `es-AR` date. They can differ near midnight, so they are independent
  parameters.

## Model

| member | source | states |
|---|---|---|
| `Text.Lower` | app/api/scrape.ts:51 | `toLowerCase` on one character: the result is never an upper-case letter, a capital becomes the character 32 code points above it, its small letter, any other character is unchanged |
| `Text.ToLower` | app/api/scrape.ts:51 | `toLowerCase` on a title, character by character: same length, no upper-case letter left, every capital replaced by the character 32 code points above it (its small letter), every other character unchanged |
| `Text.TrimShape` | app/api/scrape.ts:51-55 | `trim` keeps exactly the slice between a leading and a trailing all-whitespace run; the slice neither starts nor ends with whitespace |
| `Text.TrimIdempotent` | app/api/scrape.ts:51 | trimming a trimmed text changes nothing |
| `Text.ContainsIff` | app/api/scrape.ts:52 | `includes` holds iff the search string occurs at some offset |
| `Text.UpperNeverFound` | app/api/scrape.ts:51-52 | only the title is lowered: a material name containing an upper-case letter is never found in a lowered, trimmed title |
| `Text.TrimKeepsPhrase` | app/api/scrape.ts:55-56 | trimming the stock label cannot change whether a phrase with non-blank ends occurs in it |
| `Extract.RecordAtFields` | app/api/scrape.ts:51-71 | the pushed record literal (`RecordAt`) for title `i`: shop, material and date are the arguments, the title is lowered then trimmed and contains the material name iff the title matches, price and discount are the trimmed texts at index `i`, or `''` past the end of their lists (`TextAt`, the `.eq(index).text()` read), stock is `'Sin stock'` iff label `i` exists and contains either phrase, otherwise `''` (`StockOf` on the untrimmed label) |
| `Extract.OutOfStockReportedAsSinStock` | app/api/scrape.ts:69 | the label `'Fuera de stock'` is stored as `'Sin stock'`; an empty label gives `''` |
| `Extract.ExtractMaterials` | app/api/scrape.ts:47-76 | the push loop returns exactly `Extraction`: record k is built from the k-th matching title position |
| `Extract.ExtractionStep` | app/api/scrape.ts:50-71 | looking at one more title appends exactly its record when it matches, and nothing otherwise |
| `Extract.MatchIndicesSpec` | app/api/scrape.js:34-36 | the matched positions are strictly increasing (document order) and are exactly the positions whose lowered, trimmed title contains the material name |
| `Extract.PositionsCount` | app/api/scrape.ts:50 | the number of positions collected equals the number of set flags |
| `Extract.ExtractionCount` | app/api/scrape.ts:50-52 | the number of records equals the number of matching titles |
| `Extract.ExtractionFields` | app/api/scrape.ts:53-70 | record k comes from title position i, which lies after the positions of records 0..k-1. Its shop, material and date are the arguments. Its title is the lowered, trimmed text and contains the material name. Price and discount are the trimmed texts at index i, or `''` past the end of their lists (`TextAt`). Stock is `'Sin stock'` iff label i exists and contains either phrase, otherwise `''` (`StockOf` on the untrimmed label) |
| `Extract.ExtractionCovers` | app/api/scrape.js:34-55 | every matching title yields a record built from its own position |
| `Extract.ExtractionEmpty` | app/api/scrape.ts:48-75 | the result is empty iff no title matches |
| `Extract.UpperCaseNameMatchesNothing` | app/api/scrape.js:35-36 | a material name with an upper-case letter extracts nothing from any page |
| `Extract.CementExample` | app/api/scrape.ts:47-76 | titles " Cemento x50kg " and "Hierro 8mm" with prices "$5000" and "$8000", filter "cemento": exactly one record, with title "cemento x50kg", price "$5000" and empty discount and stock |
| `DateStore.MergeInto` | app/api/scrape.ts:89-97 | the `for…in` merge loop returns exactly `Merge` |
| `DateStore.MergeShopsStep` | app/api/scrape.ts:90-96 | merging one more batch shop changes only that shop's entry: appended to if present, installed if not |
| `DateStore.MergeAppends` | app/api/scrape.ts:90-92 | shop held before and in the batch: length n+m; the first n records are the old ones, the last m the batch's, in order |
| `DateStore.MergeInstalls` | app/api/scrape.ts:93-96 | shop new to the snapshot: its entry is the batch's records, unchanged |
| `DateStore.MergeKeepsOthers` | app/api/scrape.js:72-78 | a shop not in the batch has an entry afterwards iff it had one before, with the same records |
| `DateStore.MergeExtends` | app/api/scrape.js:72-74 | the merge only appends: every old shop is kept with its old records as a prefix; the keys are the union |
| `DateStore.MergeCount` | app/api/scrape.js:72-78 | nothing is deduplicated: a shop's record count after the merge is old count plus batch count |
| `DateStore.MergeTwice` | app/api/scrape.js:72-78 | merging the same batch twice adds twice its records; from no entry the result is `batch + batch` |
| `DateStore.MergeRunsAppendOnly` | app/api/scrape.js:69-81 | after any number of same-day runs the snapshot extends the original, and each shop's count is the original count plus the sum of the batches' counts |
| `DateStore.Persist` | app/api/scrape.ts:80-105 | reads the location (empty if absent), merges, and writes back only if the write succeeds; other locations are untouched; the location's old snapshot is extended |
| `DateStore.SameDayTwice` | app/api/scrape.js:69-81 | two runs writing the same batch under one key: each batch shop holds twice the batch's records on top of what it had |
| `DateStore.DatePart` | app/api/scrape.js:65 | `split('T')[0]` is a prefix of the timestamp, contains no `'T'`, and is followed by a `'T'` unless it is the whole string |
| `DateStore.StorageKeyOfTimestamp` | app/api/scrape.js:65-66 | for a timestamp whose first `'T'` is at offset 10, the key is `"materials_"` plus the first ten characters |
| `DateStore.StorageKeyExample` | app/api/scrape.js:65-66 | `2024-05-17T13:45:00.000Z` gives `materials_2024-05-17` |
| `DateStore.WriteToJson` | app/api/scrape.ts:79-106 | the merged snapshot lands at `filePath` when the write succeeds; otherwise the files are unchanged |
| `DateStore.WriteToKV` | app/api/scrape.js:63-86 | the merged snapshot lands under `StorageKey(iso)` when storing succeeds; other dates' keys are untouched |
| `Pipeline.GroupByShop` | app/api/scrape.ts:110-124 | the grouping loop returns exactly `Grouping`: one entry per successfully fetched shop, holding its sources' extractions in catalog order |
| `Pipeline.FoldIsGroup` | app/api/scrape.ts:112-124 | the entry-by-entry grouping the loop performs equals, after any prefix of the catalog, the per-shop reference grouping of that prefix |
| `Pipeline.GroupStep` | app/api/scrape.js:94-103 | one more catalog entry: a success appends its records to its shop's entry and opens the entry if missing; a skipped entry changes nothing |
| `Pipeline.GroupingKeys` | app/api/scrape.ts:112-124 | a shop has an entry iff at least one of its sources was fetched successfully, where success is `Succeeded`, the `if (html)` test: false for `null` and for an empty body |
| `Pipeline.SucceededOpensEntry` | app/api/scrape.ts:119-121 | a successful fetch (`Succeeded`: a non-empty body) creates its shop's entry even when nothing on the page matched |
| `Pipeline.ShopRecordsOfUnfetched` | app/api/scrape.js:99-102 | a shop without a successful fetch collects no records |
| `Pipeline.ShopRecordsConcat` | app/api/scrape.js:102 | a shop's records over a split catalog are the records of the first part followed by those of the second |
| `Pipeline.SkippedLeavesNoTrace` | app/api/scrape.ts:113-114 | removing a skipped entry does not change the grouping |
| `Pipeline.FailedSourceSkipped` | app/api/scrape.js:92-104 | a failed fetch (`Succeeded` false: `null` or an empty body) neither aborts the run nor leaves a trace: the batch equals that of the catalog without the entry |
| `Pipeline.AllFailedChangesNothing` | app/api/scrape.ts:109-130 | if every fetch fails the batch is empty and the stored snapshot keeps its contents |
| `Pipeline.GetMaterialJson` | app/api/scrape.ts:109-132 | a scrape.ts run leaves the file store as `Stored(files, filePath, Grouping(...))`, or unchanged if the write failed |
| `Pipeline.GetMaterialKV` | app/api/scrape.js:89-109 | a scrape.js run leaves the KV store as `Stored(kv, StorageKey(iso), Grouping(...))`, or unchanged if storing failed |
| `Pipeline.ConfigShape` | app/api/scrape.ts:21-33 | the catalog has eleven entries, all for the shops Sagosa, Mottesi and NeoMat |

## Left out

- `fetchHtml` does network I/O. Each fetch result is an input. The model does not say why a fetch failed or what was logged.
- `cheerio.load` and CSS selector matching are left out. A page is given as its four element-text lists. How selector unions order elements, and what `.text()` concatenates, is not modelled.
- Filesystem access (`existsSync`, `readFileSync`, `writeFileSync`), `JSON.parse`/`stringify` and `kv.get`/`kv.set` are storage I/O. A store is a map from location to snapshot. A read that throws is not modelled: in scrape.ts a malformed `materials.json` would throw out of `writeToJson` and reach the 500 response.
- `DateStore.Persist`: a write is all-or-nothing. `fs.writeFileSync` truncates `materials.json` before writing, so a write that fails partway can leave an empty or partial file; the error is only logged, and the next run's `JSON.parse` then throws. `kv.set` can also take effect on the server and still reject. The model covers neither case: a failed write leaves the store unchanged.
- `new Date()`, `toLocaleDateString('es-AR', …)` and `toISOString()` depend on the clock and the locale. They become string parameters. The source reads the clock once per matching record; the model uses one date per run.
- `Text.Lower`: `toLowerCase` is modelled for ASCII and Latin-1 capitals only (U+00C0–U+00DE except U+00D7). Every other character is left unchanged, including Latin Extended capitals such as U+0100, U+0152 and U+0178, other scripts, and multi-character mappings such as U+0130.
- The HTTP handlers (`handler`, `GET`) and their 200/500 responses are left out.
- The UI is left out: `app/components/MaterialList.tsx`, `app/components/Chart.tsx` and `app/page.tsx`.
- Concurrency is left out. Overlapping runs and the lost update when two runs read the same snapshot are not modelled. Each run is one sequential pass.
- Reference aliasing is left out. `existingData[shop] = data[shop]` shares the batch's array, but the snapshot is serialised right after, so the model uses values.
- Object-key edge cases are left out. Shop names that collide with object-prototype members (for example `constructor`) would make `existingData[shop]` truthy in JavaScript; the model treats keys as plain map keys.
- `discount || ''` is the identity on strings, so the model stores the trimmed discount text directly.
