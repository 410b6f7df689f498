# fundamental-tracker-worker, modelled in Dafny

The worker is a scheduled job that keeps a `fundamentals` table up to date for
every ticker symbol that appears on a user dashboard. Each run:

- reads the stored dashboard layouts from `user_layouts`;
- collects the widget symbols, upper-cased and without repeats, in order of
  first occurrence;
- cuts that list into chunks of 50;
- asks the quote endpoint for each chunk's fundamentals and keeps only equities
  that carry a fundamental payload;
- upserts each kept payload into `fundamentals`, one row per symbol, stamped
  with the write time.

A failed fetch counts as an empty result for that chunk. A failed upsert is
rethrown and ends the run; writes made before it stay. `updateAllTickers`
catches that error, so the scheduled handler still answers with the success
response.

The model has one module per concern:

| file | module | models |
|---|---|---|
| `wrappers.dfy` | `Wrappers` | `Option` |
| `json.dfy` | `Json` | JSON values, objects as key-ordered entry lists with distinct keys, `?? null` |
| `fetch.dfy` | `Fetch` | `fetchTickersData` (fetch.js) |
| `fundamentals.dfy` | `Fundamentals` | the `fundamentals` table and `upsertFundamentalData` |
| `symbols.dfy` | `Symbols` | symbol collection in `updateAllTickers` |
| `chunking.dfy` | `Chunking` | the `slice(i, i + 50)` chunks |
| `seqs.dfy` | `Seqs` | generic sequence facts used by the proofs |
| `worker.dfy` | `Worker` | the chunk loop, the upsert loop, `updateAllTickers` and `scheduled` |

The code changes state step by step, so the model does too:

- The database handle is a class, `Fundamentals.Database`.
  - Its table is a `map` field. Its methods reassign the field.
  - `clock(k)` is the `unixepoch()` value the k-th write statement sees.
  - `accepts(k)` says whether the k-th write statement commits.
  - Both are indexed by a counter of write attempts, so every write can see a
    different time and can fail on its own.
- The collection, chunk and upsert loops are methods with loops. Each is proved
  against a specification function:
  - `Symbols.Collected` for the collection;
  - `Worker.Plan` for the upserts a run intends, in order;
  - `Worker.Execute` for the table and attempt count after carrying out a plan
    up to the first failed write;
  - `Worker.Run` for one whole run.
- The network is a function `Fetch.QuoteApi` from the `symbol` query parameter
  to a `Response`: it threw, a non-ok status, or an ok body.
- `JSON.parse` of a layout is a function `Symbols.Parser` from the layout text
  to a widget list. It returns None when the text does not parse to a list.
- A JavaScript object is a sequence of (key, value) pairs with distinct keys,
  so that `Object.entries` order is kept.

## Model

| member | source | states |
|---|---|---|
| Json.Coalesce | worker.js:35-50 | `payload.field ?? null`: a present field yields its value; a non-null result comes from the payload; an absent field yields null |
| Fetch.FetchTickersData | fetch.js:1-47 | No request and an empty result for an empty symbol list. Otherwise exactly one request, whose `symbol` parameter is the symbols joined by `,`. The result equals the filtered response, or is empty on any failure. The filter also drops a `__proto__` key, which the assignment at fetch.js:38 cannot add. |
| Fetch.Join | fetch.js:4 | `symbols.join(',')`: no symbols give the empty string, one symbol is sent as itself, and the first symbol always starts the parameter |
| Fetch.JoinSplit | fetch.js:4 | splitting the `symbol` parameter at commas gives back the requested symbols in order, when no symbol contains a comma |
| Fetch.Filter | fetch.js:20-41 | the result never has more entries than the response, and every result key is a response key |
| Fetch.FilterKeeps | fetch.js:22-38 | A response key is in the result iff its entry is present, is an `EQUITY` and has a fundamental payload, and the key is not `__proto__`. When it is, that key is paired with exactly that payload. |
| Fetch.FilterSound | fetch.js:22-38 | every result entry comes from a usable response entry with the same key and carries exactly its fundamental payload |
| Fetch.FilterAppend | fetch.js:20-41 | the filter keeps response order: filtering consecutive parts of a response and concatenating the results is filtering the whole |
| Fetch.FilterSingle | fetch.js:22-38 | one response entry is kept, as its key and fundamental payload, exactly when it is present, an `EQUITY` and has a fundamental payload, and its key is not `__proto__` |
| Fetch.ProtoKeyDropped | fetch.js:38 | an `EQUITY` entry with a fundamental payload, keyed `__proto__`, is not returned: `validData["__proto__"] = …` sets the result's prototype and adds no key |
| Fetch.FetchFailureIsEmpty | fetch.js:2-46 | an empty symbol list (line 2), a non-ok status (lines 14-17) and a thrown request (the catch at lines 43-46) all give an empty result |
| Fetch.EtfExcluded | fetch.js:28-31 | an `ETF` entry that carries a fundamental payload is dropped |
| Fetch.EquityWithoutFundamentalExcluded | fetch.js:33-36 | an equity without a fundamental payload is dropped |
| Fetch.UnrequestedKeyKept | fetch.js:22-38 | a usable response key that was never requested is still returned |
| Fundamentals.ToRow | worker.js:30 | the written row is stamped with the time of the write |
| Fundamentals.ToRowColumns | worker.js:33-51 | the written row has exactly the sixteen columns; each holds the payload's field, or null when the field is absent |
| Fundamentals.UpsertedRow | worker.js:6-31 | After an upsert the table has exactly one row for the symbol and no other new symbol. That row holds the payload's fields, null for absent ones, and the write time. Every other row is unchanged. |
| Fundamentals.UpsertTwice | worker.js:13-30 | upserting a symbol twice leaves exactly what the second upsert alone writes; nothing from the first payload survives |
| Fundamentals.Database.UpsertFundamentalData | worker.js:3-60 | One write statement is issued and counted. On success the table becomes the upserted table, at that statement's time. On failure the table is unchanged and `ok` is false, which is the rethrow. |
| Symbols.UpperChar | worker.js:76 | lower-case ASCII letters map to their upper-case letter; every other character is kept |
| Symbols.UpperCase | worker.js:76 | `toUpperCase` keeps the length and upper-cases each character on its own |
| Symbols.UpperCaseIdempotent | worker.js:76 | upper-casing an upper-cased symbol changes nothing |
| Symbols.WidgetStep | worker.js:75-76 | a widget throws exactly when it is null or its symbol is a truthy non-string; it adds a symbol exactly when its symbol is a non-empty string, and then adds it upper-cased |
| Symbols.RowSymbols | worker.js:71-81 | a row with a null or empty layout, or whose layout does not parse, adds nothing; otherwise it adds the symbols of its parsed widgets |
| Symbols.AddWidgetSymbols | worker.js:74-78 | the inner widget loop adds the row's symbols, in widget order and up to the first widget that throws, to the insertion-ordered set |
| Symbols.CollectSymbols | worker.js:68-84 | the collection loop over all rows yields exactly the ordered set of the upper-cased symbols of all rows |
| Symbols.InsertAllMembers | worker.js:68-84 | adding symbols one by one to a duplicate-free list keeps it duplicate-free, and its members are the old members and the added symbols |
| Symbols.DedupOrder | worker.js:84 | the collected list is in order of first occurrence |
| Symbols.CollectedIsOrderedSet | worker.js:68-84 | The collected list has no duplicates. Its members are exactly the symbols the rows contribute. It follows first-occurrence order. |
| Symbols.SkippedRowEmpty | worker.js:71-81 | a row with a null or empty layout, or one that does not parse, contributes no symbol |
| Symbols.SkippedRowIgnored | worker.js:71-81 | inserting such a row anywhere among the rows leaves the collected list unchanged |
| Symbols.WidgetSymbolsStopAtThrow | worker.js:72-81 | a widget that throws (null, or a truthy non-string symbol) ends its row; the row keeps the symbols of the widgets before it |
| Symbols.WidgetSymbolsComplete | worker.js:74-78 | every truthy string symbol before the first throwing widget is contributed, upper-cased |
| Symbols.ValidRowContributes | worker.js:70-78 | a valid row's truthy string symbol before any throwing widget is in the collected list, upper-cased, whatever the other rows are |
| Symbols.CaseVariantsCollapse | worker.js:76 | every collected symbol is upper-case, and no two collected symbols differ only in case |
| Symbols.AaplCollapses | worker.js:76 | a layout with `aapl` and `AAPL` yields the single symbol `AAPL` |
| Chunking.Slice | worker.js:91 | `slice(lo, hi)` clamps `hi` to the length and is empty past the end |
| Chunking.ChunksFrom | worker.js:90-91 | from offset `i`, the next chunk is `slice(i, i + 50)` and the rest start at `i + 50` |
| Chunking.ChunksConcat | worker.js:89-91 | concatenating the chunks gives back the symbol list exactly |
| Chunking.ChunksSized | worker.js:89-91 | every chunk is non-empty with at most 50 symbols, and all but the last have exactly 50 |
| Chunking.ChunksCount | worker.js:89-90 | there are ceil(n / 50) chunks |
| Chunking.ChunksAt | worker.js:90-91 | chunk k is `slice(50 k, 50 k + 50)` |
| Chunking.OneHundredTwenty | worker.js:89-91 | 120 symbols give chunks of 50, 50 and 20, in order |
| Worker.FailedChunkSkipped | worker.js:90-97 | a chunk whose fetch fails contributes no upserts; the chunks before and after it still contribute theirs |
| Worker.CommittedMeaning | worker.js:94-96 | the committed writes are a run of accepted statements, ended by a refused one unless all commit |
| Worker.CommittedExactly | worker.js:94-96 | conversely, such a run is exactly what the run commits |
| Worker.AppliedUntouched | worker.js:94-96 | a symbol no upsert names keeps its row, or stays absent |
| Worker.AppliedLastWrite | worker.js:94-96 | a symbol's row is the one written by its last upsert, stamped with that write's time |
| Worker.AppliedKeys | worker.js:94-96 | the table's symbols afterwards are those before plus those upserted; nothing is deleted |
| Worker.ExecuteCons | worker.js:94-96 | when the next write commits, the run continues with the rest from the updated table |
| Worker.ExecuteAppend | worker.js:90-97 | when one chunk's writes all commit, the rest of the run starts from the table they leave, one attempt later per write |
| Worker.ExecuteAborted | worker.js:56-58 | once a write fails, nothing after it is attempted and the run does not complete |
| Worker.ExecuteComplete | worker.js:94-96 | when nothing fails, every planned upsert is applied in order, each attempted exactly once |
| Worker.UpsertAll | worker.js:94-96 | The per-chunk loop upserts the fetch result's pairs in order. It stops at the first failed write. It reports whether every write committed. |
| Worker.UpsertInChunks | worker.js:87-98 | The chunk loop leaves the table and attempt count that carrying out the whole plan gives, up to the first failed write. The chunks requested are a prefix of all chunks: all of them when nothing fails, and otherwise exactly those up to and including the chunk whose upsert failed. |
| Worker.RequestStep | worker.js:90-96 | After one more chunk is requested, with all earlier upserts committed, the requested chunks' upserts commit exactly when the new chunk's do. Then each was attempted once. |
| Worker.PlanSnoc | worker.js:90-96 | the upserts of one more chunk follow those of the earlier chunks, in the order of its fetch result |
| Worker.UpdateAllTickers | worker.js:62-104 | A failed read of the layouts changes nothing and fetches nothing. Otherwise the run collects, chunks, fetches and upserts as planned, up to the first failed write. It fetches all chunks when nothing fails; otherwise it fetches exactly the chunks up to and including the one whose upsert failed. |
| Worker.ExecuteUntouched | worker.js:94-103 | a symbol that no committed write names keeps its row, even when the run aborted |
| Worker.ExecuteLastWrite | worker.js:94-96 | after a run with no failed write, each upserted symbol holds the payload of its last upsert, stamped with that write's time |
| Worker.ExecuteKeys | worker.js:94-96 | after a run, the stored symbols are those before plus those of the committed writes |
| Worker.FirstWriteFails | worker.js:94-103 | when the first write fails, the table is unchanged and exactly one write was attempted |
| Worker.NoSymbolsNoWrites | worker.js:87 | with no collected symbol there are no chunks, no fetches and no writes |
| Worker.Scheduled | worker.js:111-120 | the scheduled handler always answers with status 200 and has the effect of one run |

## Left out

- The HTTP request, the URL and its `searchParams` encoding, and `response.json()`.
  These are foreign I/O. The endpoint is the `QuoteApi` parameter, and a failure
  anywhere in them is its `Threw` outcome.
- The SQL text, the D1 `prepare`/`bind`/`run`/`all` driver and the read of
  `user_layouts`. The table is a map. The read is a given sequence of rows, or
  None when it fails.
- `unixepoch()`. It is the `clock` of the database handle.
- `JSON.parse`. It is the `Parser` parameter.
- JavaScript's rule that integer-like object keys iterate before string keys.
  Response order is a plain sequence.
- All `console` logging.
- `async`/`await`. Every call is sequential.
- The `fetch` handler that answers 204, and the `Response` objects.
  `Worker.Scheduled` returns only the status code.
- Symbols.UpperCase: upper-cases ASCII letters only. Unicode case mapping,
  including mappings that change the length, is not modelled.
- Fetch.FetchTickersData: a `symbols` argument that is null or undefined is not
  modelled. The caller always passes a list.
- Fetch.FilterKeeps: a truthy `fundamental` that is not an object is modelled
  as an object payload. An `assetMainType` that is not a string is modelled as
  absent, which the filter treats the same way.
- `scheduled` has a catch that answers 500 (worker.js:116-118). It never runs,
  because `updateAllTickers` catches every error itself (worker.js:101-103).
  `Worker.Scheduled` therefore always answers 200.
