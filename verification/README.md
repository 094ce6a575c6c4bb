# Breakout scanner: offline cache, batch scan and ticker parsing

A Dafny model of the three small pieces of sequential logic at the heart of
the breakout scanner, with proofs of what each promises.

- **Service worker** (`service_worker.dfy`, module `ServiceWorker`): the offline
  cache policy of `frontend/public/sw.js`. The cache storage is an ordered list
  of named caches, each mapping a URL (path and query) to a stored response.
  `install` opens `breakout-app-v1` and adds the nine application-shell assets
  all-or-nothing, `activate` deletes every other cache, and `fetch` answers
  `/api/` requests network-first (copying each network answer into the cache
  without waiting for the write) and everything else cache-first (never
  storing). Each handler is a pure function from the old storage to the new
  storage and the answer; the network is an oracle from request to
  `Resolved(response)` or `Rejected`, and whether the storage accepts a write
  is a boolean parameter.
- **Client view state** (`app.dfy`, module `App`): the rules of
  `frontend/src/App.jsx`. These are the card tone and the signal-badge tone,
  `fetchScan` as a transition of the view state, and `scanSP`. `scanSP` reads
  the S&P 500 list, cuts it into chunks of 40, requests the chunks strictly in
  order, records progress after each chunk and concatenates their `results`.
  It stops at the first thrown error. Server replies are oracles keyed by the
  `tickers` query string.
- **Backend scan** (`backend.dfy`, module `Backend`): the ticker parsing of
  `scan` in `backend/main.py`, its per-symbol record loop and the fixed S&P 500
  starter list. The download is an oracle per symbol: it raises, gives no
  frame, or gives a frame with some number of rows and an indicator
  computation that succeeds or raises.
- **End to end** (`end_to_end.dfy`, module `EndToEnd`): the client and the
  server together. Every chunk's query string parses back on the server to
  that chunk. So a batch scan of valid symbols against the server shows one
  row per symbol, in order, and the S&P 500 list needs one request.
- Shared pieces: `wrappers.dfy` (`Option`, `Result`), `seqs.dfy` (`Flatten`),
  and `strings.dfy`. `strings.dfy` holds JavaScript `startsWith`, `includes`,
  `join` and number display, and Python `split`, `strip` and `upper`.

Behaviour of the code worth noting:

- `scanSP` aborts the whole batch at the first chunk whose request or JSON
  parse throws; it does not skip the chunk and carry on.
- Nothing detects a stale, superseded `scanSP` invocation.
- The 600 ms pause also follows the last chunk. Since it only delays, it is a
  no-op here.
- Progress is not cleared when the batch ends; the last value stays.
- `caches.open` creates the application cache even when `addAll` then fails.
  So a failed install leaves an empty (or unchanged) `breakout-app-v1` behind.

## Model

| member | source | states |
|---|---|---|
| ServiceWorker.OnFetch | frontend/public/sw.js:18-31 | The fetch handler. A non-API request never changes the storage. No cache other than the application cache ever changes, and distinct names stay distinct. An API request the network answers gets that answer. The answer is a network error only when the network itself failed. The case lemmas below pin down each branch |
| ServiceWorker.ApiClassification | frontend/public/sw.js:19-20 | A request is an API request exactly when its path has `/api/` as its first five characters; `/api` and `/apix/q` are not API requests, `/api/scan` is |
| ServiceWorker.Install | frontend/public/sw.js:8-10 | Install succeeds exactly when every asset fetch resolves with a status in 200..299 other than 206 and the batched cache write succeeds (it can fail, for example over quota). On success the application cache gains exactly the asset entries; on failure its entries are unchanged. The cache exists afterwards, other caches are untouched, and names stay distinct |
| ServiceWorker.OnInstall | frontend/public/sw.js:8-10 | The install handler on the nine listed assets: it succeeds exactly when every asset is fetched and accepted and the batched cache write succeeds. The application cache exists afterwards, its entries are unchanged after a failure, and other caches are untouched |
| ServiceWorker.AssetEntries | frontend/public/sw.js:9 | What `addAll` writes maps every asset URL to the response fetched for it, and holds no other key |
| ServiceWorker.InstallStoresAssets | frontend/public/sw.js:2-10 | After a successful install, each of the listed assets is in the application cache with the response fetched at install time |
| ServiceWorker.InstallKeepsOtherEntries | frontend/public/sw.js:9 | Install changes no entry of the application cache other than the asset URLs |
| ServiceWorker.OnActivate | frontend/public/sw.js:12-16 | After activation every remaining cache is named `breakout-app-v1`. That cache, if it existed, is kept with the same entries. With distinct names at most one cache remains |
| ServiceWorker.Open | frontend/public/sw.js:9 | `caches.open` yields storage where the named cache exists with its previous entries (none if new); every other name finds what it found before; distinct names stay distinct |
| ServiceWorker.Put | frontend/public/sw.js:24 | A write merges the entries into the named cache only, keeping the number, order and names of all caches |
| ServiceWorker.FindPut | frontend/public/sw.js:24 | After a write, looking up the written cache (when it exists) gives its old entries merged with the new ones; every other lookup is unchanged |
| ServiceWorker.Find | frontend/public/sw.js:14 | The lookup by name finds nothing exactly when no cache has that name, and otherwise returns the entries of a cache with that name |
| ServiceWorker.FindUnique | frontend/public/sw.js:14 | With distinct names, looking up a cache's name finds that very cache |
| ServiceWorker.MatchUrl | frontend/public/sw.js:26 | The all-caches lookup finds nothing exactly when no cache holds the URL. Otherwise it returns the response stored for it in the first cache, in creation order, that holds the URL |
| ServiceWorker.MatchAll | frontend/public/sw.js:26 | `caches.match(request)`: a non-GET request matches nothing. A GET request finds nothing exactly when no cache holds its URL, and otherwise gets the entry of the first cache in creation order that holds it |
| ServiceWorker.ApiResolved | frontend/public/sw.js:21-25 | API request, network resolves: the answer is exactly the network response, whatever its status. The application cache maps the URL to it when `put` accepts (GET, not 206) and the write succeeds, and is otherwise unchanged. No other cache changes |
| ServiceWorker.ApiRejected | frontend/public/sw.js:26 | API request, network rejects: the storage is unchanged and the answer is the cached entry for the request, or no response |
| ServiceWorker.WriteFailureInvisible | frontend/public/sw.js:23-25 | Whether the cache write succeeds never changes the answer returned |
| ServiceWorker.StaticHit | frontend/public/sw.js:30 | Non-API request with a cached entry: that entry is returned, the storage is unchanged, and the outcome is the same whatever the network does |
| ServiceWorker.StaticMiss | frontend/public/sw.js:30 | Non-API request without a cached entry: the network's answer (or a network error) is returned and nothing is stored |
| ServiceWorker.MatchSingleCache | frontend/public/sw.js:26 | When only the application cache can remain, looking in all caches is looking in the application cache |
| ServiceWorker.MatchAfterActivate | frontend/public/sw.js:12-16 | After activation, looking in all caches equals the single-cache lookup in the application cache as it was before activation |
| ServiceWorker.AssetsAreStatic | frontend/public/sw.js:2-6 | No asset path starts with `/api/`, so assets always take the cache-first branch |
| ServiceWorker.ShellServedOffline | frontend/public/sw.js:8-30 | After a successful install and activation, every asset is answered from the cache with the response fetched at install time, whatever the network does later, and nothing is stored |
| App.CardTone | frontend/src/App.jsx:13-18 | The card is bullish exactly when some signal contains `BREAKOUT`; otherwise watch exactly when some signal contains `OVERSOLD`; otherwise bearish exactly when both trends are `down`; otherwise neutral |
| App.AnyIncludesIffOccurs | frontend/src/App.jsx:14-15 | The left-to-right search over the signals finds a word exactly when it occurs at some position of some signal |
| App.BadgeTone | frontend/src/App.jsx:40 | A badge is bullish exactly when its signal contains `BREAKOUT`, bearish exactly when it does not but contains `SELL`, and never neutral |
| App.FetchScan | frontend/src/App.jsx:53-62 | Loading ends whatever happens. A thrown request or parse error, a non-ok status (shown as `Error: HTTP <status>`) or a `null` body leaves the rows unchanged and sets the error. An ok reply sets the rows to `results`, or to none when absent, and clears the error |
| App.FetchScanIsOneBatch | frontend/src/App.jsx:59 | For an ok reply whose body is a non-null JSON value, the single scan takes the same rows as a batch of one chunk that got that reply |
| App.Chunks | frontend/src/App.jsx:70-72 | Concatenating the chunks gives back the list exactly, in order. Every chunk has 1 to 40 elements, all but the last exactly 40, and there are ceil(N/40) of them |
| App.ChunkIsSlice | frontend/src/App.jsx:72 | Chunk `i` is the slice of the list from `40 i` to `min(40 i + 40, N)` |
| App.ChunkSizesExample | frontend/src/App.jsx:70-72 | 85 symbols give chunk sizes 40, 40 and 5; an empty list gives no chunks |
| App.FirstFailure | frontend/src/App.jsx:73-82 | The first failing chunk: every earlier reply was read, and the one at that index (if any) threw |
| App.ScanChunks | frontend/src/App.jsx:73-80 | The loop requests the chunks' comma-joined query strings in order, up to and including the first reply that throws and none after. It records progress (i+1, number of chunks) after each successful chunk. When no reply throws it collects the in-order concatenation of each reply's `results` (nothing for a reply without them) |
| App.Symbols | frontend/src/App.jsx:68-69 | The symbol list is read exactly when the reply has a parsed JSON object with a `symbols` field. Its status is not checked. A thrown request or parse error is passed on, and a `null` body or missing list gives the property-access error |
| App.ScanSP | frontend/src/App.jsx:64-84 | Loading ends whatever happens. If the symbol list cannot be read, nothing is requested, the rows stay and the error is set with progress 0 of 1. Otherwise the requests and progress are those of the chunk loop and progress ends at the last value set. Success replaces the rows with the concatenated results and leaves no error; the first thrown error keeps the old rows and shows that error |
| Backend.ParseTickers | backend/main.py:95 | Parsing yields at most one symbol more than there are commas |
| Backend.ParsePiece | backend/main.py:95 | A piece without commas parses to nothing when it is all whitespace, and otherwise to exactly its stripped, upper-cased form. With ParseConcat this fixes the parse of every ticker string: the non-blank pieces, normalised, in order |
| Backend.ParsedSymbolsValid | backend/main.py:95 | Every parsed symbol is non-empty, has no surrounding whitespace, no lower-case letter and no comma |
| Backend.ParseConcat | backend/main.py:95 | Parsing keeps input order: the symbols of `a,b` are those of `a` followed by those of `b` |
| Backend.ParseJoinRoundTrip | backend/main.py:95 | Parsing the comma-join of valid symbols gives back exactly those symbols |
| Backend.ParseIdempotent | backend/main.py:95 | Re-parsing the comma-join of a parsed list gives the same list |
| Backend.ParseEmpty | backend/main.py:95 | An empty ticker string parses to no symbols |
| Backend.NormalizeValid | backend/main.py:95 | A non-blank piece without commas strips and upper-cases to a valid symbol |
| Backend.RecordFor | backend/main.py:97-107 | Each record carries the symbol it was made for |
| Backend.RecordForClassifies | backend/main.py:98-107 | A record is an error record exactly when the download raised, gave no frame or an empty frame, or a step on the non-empty frame (`pd.to_datetime` or the indicator computation) raised. No data gives `No data` and an exception gives its message. A frame processed without error gives a record without indicator fields when it has fewer than 60 rows, and one with the computed fields otherwise |
| Backend.ScanSymbols | backend/main.py:96-108 | One record per symbol, in order, each carrying its symbol and made from that symbol's download alone |
| Backend.Scan | backend/main.py:93-108 | The scan returns exactly one result per parsed symbol, in order, and each result's ticker is that symbol |
| Backend.ScanRecordsFailures | backend/main.py:98-107 | A failed download gives that symbol an error record (`No data`, or the exception's message) without aborting the scan |
| Backend.ScanConcat | backend/main.py:96-108 | Scanning `a,b` is scanning `a` followed by scanning `b`, so one symbol's failure never disturbs another's record |
| Backend.GetSp500 | backend/main.py:111-118 | The starter list has 20 pairwise distinct symbols |
| Backend.Sp500Valid | backend/main.py:111-114 | Every starter symbol is already in parsed form |
| EndToEnd.ToRow | backend/main.py:101-107 | The client row for a record keeps its ticker. It has signals exactly when the record carries indicator fields, and they are the record's signals |
| EndToEnd.ServerReply | backend/main.py:93-108 | The server's scan answer has an ok status, is read by the client without error, and its rows carry the parsed symbols of the query, in order |
| EndToEnd.ScanTickers | backend/main.py:96-108 | The rows of a scan carry exactly the parsed symbols, in order |
| EndToEnd.ErrorRowsAreNeutral | frontend/src/App.jsx:13-18 | A record for a failed download or a short frame shows a neutral card |
| EndToEnd.BreakoutRowsAreBullish | backend/main.py:71-72 | A record whose signals include the breakout label shows a bullish card |
| EndToEnd.SignalBadgeTones | backend/main.py:71-81 | Of the labels the server emits, the breakout label gets a bullish badge and the other four a watch badge; none is bearish |
| EndToEnd.Sp500IsOneChunk | backend/main.py:111-114 | The 20 starter symbols form a single chunk of the batch scan |
| EndToEnd.ChunkScanTickers | frontend/src/App.jsx:74 | The comma-join the client sends for a chunk of valid symbols is parsed by the server back into that chunk, and the server's rows carry the chunk's symbols in order |
| EndToEnd.BatchScanShowsEverySymbol | frontend/src/App.jsx:64-84 | Against a reachable server, no chunk reply fails, and the rows shown are, ticker for ticker, the symbols that were chunked |
| EndToEnd.Sp500ScanShowsEverySymbol | backend/main.py:116-118 | The S&P 500 reply is read as the starter list, one chunk is requested, and every starter symbol gets a row, in order |
| Strings.Split | backend/main.py:95 | Splitting gives one piece more than there are separators, and no piece contains the separator |
| Strings.JoinSplit | backend/main.py:95 | Joining the pieces of a split gives back the original string |
| Strings.SplitJoin | frontend/src/App.jsx:74 | Splitting the join of a non-empty list of separator-free pieces gives back the pieces |
| Strings.SplitAppend | backend/main.py:95 | Splitting `a + sep + b` gives the pieces of `a` followed by those of `b` |
| Strings.Strip | backend/main.py:95 | Stripping gives a contiguous slice of the input with no whitespace at either end, and everything it drops before and after that slice is whitespace. It leaves trimmed input unchanged and is empty exactly when the input is all whitespace |
| Strings.Upper | backend/main.py:95 | Upper-casing keeps the length, maps each character on its own, leaves no lower-case letter and changes nothing already upper-case |
| Strings.UpperKeeps | backend/main.py:95 | Upper-casing neither adds nor removes surrounding whitespace or commas |
| Strings.IncludesIffOccurs | frontend/src/App.jsx:14 | `includes` finds a substring exactly when it occurs at some index |
| Strings.ReadShowNat | frontend/src/App.jsx:57 | The decimal numeral shown for a status reads back as that status |
| Strings.ShowNat | frontend/src/App.jsx:57 | The numeral is a non-empty string of digits without a leading zero |
| Seqs.FlattenAppend | frontend/src/App.jsx:77 | Concatenating parts distributes over joining the lists of parts, which is why pushing each chunk's results in turn gives their concatenation |

## Left out

- `compute_indicators` (`backend/main.py`:16-91): pandas and floating-point numerics. Its outcome is an oracle: computed indicator fields (signals and two trend strings), or an exception. The only part modelled is that fewer than 60 rows give no fields. The numeric card fields (`fmt`, prices, RSI and so on) are left out with it.
- `yf.download`, `fetch` and `res.json()` are network and foreign calls. They are oracles: a download raises, gives no frame, or gives a frame of some length; a client request throws, or gives a status and a body whose parse throws or gives a JSON value.
- The text of a JavaScript TypeError from reading a property of `null` (or `.length` of a missing `symbols`) is the engine's. The model uses one fixed string for it, and oracle error strings stand for `String(e)`.
- Backend.Scan: the `data.index = pd.to_datetime(...)` step and `compute_indicators` form one oracle per non-empty frame. It either raises, which gives an error record for a frame of any length, or gives the indicator fields. Those fields are used only when the frame has at least 60 rows.
- The 600 ms pause between chunks is timing only.
- Overlapping `scanSP`/`fetchScan` invocations and promise interleavings are concurrency, and are left out. The fire-and-forget cache write is modelled as finished before the next event, with its failure as the `storageOk` flag.
- EndToEnd.BatchScanShowsEverySymbol: assumes the server always answers 200 with every record. FastAPI refuses to render NaN or infinite floats, which `compute_indicators` can produce, and answers 500 instead. The client's `res.json()` would then throw and the whole batch would abort. The float fields are not modelled.
- ServiceWorker.Install: `addAll` also rejects a list that names the same request twice. The model does not check for that; the nine listed assets are distinct, so the handler is unaffected.
- App.ChunkReplies: the server's replies are a function of the query string. So two chunks with the same query string get the same reply, and a server that fails a query once and answers it on a retry is not expressible. The code never retries a chunk, and no property stated here depends on replies to equal queries differing.
- App.ScanSP: intermediate renders are not modelled. Only the final view, the list of requests and the progress values set are stated; `loading` is true throughout the run.
- WHATWG URL parsing, `encodeURIComponent` and query decoding are left out. Requests carry a path and a decoded query string, and the server is handed the decoded `tickers` string.
- Cache keys: entries are keyed by URL (path and query) alone, and only GET requests are matched or stored, so the request method never needs to be part of the key. `Vary` headers, request options, opaque responses and the URL-scheme checks of `cache.put` are left out.
- Strings.Strip and Strings.Upper: Python's Unicode whitespace and case mappings are reduced to ASCII whitespace (space, tab to carriage return, U+001C..U+001F) and ASCII letters.
- Card and badge markup, styles, `tone.toUpperCase()` labels, the `useEffect` auto-scan on mount, FastAPI/CORS wiring and the `/api/health` style endpoints are presentation or plumbing.
- Dafny integers are unbounded. No count or status here comes near a JavaScript or Python integer limit, so nothing wraps.
