/** The client's view-state rules: the colour ("tone") of a result card and
    of a signal badge, the single scan behind the Scan button (`fetchScan`),
    and the batched S&P 500 scan (`scanSP`) that splits the symbol list into
    chunks of 40, requests them strictly one after another, reports progress
    and concatenates what comes back.

    Network replies are oracles: `fetch` either throws or yields a status and
    a body, and `res.json()` either throws or yields a JSON value. The 600 ms
    pause between chunks only delays and is not modelled. */
module App {
  import opened Wrappers
  import opened Seqs
  import opened Strings

  // ---------------------------------------------------------------------------
  // Result rows and their tones
  // ---------------------------------------------------------------------------

  /** The fields of one result row that the client's rules read. A record
      for a failed download has no signals and no trends. */
  datatype Row = Row(ticker: string, signals: Option<seq<string>>,
                     trendShort: Option<string>, trendLong: Option<string>)

  datatype Tone = Bullish | Watch | Bearish | Neutral

  /** JavaScript `xs.some(s => s.includes(word))`, left to right. */
  predicate AnyIncludes(xs: seq<string>, word: string)
    decreases |xs|
  {
    |xs| > 0 && (Includes(xs[0], word) || AnyIncludes(xs[1..], word))
  }

  /** Some signal of the row has `word` in it somewhere. */
  ghost predicate HasSignal(row: Row, word: string)
  {
    row.signals.Some? &&
    exists i, k :: 0 <= i < |row.signals.value| && OccursAt(row.signals.value[i], word, k)
  }

  /** The search over the signals finds `word` exactly when some signal
      contains it. */
  lemma {:induction false} AnyIncludesIffOccurs(xs: seq<string>, word: string)
    ensures AnyIncludes(xs, word) <==> exists i, k :: 0 <= i < |xs| && OccursAt(xs[i], word, k)
    decreases |xs|
  {
    if |xs| > 0 {
      IncludesIffOccurs(xs[0], word);
      AnyIncludesIffOccurs(xs[1..], word);
      if exists i, k :: 0 <= i < |xs| && OccursAt(xs[i], word, k) {
        var i, k :| 0 <= i < |xs| && OccursAt(xs[i], word, k);
        if i > 0 {
          assert OccursAt(xs[1..][i - 1], word, k);
        }
      }
      if AnyIncludes(xs[1..], word) {
        var i, k :| 0 <= i < |xs[1..]| && OccursAt(xs[1..][i], word, k);
        assert OccursAt(xs[i + 1], word, k);
      }
    }
  }

  /** `row.signals?.some(s => s.includes(word))`: false when there are no
      signals. */
  predicate SignalsInclude(row: Row, word: string)
  {
    row.signals.Some? && AnyIncludes(row.signals.value, word)
  }

  lemma SignalsIncludeIff(row: Row, word: string)
    ensures SignalsInclude(row, word) <==> HasSignal(row, word)
  {
    if row.signals.Some? {
      AnyIncludesIffOccurs(row.signals.value, word);
    }
  }

  /** The card's tone, by priority: a breakout signal, then an oversold
      signal, then both trends down. */
  function CardTone(row: Row): (t: Tone)
    ensures t == Bullish <==> HasSignal(row, "BREAKOUT")
    ensures t == Watch <==> !HasSignal(row, "BREAKOUT") && HasSignal(row, "OVERSOLD")
    ensures t == Bearish <==>
              && !HasSignal(row, "BREAKOUT") && !HasSignal(row, "OVERSOLD")
              && row.trendShort == Some("down") && row.trendLong == Some("down")
    ensures t == Neutral <==>
              && !HasSignal(row, "BREAKOUT") && !HasSignal(row, "OVERSOLD")
              && !(row.trendShort == Some("down") && row.trendLong == Some("down"))
  {
    SignalsIncludeIff(row, "BREAKOUT");
    SignalsIncludeIff(row, "OVERSOLD");
    if SignalsInclude(row, "BREAKOUT") then Bullish
    else if SignalsInclude(row, "OVERSOLD") then Watch
    else if row.trendShort == Some("down") && row.trendLong == Some("down") then Bearish
    else Neutral
  }

  /** The tone of one signal's badge: breakout signals are bullish, sell
      signals bearish, everything else a watch; never neutral. */
  function BadgeTone(signal: string): (t: Tone)
    ensures t != Neutral
    ensures t == Bullish <==> exists k :: OccursAt(signal, "BREAKOUT", k)
    ensures t == Bearish <==>
              (!exists k :: OccursAt(signal, "BREAKOUT", k)) && exists k :: OccursAt(signal, "SELL", k)
  {
    IncludesIffOccurs(signal, "BREAKOUT");
    IncludesIffOccurs(signal, "SELL");
    if Includes(signal, "BREAKOUT") then Bullish
    else if Includes(signal, "SELL") then Bearish
    else Watch
  }

  // ---------------------------------------------------------------------------
  // Replies
  // ---------------------------------------------------------------------------

  /** A parsed JSON body. `Value` is any non-null value; `results` and
      `symbols` are its properties of those names, `None` when absent (or
      null: `x || []` and `x?.results` treat both alike). */
  datatype Json = Null | Value(results: Option<seq<Row>>, symbols: Option<seq<string>>)

  /** What `res.json()` settles to. */
  datatype Body = Parsed(json: Json) | ParseThrew(error: string)

  /** What `fetch(url)` settles to: a thrown network error, or an HTTP
      response with its status and body. */
  datatype Reply = Threw(error: string) | Http(status: nat, body: Body)

  /** The text of the TypeError thrown by reading a property of `null`
      (the exact wording is the JavaScript engine's). */
  const NullAccess := "TypeError: Cannot read properties of null"

  /** `String(new Error(`HTTP ${status}`))`. */
  function HttpError(status: nat): string
  {
    "Error: HTTP " + ShowNat(status)
  }

  predicate IsOk(status: nat)
  {
    200 <= status <= 299
  }

  /** `await fetch(..)` then `await res.json()`, with no status check. */
  function ReadJson(reply: Reply): Result<Json>
  {
    match reply
    case Threw(e) => Failure(e)
    case Http(_, Parsed(j)) => Success(j)
    case Http(_, ParseThrew(e)) => Failure(e)
  }

  /** The same, but throwing `HTTP <status>` first on a non-`ok` status. */
  function ReadOkJson(reply: Reply): Result<Json>
  {
    match reply
    case Http(status, _) =>
      if IsOk(status) then ReadJson(reply) else Failure(HttpError(status))
    case Threw(e) => Failure(e)
  }

  // ---------------------------------------------------------------------------
  // The view state and the single scan
  // ---------------------------------------------------------------------------

  datatype Progress = Progress(done: nat, total: nat)

  /** The component's state: the ticker input, the rows shown, the loading
      flag, the error text (`""` for none) and the batch progress. */
  datatype View = View(tickers: string, rows: seq<Row>, loading: bool, err: string,
                       progress: Option<Progress>)

  /** The rows `fetchScan` takes from a successful reply, or the error it
      shows: reading `results` of a JSON `null` throws. */
  function ScanRows(reply: Reply): Result<seq<Row>>
  {
    match ReadOkJson(reply)
    case Failure(e) => Failure(e)
    case Success(Null) => Failure(NullAccess)
    case Success(Value(results, _)) => Success(results.GetOr([]))
  }

  /** `fetchScan`: one request for the typed tickers. The error is cleared
      at the start; on success the rows are replaced, on failure they stay
      and the error is shown; loading ends either way. `scan` is the reply
      the server gives for a `tickers` query. */
  function FetchScan(v: View, scan: string -> Reply): (w: View)
    ensures !w.loading
    ensures w.tickers == v.tickers && w.progress == v.progress
    ensures match scan(v.tickers)
            case Threw(e) => w.rows == v.rows && w.err == e
            case Http(status, body) =>
              if !IsOk(status) then w.rows == v.rows && w.err == "Error: HTTP " + ShowNat(status)
              else match body
                case ParseThrew(e) => w.rows == v.rows && w.err == e
                case Parsed(Null) => w.rows == v.rows && w.err == NullAccess
                case Parsed(Value(results, _)) => w.rows == results.GetOr([]) && w.err == ""
  {
    match ScanRows(scan(v.tickers))
    case Success(rows) => v.(rows := rows, loading := false, err := "")
    case Failure(e) => v.(loading := false, err := e)
  }

  /** For an `ok` reply with a JSON object, the single scan takes the same
      rows as a batch of one chunk that got the same reply. */
  lemma FetchScanIsOneBatch(reply: Reply)
    requires reply.Http? && IsOk(reply.status) && reply.body.Parsed? && reply.body.json.Value?
    ensures ScanRows(reply) == Success(Flatten(Contributions([ReadJson(reply)])))
  {
    var j := reply.body.json;
    assert ReadOkJson(reply) == ReadJson(reply) == Success(j);
    var parts := Contributions([ReadJson(reply)]);
    assert parts == [Contribution(j)];
    assert Flatten(parts) == parts[0] + Flatten(parts[1..]);
    assert parts[1..] == [];
    assert Flatten<Row>([]) == [];
    assert Flatten(parts) == Contribution(j);
    assert Contribution(j) == j.results.GetOr([]);
    assert ScanRows(reply) == Success(j.results.GetOr([]));
  }

  // ---------------------------------------------------------------------------
  // The batched scan
  // ---------------------------------------------------------------------------

  const BatchSize := 40

  function Min(a: int, b: int): int
  {
    if a <= b then a else b
  }

  /** `for (i = 0; i < xs.length; i += 40) chunks.push(xs.slice(i, i + 40))`:
      consecutive slices of 40 elements, the last one possibly shorter, as
      many as 40 goes into the length rounded up. */
  function Chunks<T>(xs: seq<T>): (chunks: seq<seq<T>>)
    ensures Flatten(chunks) == xs
    ensures forall i :: 0 <= i < |chunks| ==> 0 < |chunks[i]| <= BatchSize
    ensures forall i :: 0 <= i < |chunks| - 1 ==> |chunks[i]| == BatchSize
    ensures |chunks| == (|xs| + BatchSize - 1) / BatchSize
    decreases |xs|
  {
    if |xs| == 0 then []
    else if |xs| <= BatchSize then
      assert Flatten([xs]) == xs + Flatten([xs][1..]);
      [xs]
    else
      var rest := Chunks(xs[BatchSize..]);
      assert xs == xs[..BatchSize] + xs[BatchSize..];
      assert ([xs[..BatchSize]] + rest)[1..] == rest;
      [xs[..BatchSize]] + rest
  }

  /** Chunk `i` is the slice the loop takes at offset `i * 40`. */
  lemma {:induction false} ChunkIsSlice<T>(xs: seq<T>, i: nat)
    requires i < |Chunks(xs)|
    ensures i * BatchSize < |xs|
    ensures Chunks(xs)[i] == xs[i * BatchSize..Min(i * BatchSize + BatchSize, |xs|)]
    decreases |xs|
  {
    if i > 0 {
      ChunksUnfold(xs);
      ChunkIsSlice(xs[BatchSize..], i - 1);
      SliceAfterBatch(xs, i);
    } else if |xs| > BatchSize {
      ChunksUnfold(xs);
    }
  }

  /** Past the first 40 elements, the chunks are the first 40 followed by
      the chunks of the rest. */
  lemma ChunksUnfold<T>(xs: seq<T>)
    requires |xs| > BatchSize
    ensures Chunks(xs) == [xs[..BatchSize]] + Chunks(xs[BatchSize..])
  {
  }

  /** Slice `i - 1` of what follows the first batch is slice `i` of the whole. */
  lemma SliceAfterBatch<T>(xs: seq<T>, i: nat)
    requires 0 < i && BatchSize < |xs| && (i - 1) * BatchSize < |xs| - BatchSize
    ensures var lo := (i - 1) * BatchSize;
            xs[BatchSize..][lo..Min(lo + BatchSize, |xs| - BatchSize)] ==
              xs[i * BatchSize..Min(i * BatchSize + BatchSize, |xs|)]
  {
    var lo := (i - 1) * BatchSize;
    assert lo + BatchSize == i * BatchSize;
  }

  /** 85 symbols make three chunks of 40, 40 and 5; none make none. */
  lemma ChunkSizesExample<T>(xs: seq<T>)
    requires |xs| == 85
    ensures |Chunks(xs)| == 3
    ensures |Chunks(xs)[0]| == 40 && |Chunks(xs)[1]| == 40 && |Chunks(xs)[2]| == 5
    ensures Chunks<T>([]) == []
  {
    var tail := xs[BatchSize..];
    assert Chunks(xs) == [xs[..BatchSize]] + Chunks(tail);
    assert Chunks(tail) == [tail[..BatchSize]] + Chunks(tail[BatchSize..]);
    assert Chunks(tail[BatchSize..]) == [tail[BatchSize..]];
  }

  /** The query string for one chunk, `chunk.join(',')`. */
  function Query(chunk: seq<string>): string
  {
    Join(chunk, ',')
  }

  /** What one chunk's parsed reply adds: its `results`, if it has any. */
  function Contribution(j: Json): seq<Row>
  {
    if j.Value? && j.results.Some? then j.results.value else []
  }

  /** The replies read for the chunks, in order. */
  function ChunkReplies(chunks: seq<seq<string>>, scan: string -> Reply): (rs: seq<Result<Json>>)
    ensures |rs| == |chunks|
    ensures forall i :: 0 <= i < |chunks| ==> rs[i] == ReadJson(scan(Query(chunks[i])))
  {
    seq(|chunks|, i requires 0 <= i < |chunks| => ReadJson(scan(Query(chunks[i]))))
  }

  /** Index of the first failed reply, or the number of replies when none
      failed. */
  function FirstFailure(rs: seq<Result<Json>>): (k: nat)
    ensures k <= |rs|
    ensures forall i :: 0 <= i < k ==> rs[i].Success?
    ensures k < |rs| ==> rs[k].Failure?
    decreases |rs|
  {
    if |rs| == 0 || rs[0].Failure? then 0 else 1 + FirstFailure(rs[1..])
  }

  /** The rows contributed by successful replies, chunk by chunk. */
  function Contributions(rs: seq<Result<Json>>): (parts: seq<seq<Row>>)
    ensures |parts| == |rs|
  {
    seq(|rs|, i requires 0 <= i < |rs| => if rs[i].Success? then Contribution(rs[i].value) else [])
  }

  /** The symbols of the S&P 500 reply, or the error that stops the scan:
      destructuring `null` and reading `.length` of a missing list throw. */
  function Symbols(sp500: Reply): (r: Result<seq<string>>)
    ensures r.Success? <==>
              sp500.Http? && sp500.body.Parsed? && sp500.body.json.Value? && sp500.body.json.symbols.Some?
    ensures r.Success? ==> r.value == sp500.body.json.symbols.value
    ensures sp500.Threw? ==> r == Failure(sp500.error)
    ensures sp500.Http? && sp500.body.ParseThrew? ==> r == Failure(sp500.body.error)
    ensures sp500.Http? && sp500.body.Parsed? && !(sp500.body.json.Value? && sp500.body.json.symbols.Some?) ==>
              r == Failure(NullAccess)
  {
    match ReadJson(sp500)
    case Failure(e) => Failure(e)
    case Success(Value(_, Some(symbols))) => Success(symbols)
    case Success(_) => Failure(NullAccess)
  }

  /** The first `n` chunks were requested, in order, by their query strings. */
  predicate Requested(requests: seq<string>, chunks: seq<seq<string>>, n: nat)
    requires n <= |chunks|
  {
    |requests| == n && forall j :: 0 <= j < n ==> requests[j] == Query(chunks[j])
  }

  /** Progress was reported after each of the first `n` of `total` chunks,
      counting up by one. */
  predicate Reported(log: seq<Progress>, n: nat, total: nat)
  {
    |log| == n && forall j :: 0 <= j < n ==> log[j] == Progress(j + 1, total)
  }

  /** The outcome of the chunk loop: the rows collected, the query strings
      requested, the progress values set, and the error that ended it early
      (`None` when every chunk was read). */
  datatype BatchRun = BatchRun(rows: seq<Row>, requests: seq<string>, progressLog: seq<Progress>,
                               failure: Option<string>)

  /** The chunk loop of `scanSP`: each chunk is requested and read in turn;
      the first reply that throws stops the loop before any later request. */
  method ScanChunks(chunks: seq<seq<string>>, scan: string -> Reply) returns (run: BatchRun)
    ensures var rs := ChunkReplies(chunks, scan);
            var k := FirstFailure(rs);
            && Requested(run.requests, chunks, Min(k + 1, |chunks|))
            && Reported(run.progressLog, k, |chunks|)
            && (run.failure.None? <==> k == |chunks|)
            && (k < |chunks| ==> run.failure == Some(rs[k].error))
            && (k == |chunks| ==> run.rows == Flatten(Contributions(rs)))
  {
    ghost var rs := ChunkReplies(chunks, scan);
    var out: seq<Row> := [];
    var requests: seq<string> := [];
    var log: seq<Progress> := [];
    var i := 0;
    while i < |chunks|
      invariant 0 <= i <= |chunks|
      invariant forall j :: 0 <= j < i ==> rs[j].Success?
      invariant Requested(requests, chunks, i)
      invariant Reported(log, i, |chunks|)
      invariant out == Flatten(Contributions(rs)[..i])
    {
      var q := Query(chunks[i]);
      requests := requests + [q];
      var reply := ReadJson(scan(q));
      assert reply == rs[i];
      if reply.Failure? {
        FirstFailureAt(rs, i);
        assert Requested(requests, chunks, i + 1);
        return BatchRun(out, requests, log, Some(reply.error));
      }
      ContributionsSnoc(rs, i);
      out := out + Contribution(reply.value);
      log := log + [Progress(i + 1, |chunks|)];
      i := i + 1;
    }
    FirstFailureNone(rs);
    assert Contributions(rs)[..i] == Contributions(rs);
    return BatchRun(out, requests, log, None);
  }

  /** Reading one more successful reply appends its results to the rows
      collected so far. */
  lemma ContributionsSnoc(rs: seq<Result<Json>>, i: nat)
    requires i < |rs| && rs[i].Success?
    ensures Flatten(Contributions(rs)[..i + 1]) == Flatten(Contributions(rs)[..i]) + Contribution(rs[i].value)
  {
    FlattenSnoc(Contributions(rs)[..i], Contribution(rs[i].value));
    assert Contributions(rs)[..i + 1] == Contributions(rs)[..i] + [Contribution(rs[i].value)];
  }

  /** One run of `scanSP`: the final view, the query strings requested in
      order, and every progress value set after the initial one. */
  datatype ScanRun = ScanRun(view: View, requests: seq<string>, progressLog: seq<Progress>)

  /** `scanSP`: fetch the symbol list, then scan its chunks of 40 one after
      another. The error is cleared and progress set to 0 of 1 at the start.
      The first thrown error ends the run: later chunks are not requested,
      the rows stay as they were and the error is shown. Otherwise the rows
      become the concatenated results. Loading ends either way, and the last
      progress value stays. */
  method ScanSP(v: View, sp500: Reply, scan: string -> Reply) returns (run: ScanRun)
    ensures !run.view.loading && run.view.tickers == v.tickers
    ensures Symbols(sp500).Failure? ==>
              run == ScanRun(v.(loading := false, err := Symbols(sp500).error,
                                progress := Some(Progress(0, 1))), [], [])
    ensures Symbols(sp500).Success? ==>
              var chunks := Chunks(Symbols(sp500).value);
              var rs := ChunkReplies(chunks, scan);
              var k := FirstFailure(rs);
              && Requested(run.requests, chunks, Min(k + 1, |chunks|))
              && Reported(run.progressLog, k, |chunks|)
              && run.view.progress == Some(if k == 0 then Progress(0, 1) else Progress(k, |chunks|))
              && (k == |chunks| ==> run.view.rows == Flatten(Contributions(rs)) && run.view.err == "")
              && (k < |chunks| ==> run.view.rows == v.rows && run.view.err == rs[k].error)
  {
    var symbols := Symbols(sp500);
    if symbols.Failure? {
      return ScanRun(v.(loading := false, err := symbols.error, progress := Some(Progress(0, 1))), [], []);
    }
    var chunks := Chunks(symbols.value);
    var batch := ScanChunks(chunks, scan);
    var log := batch.progressLog;
    var progress := if |log| == 0 then Progress(0, 1) else log[|log| - 1];
    var view := match batch.failure
      case None => v.(rows := batch.rows, loading := false, err := "", progress := Some(progress))
      case Some(e) => v.(loading := false, err := e, progress := Some(progress));
    return ScanRun(view, batch.requests, log);
  }

  /** A failure right after a run of successes is the first failure. */
  lemma {:induction false} FirstFailureAt(rs: seq<Result<Json>>, i: nat)
    requires i < |rs| && rs[i].Failure?
    requires forall j :: 0 <= j < i ==> rs[j].Success?
    ensures FirstFailure(rs) == i
    decreases i
  {
    if i > 0 {
      FirstFailureAt(rs[1..], i - 1);
    }
  }

  lemma {:induction false} FirstFailureNone(rs: seq<Result<Json>>)
    requires forall j :: 0 <= j < |rs| ==> rs[j].Success?
    ensures FirstFailure(rs) == |rs|
    decreases |rs|
  {
    if |rs| > 0 {
      FirstFailureNone(rs[1..]);
    }
  }
}
