/** How the client and the server fit together: the rows the client shows
    are the records the server's scan returns, the query string the batch
    scan builds for each chunk parses back to that chunk, and so a batch scan
    of valid symbols against the server shows one row per symbol, in order. */
module EndToEnd {
  import opened Wrappers
  import opened Seqs
  import opened Strings
  import opened Backend
  import opened App

  /** A server record as the client reads it: the indicator fields when
      there are any; an error record or a short frame has neither signals
      nor trends. */
  function ToRow(r: Record): (row: Row)
    ensures row.ticker == r.ticker
    ensures row.signals.Some? <==> r.Record? && r.fields.Some?
    ensures row.signals.Some? ==> row.signals.value == r.fields.value.signals
  {
    match r
    case Record(t, Some(f)) => Row(t, Some(f.signals), Some(f.trendShort), Some(f.trendLong))
    case Record(t, None) => Row(t, None, None, None)
    case ErrorRecord(t, _) => Row(t, None, None, None)
  }

  function ToRows(rs: seq<Record>): (rows: seq<Row>)
    ensures |rows| == |rs|
    ensures forall i :: 0 <= i < |rs| ==> rows[i] == ToRow(rs[i])
  {
    seq(|rs|, i requires 0 <= i < |rs| => ToRow(rs[i]))
  }

  function Tickers(rows: seq<Row>): (ts: seq<string>)
    ensures |ts| == |rows|
    ensures forall i :: 0 <= i < |rows| ==> ts[i] == rows[i].ticker
  {
    seq(|rows|, i requires 0 <= i < |rows| => rows[i].ticker)
  }

  /** The server's answer to `GET /api/scan?tickers=q`: status 200 and
      `{"results": [...]}`. */
  function ServerReply(q: string, download: string -> Download): (r: Reply)
    ensures r.Http? && IsOk(r.status)
    ensures ReadJson(r).Success?
    ensures Tickers(Contribution(ReadJson(r).value)) == ParseTickers(q)
  {
    ScanTickers(q, download);
    Http(200, Parsed(Value(Some(ToRows(Scan(q, download))), None)))
  }

  /** The rows of a scan carry the parsed symbols, in order. */
  lemma ScanTickers(q: string, download: string -> Download)
    ensures Tickers(ToRows(Scan(q, download))) == ParseTickers(q)
  {
    var ts := Tickers(ToRows(Scan(q, download)));
    assert |ts| == |ParseTickers(q)|;
    forall i | 0 <= i < |ts| ensures ts[i] == ParseTickers(q)[i] {
      assert ts[i] == Scan(q, download)[i].ticker;
    }
  }

  /** The client's reply oracle is the server, reachable, with the given
      downloads. */
  ghost predicate IsServer(scan: string -> Reply, download: string -> Download)
  {
    forall q :: scan(q) == ServerReply(q, download)
  }

  /** The server's answer to `GET /api/sp500`: `{"symbols": [...]}`. */
  function Sp500Reply(): Reply
  {
    Http(200, Parsed(Value(None, Some(GetSp500()))))
  }

  /** A record for a failed download shows a neutral card. */
  lemma ErrorRowsAreNeutral(r: Record)
    requires r.ErrorRecord? || r.fields.None?
    ensures CardTone(ToRow(r)) == Neutral
  {
  }

  /** A record whose signals include the breakout label shows a bullish card. */
  lemma BreakoutRowsAreBullish(t: string, f: Indicators, i: nat)
    requires i < |f.signals| && f.signals[i] == BreakoutSignal
    ensures CardTone(ToRow(Record(t, Some(f)))) == Bullish
  {
    var row := ToRow(Record(t, Some(f)));
    assert OccursAt(row.signals.value[i], "BREAKOUT", 0);
  }

  /** The breakout label gets a bullish badge. */
  lemma BreakoutBadge()
    ensures BadgeTone(BreakoutSignal) == Bullish
  {
    assert BreakoutSignal[..8] == "BREAKOUT";
  }

  /** A label without a `K` is not a breakout label, and one without an `E`
      or without two adjacent `L`s is not a sell label, so its badge is a
      watch. */
  lemma WatchBadge(signal: string)
    requires forall p :: 0 <= p < |signal| ==> signal[p] != 'K'
    requires || (forall p :: 0 <= p < |signal| ==> signal[p] != 'E')
             || (forall p :: 0 <= p < |signal| - 1 ==> !(signal[p] == 'L' && signal[p + 1] == 'L'))
    ensures BadgeTone(signal) == Watch
  {
    NotIncludesMissingChar(signal, "BREAKOUT", 4);
    if forall p :: 0 <= p < |signal| ==> signal[p] != 'E' {
      NotIncludesMissingChar(signal, "SELL", 1);
    } else {
      NotIncludesMissingPair(signal, "SELL", 2);
    }
  }

  /** Of the labels the server emits, only the breakout label gets a bullish
      badge and none a bearish one: no label contains `SELL`. */
  lemma SignalBadgeTones()
    ensures BadgeTone(BreakoutSignal) == Bullish
    ensures BadgeTone(OversoldSignal) == Watch
    ensures BadgeTone(OverboughtSignal) == Watch
    ensures BadgeTone(MacdSignal) == Watch
    ensures BadgeTone(GoldenCrossSignal) == Watch
  {
    BreakoutBadge();
    OversoldBadge();
    OverboughtBadge();
    MacdBadge();
    GoldenCrossBadge();
  }


  lemma OversoldBadge()
    ensures BadgeTone(OversoldSignal) == Watch
  {
    WatchBadge(OversoldSignal);
  }

  lemma OverboughtBadge()
    ensures BadgeTone(OverboughtSignal) == Watch
  {
    WatchBadge(OverboughtSignal);
  }

  lemma MacdBadge()
    ensures BadgeTone(MacdSignal) == Watch
  {
    WatchBadge(MacdSignal);
  }

  lemma GoldenCrossBadge()
    ensures BadgeTone(GoldenCrossSignal) == Watch
  {
    WatchBadge(GoldenCrossSignal);
  }

  /** The starter list fits in a single chunk. */
  lemma Sp500IsOneChunk()
    ensures Chunks(GetSp500()) == [GetSp500()]
  {
    var c := Chunks(GetSp500());
    assert |c| == 1;
    assert Flatten(c) == c[0] + Flatten(c[1..]);
  }

  /** Every chunk of valid symbols holds only valid symbols. */
  lemma ChunkValid(symbols: seq<string>, i: nat)
    requires forall j :: 0 <= j < |symbols| ==> ValidSymbol(symbols[j])
    requires i < |Chunks(symbols)|
    ensures forall j :: 0 <= j < |Chunks(symbols)[i]| ==> ValidSymbol(Chunks(symbols)[i][j])
  {
    var chunk := Chunks(symbols)[i];
    ChunkIsSlice(symbols, i);
    var lo := i * BatchSize;
    forall j | 0 <= j < |chunk| ensures ValidSymbol(chunk[j]) {
      assert chunk[j] == symbols[lo + j];
    }
  }

  /** The query string the client builds for a chunk of valid symbols is
      parsed back by the server into that chunk, so the server's rows carry
      the chunk's symbols, in order. */
  lemma ChunkScanTickers(chunk: seq<string>, download: string -> Download)
    requires forall j :: 0 <= j < |chunk| ==> ValidSymbol(chunk[j])
    ensures ParseTickers(Query(chunk)) == chunk
    ensures Tickers(ToRows(Scan(Query(chunk), download))) == chunk
  {
    ParseJoinRoundTrip(chunk);
  }

  /** The client reads the server's reply without error and takes its rows. */
  lemma ServerReplyRead(q: string, download: string -> Download)
    ensures ReadJson(ServerReply(q, download)).Success?
    ensures Contribution(ReadJson(ServerReply(q, download)).value) == ToRows(Scan(q, download))
  {
  }

  lemma {:induction false} TickersFlatten(parts: seq<seq<Row>>)
    ensures Tickers(Flatten(parts)) == Flatten(seq(|parts|, i requires 0 <= i < |parts| => Tickers(parts[i])))
    decreases |parts|
  {
    if |parts| > 0 {
      TickersFlatten(parts[1..]);
      var whole := seq(|parts|, i requires 0 <= i < |parts| => Tickers(parts[i]));
      assert whole[1..] == seq(|parts[1..]|, i requires 0 <= i < |parts[1..]| => Tickers(parts[1..][i]));
      assert Tickers(parts[0] + Flatten(parts[1..])) == Tickers(parts[0]) + Tickers(Flatten(parts[1..]));
    }
  }

  /** Against the server, chunk `i`'s reply is read and contributes one row
      per symbol of the chunk. */
  lemma ChunkContribution(chunks: seq<seq<string>>, scan: string -> Reply, download: string -> Download, i: nat)
    requires IsServer(scan, download)
    requires i < |chunks|
    requires forall j :: 0 <= j < |chunks[i]| ==> ValidSymbol(chunks[i][j])
    ensures var rs := ChunkReplies(chunks, scan);
            rs[i].Success? && Tickers(Contributions(rs)[i]) == chunks[i]
  {
    ServerReplyRead(Query(chunks[i]), download);
    ChunkScanTickers(chunks[i], download);
  }

  /** Against the server, no chunk reply fails and the rows shown are, ticker
      for ticker, the symbols that were chunked. */
  lemma BatchScanShowsEverySymbol(symbols: seq<string>, scan: string -> Reply, download: string -> Download)
    requires IsServer(scan, download)
    requires forall j :: 0 <= j < |symbols| ==> ValidSymbol(symbols[j])
    ensures var rs := ChunkReplies(Chunks(symbols), scan);
            && FirstFailure(rs) == |rs|
            && Tickers(Flatten(Contributions(rs))) == symbols
  {
    var chunks := Chunks(symbols);
    var rs := ChunkReplies(chunks, scan);
    var parts := Contributions(rs);
    var tickers := seq(|parts|, i requires 0 <= i < |parts| => Tickers(parts[i]));
    forall i | 0 <= i < |chunks| ensures rs[i].Success? && tickers[i] == chunks[i] {
      ChunkValid(symbols, i);
      ChunkContribution(chunks, scan, download, i);
    }
    FirstFailureNone(rs);
    TickersFlatten(parts);
    assert tickers == chunks;
  }

  /** The S&P 500 button against the server: the symbol list is read, one
      chunk is requested, and every starter symbol gets a row, in order. */
  lemma Sp500ScanShowsEverySymbol(scan: string -> Reply, download: string -> Download)
    requires IsServer(scan, download)
    ensures Symbols(Sp500Reply()) == Success(GetSp500())
    ensures var rs := ChunkReplies(Chunks(GetSp500()), scan);
            && |rs| == 1
            && FirstFailure(rs) == 1
            && Tickers(Flatten(Contributions(rs))) == GetSp500()
  {
    var syms := GetSp500();
    Sp500Valid();
    Sp500IsOneChunk();
    assert |Chunks(syms)| == 1;
    BatchScanShowsEverySymbol(syms, scan, download);
  }
}
