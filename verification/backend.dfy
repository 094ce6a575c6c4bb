/** The backend's `/api/scan` and `/api/sp500` endpoints: parsing the
    comma-separated ticker list, assembling exactly one result record per
    symbol whatever the market-data download does, and the fixed starter list
    of S&P 500 symbols. The download and the indicator computation are
    oracles: only their outcome (data, no data, an exception) matters here. */
module Backend {
  import opened Wrappers
  import opened Strings

  // ---------------------------------------------------------------------------
  // Ticker-list parsing
  // ---------------------------------------------------------------------------

  /** A symbol as the parser produces it: non-empty, without surrounding
      whitespace, without lower-case letters, and without the separator. */
  predicate ValidSymbol(t: string)
  {
    |t| > 0 && Trimmed(t) && NoLower(t) && ',' !in t
  }

  /** One comma-separated piece after `t.strip().upper()`. */
  function Normalize(piece: string): string
  {
    Upper(Strip(piece))
  }

  /** A non-blank, separator-free piece normalises to a valid symbol. */
  lemma NormalizeValid(piece: string)
    requires ',' !in piece
    requires Strip(piece) != ""
    ensures ValidSymbol(Normalize(piece))
  {
    assert SliceOf(Strip(piece), piece);
    var i :| OccursAt(piece, Strip(piece), i);
    UpperKeeps(Strip(piece));
  }

  /** The comprehension over the pieces: blank pieces are dropped, the others
      are normalised, and the order is kept. */
  function ParsePieces(pieces: seq<string>): (symbols: seq<string>)
    ensures |symbols| <= |pieces|
    decreases |pieces|
  {
    if |pieces| == 0 then []
    else if Strip(pieces[0]) != "" then [Normalize(pieces[0])] + ParsePieces(pieces[1..])
    else ParsePieces(pieces[1..])
  }

  lemma {:induction false} ParsePiecesValid(pieces: seq<string>)
    requires forall i :: 0 <= i < |pieces| ==> ',' !in pieces[i]
    ensures forall j :: 0 <= j < |ParsePieces(pieces)| ==> ValidSymbol(ParsePieces(pieces)[j])
    decreases |pieces|
  {
    if |pieces| > 0 {
      var tail := pieces[1..];
      assert forall i :: 0 <= i < |tail| ==> tail[i] == pieces[i + 1];
      ParsePiecesValid(tail);
      var rest := ParsePieces(tail);
      if Strip(pieces[0]) != "" {
        NormalizeValid(pieces[0]);
        var all := [Normalize(pieces[0])] + rest;
        assert ParsePieces(pieces) == all;
        forall j | 0 <= j < |all| ensures ValidSymbol(all[j]) {
          if j > 0 {
            assert all[j] == rest[j - 1];
          }
        }
      } else {
        assert ParsePieces(pieces) == rest;
      }
    }
  }

  /** `[t.strip().upper() for t in tickers.split(",") if t.strip()]`: every
      symbol is valid, and there are never more symbols than pieces. */
  function ParseTickers(tickers: string): (symbols: seq<string>)
    ensures |symbols| <= Count(tickers, ',') + 1
  {
    ParsePieces(Split(tickers, ','))
  }

  /** A single piece without commas parses to nothing when it is blank, and
      otherwise to its stripped, upper-cased form. */
  lemma ParsePiece(p: string)
    requires ',' !in p
    ensures ParseTickers(p) == if Blank(p) then [] else [Upper(Strip(p))]
  {
    SplitNoSeparator(p, ',');
    assert [p][1..] == [];
  }

  /** Every parsed symbol is non-empty, trimmed, upper-case and comma-free. */
  lemma ParsedSymbolsValid(tickers: string)
    ensures forall j :: 0 <= j < |ParseTickers(tickers)| ==> ValidSymbol(ParseTickers(tickers)[j])
  {
    ParsePiecesValid(Split(tickers, ','));
  }

  lemma {:induction false} ParsePiecesAppend(a: seq<string>, b: seq<string>)
    ensures ParsePieces(a + b) == ParsePieces(a) + ParsePieces(b)
    decreases |a|
  {
    if |a| == 0 {
      assert a + b == b;
    } else {
      assert (a + b)[0] == a[0];
      assert (a + b)[1..] == a[1..] + b;
      ParsePiecesAppend(a[1..], b);
    }
  }

  /** Parsing respects the order of the input: the symbols of
      `a + "," + b` are those of `a` followed by those of `b`. */
  lemma ParseConcat(a: string, b: string)
    ensures ParseTickers(a + [','] + b) == ParseTickers(a) + ParseTickers(b)
  {
    SplitAppend(a, ',', b);
    ParsePiecesAppend(Split(a, ','), Split(b, ','));
  }

  /** A piece the parser keeps exactly as it is. */
  predicate KeptAsIs(piece: string)
  {
    ParsePieces([piece]) == [piece]
  }

  /** A list of pieces each kept as it is parses to itself. */
  lemma {:induction false} ParsePiecesOfKept(xs: seq<string>)
    requires forall i :: 0 <= i < |xs| ==> KeptAsIs(xs[i])
    ensures ParsePieces(xs) == xs
    decreases |xs|
  {
    if |xs| > 0 {
      ParsePiecesOfKept(xs[1..]);
      ParsePiecesAppend([xs[0]], xs[1..]);
      assert xs == [xs[0]] + xs[1..];
    }
  }

  /** Valid symbols come through parsing unchanged. */
  lemma ParsePiecesOfValid(xs: seq<string>)
    requires forall i :: 0 <= i < |xs| ==> ValidSymbol(xs[i])
    ensures ParsePieces(xs) == xs
  {
    forall i | 0 <= i < |xs| ensures KeptAsIs(xs[i]) {
      NormalizeOfValid(xs[i]);
      assert [xs[i]][1..] == [];
    }
    ParsePiecesOfKept(xs);
  }

  /** A valid symbol is its own normal form. */
  lemma NormalizeOfValid(t: string)
    requires ValidSymbol(t)
    ensures Strip(t) == t != ""
    ensures Normalize(t) == t
  {
  }

  lemma CommaFree(xs: seq<string>)
    requires forall i :: 0 <= i < |xs| ==> ValidSymbol(xs[i])
    ensures forall i :: 0 <= i < |xs| ==> ',' !in xs[i]
  {
  }

  /** An empty ticker list has no symbols. */
  lemma ParseEmpty()
    ensures ParseTickers("") == []
  {
    assert Split("", ',') == [""];
    assert Strip("") == "";
    assert [""][1..] == [];
  }

  /** Client/server round trip: the comma-join of valid symbols (what the
      client sends) parses back to exactly those symbols, in order. */
  lemma ParseJoinRoundTrip(xs: seq<string>)
    requires forall i :: 0 <= i < |xs| ==> ValidSymbol(xs[i])
    ensures ParseTickers(Join(xs, ',')) == xs
  {
    if |xs| == 0 {
      ParseEmpty();
    } else {
      CommaFree(xs);
      var t := Join(xs, ',');
      SplitJoin(xs, ',');
      ParsePiecesOfValid(xs);
      assert ParseTickers(t) == ParsePieces(Split(t, ','));
    }
  }

  /** Parsing is idempotent: re-parsing the join of a parsed list changes nothing. */
  lemma ParseIdempotent(tickers: string)
    ensures ParseTickers(Join(ParseTickers(tickers), ',')) == ParseTickers(tickers)
  {
    ParsedSymbolsValid(tickers);
    ParseJoinRoundTrip(ParseTickers(tickers));
  }

  // ---------------------------------------------------------------------------
  // Per-symbol result assembly
  // ---------------------------------------------------------------------------

  /** The indicator fields the client reads; the numeric fields are floating
      point work and are not modelled. */
  datatype Indicators = Indicators(signals: seq<string>, trendShort: string, trendLong: string)

  /** What the steps after the emptiness check do with a non-empty frame:
      `pd.to_datetime` on the index and then `compute_indicators` either
      finish, giving the indicator fields a frame long enough to use gets, or
      one of them raises. */
  datatype Computation = Computed(fields: Indicators) | ComputeRaised(message: string)

  /** What `yf.download(sym, ...)` gives: an exception, `None`, or a frame
      with some number of daily rows. */
  datatype Download =
    | DownloadRaised(message: string)
    | NoFrame
    | Frame(rowCount: nat, computation: Computation)

  /** One entry of the `results` list: `{ticker, **indicators}`, where a frame
      too short to use gives no indicator fields at all, or
      `{ticker, error}`. */
  datatype Record =
    | Record(ticker: string, fields: Option<Indicators>)
    | ErrorRecord(ticker: string, error: string)

  const NoData := "No data"

  /** Below this many rows `compute_indicators` returns an empty dictionary. */
  const MinRows := 60

  /** The record for one symbol: the body of the `try` block and its handler. */
  function RecordFor(sym: string, d: Download): (r: Record)
    ensures r.ticker == sym
  {
    match d
    case DownloadRaised(m) => ErrorRecord(sym, m)
    case NoFrame => ErrorRecord(sym, NoData)
    case Frame(n, c) =>
      if n == 0 then ErrorRecord(sym, NoData)
      else
        match c
        case ComputeRaised(m) => ErrorRecord(sym, m)
        case Computed(f) => if n < MinRows then Record(sym, None) else Record(sym, Some(f))
  }

  /** The download went wrong: an exception, no frame, or an empty frame. */
  predicate DownloadFailed(d: Download)
  {
    d.DownloadRaised? || d.NoFrame? || (d.Frame? && d.rowCount == 0)
  }

  /** A record is an error record exactly when the download failed or a step
      on the non-empty frame raised; a download that gave no data is reported
      as "No data" and an exception by its message. A frame that is processed
      without error gives indicator fields exactly when it has at least 60
      rows. */
  lemma RecordForClassifies(sym: string, d: Download)
    ensures RecordFor(sym, d).ticker == sym
    ensures RecordFor(sym, d).ErrorRecord? <==>
              DownloadFailed(d) || (d.Frame? && d.computation.ComputeRaised?)
    ensures (d.NoFrame? || (d.Frame? && d.rowCount == 0)) ==> RecordFor(sym, d) == ErrorRecord(sym, NoData)
    ensures d.DownloadRaised? ==> RecordFor(sym, d) == ErrorRecord(sym, d.message)
    ensures d.Frame? && 0 < d.rowCount && d.computation.ComputeRaised? ==>
              RecordFor(sym, d) == ErrorRecord(sym, d.computation.message)
    ensures d.Frame? && 0 < d.rowCount < MinRows && d.computation.Computed? ==>
              RecordFor(sym, d) == Record(sym, None)
    ensures d.Frame? && MinRows <= d.rowCount && d.computation.Computed? ==>
              RecordFor(sym, d) == Record(sym, Some(d.computation.fields))
  {
  }

  /** The `for sym in symbols` loop: one record per symbol, appended in order. */
  function ScanSymbols(symbols: seq<string>, download: string -> Download): (results: seq<Record>)
    ensures |results| == |symbols|
    ensures forall i :: 0 <= i < |symbols| ==> results[i].ticker == symbols[i]
    ensures forall i :: 0 <= i < |symbols| ==> results[i] == RecordFor(symbols[i], download(symbols[i]))
    decreases |symbols|
  {
    if |symbols| == 0 then []
    else [RecordFor(symbols[0], download(symbols[0]))] + ScanSymbols(symbols[1..], download)
  }

  /** `GET /api/scan?tickers=...`: exactly one result per parsed symbol, in
      the same order, carrying that symbol as its ticker. */
  function Scan(tickers: string, download: string -> Download): (results: seq<Record>)
    ensures |results| == |ParseTickers(tickers)|
    ensures forall i :: 0 <= i < |results| ==> results[i].ticker == ParseTickers(tickers)[i]
  {
    ScanSymbols(ParseTickers(tickers), download)
  }

  /** A failing download never aborts the scan: the symbol gets an error
      record ("No data" when nothing came back, the exception's message when
      one was raised) and every other symbol still gets its own record. */
  lemma ScanRecordsFailures(tickers: string, download: string -> Download, i: int)
    requires 0 <= i < |ParseTickers(tickers)|
    requires DownloadFailed(download(ParseTickers(tickers)[i]))
    ensures var sym := ParseTickers(tickers)[i];
            Scan(tickers, download)[i] ==
              ErrorRecord(sym, if download(sym).DownloadRaised? then download(sym).message else NoData)
  {
  }

  /** A failure for one symbol never disturbs another: scanning `a + "," + b`
      is scanning `a` followed by scanning `b`. */
  lemma ScanConcat(a: string, b: string, download: string -> Download)
    ensures Scan(a + [','] + b, download) == Scan(a, download) + Scan(b, download)
  {
    ParseConcat(a, b);
    ScanSymbolsAppend(ParseTickers(a), ParseTickers(b), download);
  }

  lemma ScanSymbolsAppend(x: seq<string>, y: seq<string>, download: string -> Download)
    ensures ScanSymbols(x + y, download) == ScanSymbols(x, download) + ScanSymbols(y, download)
  {
    var whole := ScanSymbols(x + y, download);
    var parts := ScanSymbols(x, download) + ScanSymbols(y, download);
    forall i | 0 <= i < |whole| ensures whole[i] == parts[i] {
      if i < |x| {
        assert (x + y)[i] == x[i];
      } else {
        assert (x + y)[i] == y[i - |x|];
      }
    }
  }

  // ---------------------------------------------------------------------------
  // The starter universe
  // ---------------------------------------------------------------------------

  const Sp500Symbols: seq<string> := [
    "AAPL", "MSFT", "NVDA", "GOOGL", "AMZN", "META", "JPM", "V", "UNH", "PG",
    "AVGO", "XOM", "COST", "HD", "LLY", "BAC", "KO", "PEP", "CSCO", "WMT"
  ]

  /** `GET /api/sp500`: the fixed list of twenty distinct symbols, each one
      already in the form the parser produces. */
  function GetSp500(): (symbols: seq<string>)
    ensures |symbols| == 20
    ensures forall i, j :: 0 <= i < j < |symbols| ==> symbols[i] != symbols[j]
  {
    Sp500Symbols
  }

  /** Every starter symbol is already in parsed form. */
  lemma Sp500Valid()
    ensures forall i :: 0 <= i < |GetSp500()| ==> ValidSymbol(GetSp500()[i])
  {
    assert forall i :: 0 <= i < |Sp500Symbols| ==> Letters(Sp500Symbols[i]);
    forall i | 0 <= i < |Sp500Symbols| ensures ValidSymbol(Sp500Symbols[i]) {
      LettersAreValid(Sp500Symbols[i]);
    }
  }

  /** A non-empty run of capital letters. */
  predicate Letters(t: string)
  {
    |t| > 0 && forall k :: 0 <= k < |t| ==> 'A' <= t[k] <= 'Z'
  }

  lemma LettersAreValid(t: string)
    requires Letters(t)
    ensures ValidSymbol(t)
  {
    assert forall k :: 0 <= k < |t| ==> t[k] != ',';
  }

  // ---------------------------------------------------------------------------
  // Signal labels emitted by `compute_indicators`
  // ---------------------------------------------------------------------------

  const BreakoutSignal := "BREAKOUT: Donchian High"
  const OversoldSignal := "OVERSOLD: RSI<=35"
  const OverboughtSignal := "OVERBOUGHT: RSI>=70"
  const MacdSignal := "BULLISH: MACD Crossover"
  const GoldenCrossSignal := "BULLISH: Golden Cross 50/200"
}
