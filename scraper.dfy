/**
 * The decision logic of `RentlyShowingsScraper`: the URL precondition, the platform-iframe
 * lookup, the strict-then-fallback choice of the showings table, the row-parsing loop,
 * the debug-reason sanitiser and the storage-state path normalisation.
 * The browser is replaced by a `Page` value that says what each Playwright lookup would find.
 */
module Scraper {
  import opened Common
  import opened Text
  import opened Rows

  /** The inner texts of the `td` cells of one `tbody tr`, in column order. */
  type Cells = seq<string>

  /** A located table, given by its body rows. */
  type Table = seq<Cells>

  /**
   * The platform iframe's content frame, as seen by the two table locators:
   * the first table each selector matches, or None when its `waitFor` times out.
   */
  datatype Frame = Frame(strictMatch: Option<Table>, fallbackMatch: Option<Table>)

  /** The `iframe#platform-iframe` lookup: the wait times out, the element has no content frame, or it has one. */
  datatype Iframe = IframeAbsent | NoContentFrame | ContentFrame(frame: Frame)

  /** The page after navigation and the network-idle wait; `Unreachable` when either of those throws. */
  datatype Page = Unreachable | Loaded(iframe: Iframe)

  /** Why `fetchShowings` throws. */
  datatype ScrapeError =
    | UrlNotSet          // `require(props.url.isNotBlank())`
    | PageFailed         // navigation or load-state wait threw
    | IframeWaitFailed   // `waitForSelector("iframe#platform-iframe")` threw
    | FrameNotFound      // the iframe has no content frame
    | TableNotFound      // neither table selector matched

  datatype Selector = StrictSelector | FallbackSelector

  /** A call of `dumpDebug`, with the reason as passed; the page variant also takes a screenshot. */
  datatype Dump = PageDump(reason: string) | FrameDump(reason: string)

  /** What one fetch did besides returning: the storage state it loaded and saved, the selectors it waited on, the dumps it wrote. */
  datatype Trace = Trace(loadedState: Option<string>, tried: seq<Selector>, dumps: seq<Dump>, savedState: Option<string>)

  const NoTrace := Trace(None, [], [], None)

  // ---------------------------------------------------------------- rows

  /** A parsed row is stored trimmed: each field is its own trim. */
  predicate Trimmed(r: ShowingRow) {
    Trim(r.name) == r.name && Trim(r.showingDate) == r.showingDate
    && Trim(r.feedback) == r.feedback && Trim(r.source) == r.source
  }

  /**
   * One iteration of the row loop: rows with fewer than four cells are skipped; the first four
   * cells, trimmed, become name, date, feedback and source; a row whose name and date are both
   * blank is skipped.
   */
  function ParseRow(cells: Cells): (r: Option<ShowingRow>)
    ensures r.Some? <==> |cells| >= 4 && !(IsBlank(cells[0]) && IsBlank(cells[1]))
    ensures r.Some? ==> r.value == ShowingRow(Trim(cells[0]), Trim(cells[1]), Trim(cells[2]), Trim(cells[3]))
    ensures r.Some? ==> Trimmed(r.value) && !(IsBlank(r.value.name) && IsBlank(r.value.showingDate))
  {
    if |cells| < 4 then None
    else
      var name, showingDate, feedback, source := Trim(cells[0]), Trim(cells[1]), Trim(cells[2]), Trim(cells[3]);
      TrimBlank(cells[0]);
      TrimBlank(cells[1]);
      TrimIdempotent(cells[0]);
      TrimIdempotent(cells[1]);
      TrimIdempotent(cells[2]);
      TrimIdempotent(cells[3]);
      if IsBlank(name) && IsBlank(showingDate) then None
      else Some(ShowingRow(name, showingDate, feedback, source))
  }

  /** The rows the loop collects from a table: each body row's `ParseRow` result, in table order. */
  function Parsed(table: Table): seq<ShowingRow>
  {
    FilterMap(table, ParseRow)
  }

  /** The row loop of `fetchShowings`: walks the body rows, skipping with `continue`, appending the rest. */
  method ParseRows(table: Table) returns (results: seq<ShowingRow>)
    ensures results == Parsed(table)
  {
    results := [];
    for i := 0 to |table|
      invariant results == FilterMap(table[..i], ParseRow)
    {
      assert table[..i + 1] == table[..i] + [table[i]];
      FilterMapSnoc(table[..i], table[i], ParseRow);
      var tds := table[i];
      if |tds| < 4 {
        assert ParseRow(tds) == None;
        continue;
      }
      var name := Trim(tds[0]);
      var showingDate := Trim(tds[1]);
      var feedback := Trim(tds[2]);
      var source := Trim(tds[3]);
      if IsBlank(name) && IsBlank(showingDate) {
        assert ParseRow(tds) == None;
        continue;
      }
      assert ParseRow(tds) == Some(ShowingRow(name, showingDate, feedback, source));
      results := results + [ShowingRow(name, showingDate, feedback, source)];
    }
    assert table[..|table|] == table;
  }

  /** Cells beyond the fourth take no part in the row. */
  lemma ParseRowIgnoresExtraCells(cells: Cells, extra: Cells)
    requires |cells| >= 4
    ensures ParseRow(cells + extra) == ParseRow(cells)
  {
    assert (cells + extra)[..4] == cells[..4];
    assert (cells + extra)[0] == cells[0] && (cells + extra)[1] == cells[1];
    assert (cells + extra)[2] == cells[2] && (cells + extra)[3] == cells[3];
  }

  /** A blank feedback cell does not drop a row that has a name or a date. */
  lemma ParseRowKeepsBlankFeedback(name: string, showingDate: string, feedback: string, source: string)
    requires IsBlank(feedback) && !(IsBlank(name) && IsBlank(showingDate))
    ensures ParseRow([name, showingDate, feedback, source]).Some?
    ensures ParseRow([name, showingDate, feedback, source]).value.feedback == []
  {
    TrimEmptyIffBlank(feedback);
  }

  /** Parsing distributes over the concatenation of tables: output order is table order. */
  lemma ParsedAppend(a: Table, b: Table)
    ensures Parsed(a + b) == Parsed(a) + Parsed(b)
  {
    FilterMapAppend(a, b, ParseRow);
  }

  /** The output has no more rows than the table. */
  lemma ParsedLength(table: Table)
    ensures |Parsed(table)| <= |table|
  {
    FilterMapLength(table, ParseRow);
  }

  /** A row is in the output exactly when some body row of the table parses to it. */
  lemma ParsedMembers(table: Table, row: ShowingRow)
    ensures row in Parsed(table) <==> exists i :: 0 <= i < |table| && ParseRow(table[i]) == Some(row)
  {
    FilterMapMembers(table, ParseRow, row);
  }

  /** Every output row is trimmed and has a non-blank name or date. */
  lemma {:induction false} ParsedRowsWellFormed(table: Table)
    ensures forall r :: r in Parsed(table) ==> Trimmed(r) && !(IsBlank(r.name) && IsBlank(r.showingDate))
  {
    forall r | r in Parsed(table)
      ensures Trimmed(r) && !(IsBlank(r.name) && IsBlank(r.showingDate))
    {
      ParsedMembers(table, r);
      var i :| 0 <= i < |table| && ParseRow(table[i]) == Some(r);
    }
  }

  // ---------------------------------------------------------------- table choice

  /**
   * `tryFindShowingsTable`: wait on the strict selector; only if that fails, wait on the
   * fallback; if that fails too, dump the frame's HTML with reason `table_not_found` and fail.
   */
  method TryFindShowingsTable(frame: Frame) returns (r: Result<Table, ScrapeError>, tried: seq<Selector>, dumps: seq<Dump>)
    ensures tried == if frame.strictMatch.Some? then [StrictSelector] else [StrictSelector, FallbackSelector]
    ensures frame.strictMatch.Some? ==> r == Ok(frame.strictMatch.value)
    ensures frame.strictMatch.None? && frame.fallbackMatch.Some? ==> r == Ok(frame.fallbackMatch.value)
    ensures r.Err? <==> frame.strictMatch.None? && frame.fallbackMatch.None?
    ensures r.Err? ==> r.error == TableNotFound && dumps == [FrameDump("table_not_found")]
    ensures r.Ok? ==> dumps == []
  {
    tried := [StrictSelector];
    dumps := [];
    if frame.strictMatch.Some? {
      return Ok(frame.strictMatch.value), tried, dumps;
    }
    tried := tried + [FallbackSelector];
    if frame.fallbackMatch.Some? {
      return Ok(frame.fallbackMatch.value), tried, dumps;
    }
    dumps := [FrameDump("table_not_found")];
    r := Err(TableNotFound);
  }

  // ---------------------------------------------------------------- fetch

  /**
   * `fetchShowings`: the URL check comes before anything else; then the context is seeded with
   * the stored state when its file exists, the page is loaded, the platform iframe and the
   * table are located, the rows are parsed, and the state is saved. A failure to save is only
   * logged, so it cannot change the result.
   */
  method FetchShowings(url: string, storageStatePath: Option<string>, stateFileExists: bool, page: Page)
    returns (r: Result<seq<ShowingRow>, ScrapeError>, trace: Trace)
    ensures IsBlank(url) <==> r == Err(UrlNotSet)
    ensures IsBlank(url) ==> trace == NoTrace
    ensures !IsBlank(url) ==> trace.loadedState == (if stateFileExists then TrimmedNonEmpty(storageStatePath) else None)
    ensures r.Ok? <==> !IsBlank(url) && page.Loaded? && page.iframe.ContentFrame?
                       && (page.iframe.frame.strictMatch.Some? || page.iframe.frame.fallbackMatch.Some?)
    ensures r.Ok? ==> r.value == Parsed(
      var f := page.iframe.frame; if f.strictMatch.Some? then f.strictMatch.value else f.fallbackMatch.value)
    ensures trace.savedState == if r.Ok? then TrimmedNonEmpty(storageStatePath) else None
    ensures r.Ok? ==> trace.dumps == []
    ensures !IsBlank(url) && page.Unreachable? ==> r == Err(PageFailed) && trace.dumps == [] && trace.tried == []
    ensures !IsBlank(url) && page.Loaded? && page.iframe.IframeAbsent? ==>
      r == Err(IframeWaitFailed) && trace.dumps == [] && trace.tried == []
    ensures !IsBlank(url) && page.Loaded? && page.iframe.NoContentFrame? ==>
      r == Err(FrameNotFound) && trace.dumps == [PageDump("platform_iframe_not_found")] && trace.tried == []
    ensures !IsBlank(url) && page.Loaded? && page.iframe.ContentFrame? ==>
      trace.tried == (if page.iframe.frame.strictMatch.Some? then [StrictSelector] else [StrictSelector, FallbackSelector])
    ensures !IsBlank(url) && page.Loaded? && page.iframe.ContentFrame? && r.Err? ==>
      r == Err(TableNotFound) && trace.dumps == [FrameDump("table_not_found")]
  {
    if IsBlank(url) {
      return Err(UrlNotSet), NoTrace;
    }
    var path := TrimmedNonEmpty(storageStatePath);
    trace := NoTrace.(loadedState := if path.Some? && stateFileExists then path else None);
    if page.Unreachable? {
      return Err(PageFailed), trace;
    }
    match page.iframe {
      case IframeAbsent =>
        r := Err(IframeWaitFailed);
      case NoContentFrame =>
        r := Err(FrameNotFound);
        trace := trace.(dumps := [PageDump("platform_iframe_not_found")]);
      case ContentFrame(frame) =>
        var table, tried, dumps := TryFindShowingsTable(frame);
        trace := trace.(tried := tried, dumps := dumps);
        if table.Err? {
          return Err(table.error), trace;
        }
        var rows := ParseRows(table.value);
        trace := trace.(savedState := path);
        r := Ok(rows);
    }
  }

  // ---------------------------------------------------------------- debug dumps

  /** The characters `[a-zA-Z0-9._-]` that survive in a debug file name. */
  predicate IsSafeReasonChar(c: char) {
    ('a' <= c <= 'z') || ('A' <= c <= 'Z') || ('0' <= c <= '9') || c == '.' || c == '_' || c == '-'
  }

  /** `reason.replace(Regex("[^a-zA-Z0-9._-]"), "_")`, one code point at a time. */
  function Sanitize(reason: string): (safe: string)
    ensures |safe| == |reason|
    ensures forall i :: 0 <= i < |reason| ==> safe[i] == if IsSafeReasonChar(reason[i]) then reason[i] else '_'
  {
    if |reason| == 0 then []
    else [if IsSafeReasonChar(reason[0]) then reason[0] else '_'] + Sanitize(reason[1..])
  }

  /** Every character of a sanitised reason is safe, so sanitising twice changes nothing more. */
  lemma SanitizeIsSafe(reason: string)
    ensures forall i :: 0 <= i < |Sanitize(reason)| ==> IsSafeReasonChar(Sanitize(reason)[i])
    ensures Sanitize(Sanitize(reason)) == Sanitize(reason)
  {
  }

  /** A reason made only of safe characters is kept as it is. */
  lemma SanitizeKeepsSafe(reason: string)
    requires forall i :: 0 <= i < |reason| ==> IsSafeReasonChar(reason[i])
    ensures Sanitize(reason) == reason
  {
  }

  /** The files one dump writes under `debug/`, for the formatted time stamp `ts`. */
  function DebugFiles(d: Dump, ts: string): seq<string> {
    match d
    case PageDump(reason) =>
      ["rently_" + Sanitize(reason) + "_" + ts + ".png", "rently_" + Sanitize(reason) + "_" + ts + ".html"]
    case FrameDump(reason) =>
      ["rently_frame_" + Sanitize(reason) + "_" + ts + ".html"]
  }

  /** With a time stamp made of safe characters (as `yyyyMMdd_HHmmss` is), no debug file name holds a path separator. */
  lemma DebugFilesStayInDebugDir(d: Dump, ts: string)
    requires forall i :: 0 <= i < |ts| ==> IsSafeReasonChar(ts[i])
    ensures forall f :: f in DebugFiles(d, ts) ==> '/' !in f && '\\' !in f
  {
    SanitizeIsSafe(d.reason);
    var s := Sanitize(d.reason);
    assert '/' !in s && '\\' !in s by {
      forall i | 0 <= i < |s| ensures s[i] != '/' && s[i] != '\\' { assert IsSafeReasonChar(s[i]); }
    }
  }
}
