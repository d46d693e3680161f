// Backwards paging over the public candle endpoint and the incremental refresh of
// an installed five-minute frame.

module CandlePages {
  import opened Util

  /** Five minutes and the six hours of overlap, in milliseconds. */
  const INTERVAL := 300000
  const OVERLAP := 21600000

  /** The page size asked for. */
  const LIMIT := 100

  datatype Bar = Bar(open: real, high: real, low: real, close: real, volume: real)

  datatype Candle = Candle(date: int, bar: Bar)

  type Frame = seq<Candle>

  /** A row of a response page: nine fields, or a shape the program refuses. */
  datatype Row = BadShape | Row(ts: int, confirmed: bool, bar: Bar)

  /** The outcome of one request after its retries. */
  datatype Page = Failed | Page(rows: seq<Row>)

  /** Answers request number n with cursor `after`; nothing is assumed of it. */
  type Server = (nat, Option<int>) -> Page

  datatype PullError =
    | RequestFailed
    | RowShapeChanged
    | NotBackwards
    | NoClosedCandles
    | IntervalIncomplete
    | FrameInvalid
    | OlderThanInstalled

  // -------------------------------------------------------------------- frames

  /** Consecutive dates are exactly five minutes apart. */
  predicate Spaced(f: Frame) {
    forall i :: 0 < i < |f| ==> f[i].date - f[i - 1].date == INTERVAL
  }

  predicate ValidFrame(f: Frame) {
    f != [] && Spaced(f)
  }

  ghost function FrameOf(rows: map<int, Bar>): (f: Frame)
    ensures |f| == |rows|
  {
    var keys := Sorted(rows.Keys);
    assert forall i :: 0 <= i < |keys| ==> keys[i] in keys;
    seq(|keys|, i requires 0 <= i < |keys| => Candle(keys[i], rows[keys[i]]))
  }

  method BuildFrame(rows: map<int, Bar>) returns (f: Frame)
    ensures f == FrameOf(rows)
  {
    var keys := SortSet(rows.Keys);
    assert forall i :: 0 <= i < |keys| ==> keys[i] in keys;
    f := seq(|keys|, i requires 0 <= i < |keys| => Candle(keys[i], rows[keys[i]]));
  }

  /** The rows of a frame by date, a later row replacing an earlier one. */
  function RowsOf(f: Frame): map<int, Bar> {
    if f == [] then map[] else RowsOf(f[..|f| - 1])[f[|f| - 1].date := f[|f| - 1].bar]
  }

  // ------------------------------------------------------------------- history

  /** What the exchange knows of one candle. */
  datatype Record = Record(closed: bool, bar: Bar)

  type History = map<int, Record>

  predicate Older(ts: int, after: Option<int>) {
    after.None? || ts < after.value
  }

  /** The page holds the newest hundred candles older than the cursor, in any order. */
  ghost predicate NewestPage(hist: History, after: Option<int>, rows: seq<Row>) {
    && |rows| <= LIMIT
    && (forall i :: 0 <= i < |rows| ==>
          && rows[i].Row? && rows[i].ts in hist && Older(rows[i].ts, after)
          && hist[rows[i].ts] == Record(rows[i].confirmed, rows[i].bar))
    && (forall i, j :: 0 <= i < j < |rows| ==> rows[i].ts != rows[j].ts)
    && (forall ts :: ts in hist && Older(ts, after) && !Listed(rows, ts) ==>
          |rows| == LIMIT && forall i :: 0 <= i < |rows| ==> ts < rows[i].ts)
  }

  ghost predicate Listed(rows: seq<Row>, ts: int)
    requires forall i :: 0 <= i < |rows| ==> rows[i].Row?
  {
    exists i :: 0 <= i < |rows| && rows[i].ts == ts
  }

  ghost predicate Serves(server: Server, hist: History) {
    forall n: nat, after: Option<int> ::
      server(n, after).Page? && NewestPage(hist, after, server(n, after).rows)
  }

  /** The closed candles at or after a time. */
  ghost function ClosedFrom(hist: History, start: int): map<int, Bar> {
    map ts | ts in hist && hist[ts].closed && ts >= start :: hist[ts].bar
  }

  ghost function ClosedWithin(hist: History, lo: int, hi: int): map<int, Bar> {
    map ts | ts in hist && hist[ts].closed && lo <= ts <= hi :: hist[ts].bar
  }

  // -------------------------------------------------------------------- paging

  /** The row dictionary after a page whose rows all have the right shape. */
  function Absorb(known: map<int, Bar>, rows: seq<Row>, start: int): map<int, Bar>
    requires forall i :: 0 <= i < |rows| ==> rows[i].Row?
  {
    if rows == [] then known
    else
      var last := rows[|rows| - 1];
      var before := Absorb(known, rows[..|rows| - 1], start);
      if last.confirmed && last.ts >= start then before[last.ts := last.bar] else before
  }

  /** One pass over a page: collect closed rows, find the oldest time. */
  method ReadPage(known: map<int, Bar>, rows: seq<Row>, start: int)
    returns (wellShaped: bool, collected: map<int, Bar>, oldest: int)
    requires rows != []
    ensures wellShaped <==> forall i :: 0 <= i < |rows| ==> rows[i].Row?
    ensures wellShaped ==> collected == Absorb(known, rows, start)
    ensures wellShaped ==> exists i :: 0 <= i < |rows| && rows[i].ts == oldest
    ensures wellShaped ==> forall i :: 0 <= i < |rows| ==> oldest <= rows[i].ts
  {
    collected, oldest := known, 0;
    for i := 0 to |rows|
      invariant forall k :: 0 <= k < i ==> rows[k].Row?
      invariant collected == Absorb(known, rows[..i], start)
      invariant i > 0 ==> exists k :: 0 <= k < i && rows[k].ts == oldest
      invariant forall k :: 0 <= k < i ==> oldest <= rows[k].ts
    {
      if rows[i].BadShape? {
        wellShaped := false;
        return;
      }
      assert rows[..i + 1][..i] == rows[..i];
      var row := rows[i];
      if row.confirmed && row.ts >= start {
        collected := collected[row.ts := row.bar];
      }
      oldest := if i == 0 || row.ts < oldest then row.ts else oldest;
    }
    assert rows[..|rows|] == rows;
    wellShaped := true;
  }

  /** What the download returns against a fixed history. */
  ghost predicate Downloads(hist: History, start: int, r: Result<Frame, PullError>) {
    var closed := ClosedFrom(hist, start);
    r == if closed == map[] then Err(NoClosedCandles)
         else if !Spaced(FrameOf(closed)) then Err(IntervalIncomplete)
         else Ok(FrameOf(closed))
  }

  /** The least time of a page, which becomes the next cursor. */
  ghost predicate Oldest(rows: seq<Row>, ts: int) {
    && (forall i :: 0 <= i < |rows| ==> rows[i].Row? && ts <= rows[i].ts)
    && exists i :: 0 <= i < |rows| && rows[i].ts == ts
  }

  /** The cursor of request i: none at first, then the oldest time of the page before. */
  ghost predicate CursorAt(pages: seq<seq<Row>>, i: nat, cursor: Option<int>)
    requires i <= |pages|
  {
    if i == 0 then cursor.None? else cursor.Some? && Oldest(pages[i - 1], cursor.value)
  }

  ghost predicate Answered(server: Server, pages: seq<seq<Row>>, i: nat, rows: seq<Row>)
    requires i <= |pages|
  {
    exists cursor :: CursorAt(pages, i, cursor) && server(i, cursor) == Page(rows)
  }

  ghost predicate EndsWith(pages: seq<seq<Row>>, ts: int) {
    pages != [] && Oldest(pages[|pages| - 1], ts)
  }

  /** The last page is not older than the one before it. */
  ghost predicate Repeats(pages: seq<seq<Row>>, last: int, before: int) {
    EndsWith(pages, last) && EndsWith(pages[..|pages| - 1], before) && last >= before
  }

  /** The pages are the server's answers in turn, up to the start or to an empty page. */
  ghost predicate Walked(server: Server, pages: seq<seq<Row>>, start: int) {
    && (forall i :: 0 <= i < |pages| ==> pages[i] != [] && Answered(server, pages, i, pages[i]))
    && (Answered(server, pages, |pages|, [])
        || exists ts :: EndsWith(pages, ts) && ts <= start)
  }

  ghost function Flat(pages: seq<seq<Row>>): seq<Row> {
    if pages == [] then [] else Flat(pages[..|pages| - 1]) + pages[|pages| - 1]
  }

  ghost predicate ClosedAt(row: Row, ts: int) {
    row.Row? && row.confirmed && row.ts == ts
  }

  /** Row i is the last closed one of its time, which is not before the start. */
  ghost predicate LastClosed(rows: seq<Row>, i: nat, start: int, ts: int)
    requires i < |rows|
  {
    ClosedAt(rows[i], ts) && ts >= start && forall k :: i < k < |rows| ==> !ClosedAt(rows[k], ts)
  }

  /** The dictionary holds, for each time from the start on, the last closed row seen. */
  ghost predicate Gathers(known: map<int, Bar>, rows: seq<Row>, start: int) {
    && (forall ts :: ts in known ==> exists i :: 0 <= i < |rows| && LastClosed(rows, i, start, ts))
    && (forall i, ts :: 0 <= i < |rows| && LastClosed(rows, i, start, ts) ==> ts in known && known[ts] == rows[i].bar)
  }

  /** The frame is what the server's pages hold of closed candles from the start on. */
  ghost predicate PulledFrom(server: Server, start: int, pages: seq<seq<Row>>, f: Frame) {
    Walked(server, pages, start) && Gathers(RowsOf(f), Flat(pages), start)
  }

  /** How the pages account for every way out of a download. */
  ghost predicate Pulled(server: Server, start: int, pages: seq<seq<Row>>, r: Result<Frame, PullError>) {
    match r
    case Ok(f) => PulledFrom(server, start, pages, f) && GapFree(RowsOf(f).Keys)
    case Err(NoClosedCandles) => Walked(server, pages, start) && Gathers(map[], Flat(pages), start)
    case Err(IntervalIncomplete) =>
      Walked(server, pages, start) && exists known :: Gathers(known, Flat(pages), start) && !GapFree(known.Keys)
    case Err(RequestFailed) =>
      exists cursor :: CursorAt(pages, |pages|, cursor) && server(|pages|, cursor).Failed?
    case Err(RowShapeChanged) =>
      exists cursor :: CursorAt(pages, |pages|, cursor) && Misshapen(server(|pages|, cursor))
    case Err(NotBackwards) => exists last, before :: Repeats(pages, last, before)
    case Err(_) => false
  }

  ghost predicate Misshapen(page: Page) {
    page.Page? && exists i :: 0 <= i < |page.rows| && page.rows[i].BadShape?
  }

  lemma {:induction false} AbsorbGathers(known: map<int, Bar>, before: seq<Row>, rows: seq<Row>, start: int)
    requires Gathers(known, before, start) && forall i :: 0 <= i < |rows| ==> rows[i].Row?
    ensures Gathers(Absorb(known, rows, start), before + rows, start)
  {
    if rows == [] {
      assert before + rows == before;
    } else {
      var n := |rows| - 1;
      AbsorbGathers(known, before, rows[..n], start);
      GathersOne(Absorb(known, rows[..n], start), before + rows[..n], rows[n], start);
      assert before + rows == (before + rows[..n]) + [rows[n]];
    }
  }

  lemma GathersOne(known: map<int, Bar>, before: seq<Row>, row: Row, start: int)
    requires Gathers(known, before, start) && row.Row?
    ensures Gathers(if row.confirmed && row.ts >= start then known[row.ts := row.bar] else known, before + [row], start)
  {
    var all := before + [row];
    var known' := if row.confirmed && row.ts >= start then known[row.ts := row.bar] else known;
    forall i, ts | 0 <= i < |before|
      ensures LastClosed(all, i, start, ts) <==> LastClosed(before, i, start, ts) && !ClosedAt(row, ts)
    {
      LastClosedStep(before, row, i, start, ts);
    }
    forall ts | ts in known'
      ensures exists i :: 0 <= i < |all| && LastClosed(all, i, start, ts)
    {
      if ClosedAt(row, ts) {
        assert LastClosed(all, |before|, start, ts);
      } else {
        var i :| 0 <= i < |before| && LastClosed(before, i, start, ts);
        assert LastClosed(all, i, start, ts);
      }
    }
  }

  lemma LastClosedStep(before: seq<Row>, row: Row, i: nat, start: int, ts: int)
    requires i < |before|
    ensures LastClosed(before + [row], i, start, ts) <==> LastClosed(before, i, start, ts) && !ClosedAt(row, ts)
  {
    var all := before + [row];
    assert all[|before|] == row;
    assert forall k :: 0 <= k < |before| ==> all[k] == before[k];
  }

  lemma FlatGrows(pages: seq<seq<Row>>, rows: seq<Row>)
    ensures Flat(pages + [rows]) == Flat(pages) + rows
  {
    assert (pages + [rows])[..|pages|] == pages;
  }

  /** The answers so far, and where the next request stands. */
  ghost predicate Walking(server: Server, pages: seq<seq<Row>>, after: Option<int>) {
    && (forall i :: 0 <= i < |pages| ==> pages[i] != [] && Answered(server, pages, i, pages[i]))
    && CursorAt(pages, |pages|, after)
  }

  lemma WalkStep(server: Server, pages: seq<seq<Row>>, after: Option<int>, rows: seq<Row>, oldest: int)
    requires Walking(server, pages, after) && server(|pages|, after) == Page(rows)
    requires rows != [] && Oldest(rows, oldest)
    ensures Walking(server, pages + [rows], Some(oldest))
  {
    hide Oldest, Answered, CursorAt;
    var all := pages + [rows];
    forall i | 0 <= i < |all|
      ensures all[i] != [] && Answered(server, all, i, all[i])
    {
      if i < |pages| {
        AnsweredStays(server, pages, rows, i);
      } else {
        AnsweredNow(server, pages, rows, after);
      }
    }
    NextCursor(pages, rows, oldest);
  }

  lemma NextCursor(pages: seq<seq<Row>>, rows: seq<Row>, oldest: int)
    requires Oldest(rows, oldest)
    ensures CursorAt(pages + [rows], |pages| + 1, Some(oldest))
  {
    hide Oldest;
  }

  lemma AnsweredNow(server: Server, pages: seq<seq<Row>>, rows: seq<Row>, after: Option<int>)
    requires CursorAt(pages, |pages|, after) && server(|pages|, after) == Page(rows)
    ensures Answered(server, pages + [rows], |pages|, rows)
  {
    hide CursorAt;
    SameCursor(pages, rows, |pages|, after);
  }

  lemma SameCursor(pages: seq<seq<Row>>, rows: seq<Row>, i: nat, cursor: Option<int>)
    requires i <= |pages|
    ensures CursorAt(pages + [rows], i, cursor) <==> CursorAt(pages, i, cursor)
  {
    hide Oldest;
  }

  lemma AnsweredStays(server: Server, pages: seq<seq<Row>>, rows: seq<Row>, i: nat)
    requires i < |pages| && Answered(server, pages, i, pages[i])
    ensures Answered(server, pages + [rows], i, pages[i])
  {
    hide CursorAt;
    var cursor :| CursorAt(pages, i, cursor) && server(i, cursor) == Page(pages[i]);
    SameCursor(pages, rows, i, cursor);
  }

  /**
   * Pages backwards until the start is covered. It stops against every server: the
   * cursor is above the start and strictly decreases. Whatever the server answers, an
   * accepted frame holds the last closed row of each time that its pages name. Against
   * a server of a fixed history it returns exactly the closed candles from the start,
   * or reports that there are none or that they have a gap.
   */
  method DownloadPair(server: Server, start: int, ghost hist: History)
    returns (r: Result<Frame, PullError>, ghost pages: seq<seq<Row>>)
    ensures Pulled(server, start, pages, r)
    ensures r.Ok? ==> ValidFrame(r.value) && forall i :: 0 <= i < |r.value| ==> r.value[i].date >= start
    ensures Serves(server, hist) ==> Downloads(hist, start, r)
  {
    hide NewestPage, Absorb, Serves, FrameOf, Gathers, Walking, Walked, Oldest, Flat, RowsOf, Spaced, GapFree;
    pages := [];
    EmptyWalk(server, start);
    var rows: map<int, Bar> := map[];
    var after: Option<int> := None;
    var pageCount := 0;
    while true
      invariant after.Some? ==> after.value > start
      invariant Walking(server, pages, after) && pageCount == |pages| && Gathers(rows, Flat(pages), start)
      invariant forall ts :: ts in rows ==> ts >= start
      invariant Serves(server, hist) ==> rows == if after.None? then map[] else ClosedFrom(hist, after.value)
      decreases after.None?, if after.Some? then after.value - start else 0
    {
      var page := server(pageCount, after);
      WalkStandsAt(server, pages, after);
      if Serves(server, hist) {
        ServedPage(server, hist, pageCount, after);
      }
      if page.Failed? {
        return Err(RequestFailed), pages;
      }
      if page.rows == [] {
        if Serves(server, hist) {
          EmptyPageEndsHistory(hist, after, page.rows, start, rows);
        }
        WalkEndsEmpty(server, pages, after, start);
        break;
      }
      pageCount := pageCount + 1;
      var wellShaped, collected, oldest := ReadPage(rows, page.rows, start);
      if !wellShaped {
        assert Misshapen(page);
        return Err(RowShapeChanged), pages;
      }
      AbsorbKeepsStart(rows, page.rows, start);
      AbsorbGathers(rows, Flat(pages), page.rows, start);
      FlatGrows(pages, page.rows);
      OldestFound(page.rows, oldest);
      WalkStep(server, pages, after, page.rows, oldest);
      if Serves(server, hist) {
        PageExtendsHistory(hist, after, page.rows, start, rows, oldest);
      }
      rows := collected;
      ghost var before := pages;
      pages := before + [page.rows];
      if oldest <= start {
        WalkEndsAtStart(server, pages, oldest, start);
        break;
      }
      if after.Some? && oldest >= after.value {
        NotBackwardsSeen(server, before, page.rows, after, oldest);
        return Err(NotBackwards), pages;
      }
      after := Some(oldest);
    }
    if rows == map[] {
      return Err(NoClosedCandles), pages;
    }
    var frame := BuildFrame(rows);
    SpacedExactlyWhen(rows);
    if !Spaced(frame) {
      return Err(IntervalIncomplete), pages;
    }
    FrameDates(rows);
    RowsOfFrameOf(rows);
    r := Ok(frame);
  }

  lemma EmptyWalk(server: Server, start: int)
    ensures Walking(server, [], None) && Gathers(map[], Flat([]), start)
  {
  }

  lemma WalkStandsAt(server: Server, pages: seq<seq<Row>>, after: Option<int>)
    requires Walking(server, pages, after)
    ensures CursorAt(pages, |pages|, after)
  {
  }

  lemma NotBackwardsSeen(server: Server, pages: seq<seq<Row>>, rows: seq<Row>, after: Option<int>, oldest: int)
    requires Walking(server, pages, after) && Oldest(rows, oldest) && after.Some? && oldest >= after.value
    ensures Pulled(server, after.value, pages + [rows], Err(NotBackwards))
  {
    hide Oldest, Answered, Walked, Gathers;
    var all := pages + [rows];
    assert all[..|all| - 1] == pages;
    assert Repeats(all, oldest, after.value);
  }

  lemma WalkEndsEmpty(server: Server, pages: seq<seq<Row>>, after: Option<int>, start: int)
    requires Walking(server, pages, after) && server(|pages|, after) == Page([])
    ensures Walked(server, pages, start)
  {
    assert Answered(server, pages, |pages|, []);
  }

  lemma WalkEndsAtStart(server: Server, pages: seq<seq<Row>>, oldest: int, start: int)
    requires pages != [] && Walking(server, pages, Some(oldest)) && oldest <= start
    ensures Walked(server, pages, start)
  {
    assert EndsWith(pages, oldest);
  }

  lemma OldestFound(rows: seq<Row>, oldest: int)
    requires forall i :: 0 <= i < |rows| ==> rows[i].Row? && oldest <= rows[i].ts
    requires exists i :: 0 <= i < |rows| && rows[i].ts == oldest
    ensures Oldest(rows, oldest)
  {
  }

  lemma ServedPage(server: Server, hist: History, n: nat, after: Option<int>)
    requires Serves(server, hist)
    ensures server(n, after).Page? && NewestPage(hist, after, server(n, after).rows)
    ensures forall i :: 0 <= i < |server(n, after).rows| ==> server(n, after).rows[i].Row?
  {
    ServedRowsWellShaped(hist, after, server(n, after).rows);
  }

  lemma ServedRowsWellShaped(hist: History, after: Option<int>, rows: seq<Row>)
    requires NewestPage(hist, after, rows)
    ensures forall i :: 0 <= i < |rows| ==> rows[i].Row?
  {
  }

  lemma {:induction false} AbsorbKeepsStart(known: map<int, Bar>, rows: seq<Row>, start: int)
    requires forall i :: 0 <= i < |rows| ==> rows[i].Row?
    requires forall ts :: ts in known ==> ts >= start
    ensures forall ts :: ts in Absorb(known, rows, start) ==> ts >= start
  {
    if rows != [] {
      AbsorbKeepsStart(known, rows[..|rows| - 1], start);
    }
  }

  lemma FrameDates(rows: map<int, Bar>)
    ensures forall i :: 0 <= i < |FrameOf(rows)| ==>
      FrameOf(rows)[i].date in rows && FrameOf(rows)[i].bar == rows[FrameOf(rows)[i].date]
  {
    var keys := Sorted(rows.Keys);
    assert forall i :: 0 <= i < |keys| ==> keys[i] in keys;
  }

  /** After a page of a history, its rows have been added and nothing else. */
  lemma {:induction false} AbsorbHistory(hist: History, known: map<int, Bar>, rows: seq<Row>, start: int)
    requires forall i :: 0 <= i < |rows| ==>
      rows[i].Row? && rows[i].ts in hist && hist[rows[i].ts] == Record(rows[i].confirmed, rows[i].bar)
    requires forall ts :: ts in known ==> ts in hist && known[ts] == hist[ts].bar
    ensures var m := Absorb(known, rows, start);
      && (forall ts :: ts in m ==> ts in hist && m[ts] == hist[ts].bar)
      && (forall ts :: ts in m <==> ts in known || (ts in hist && hist[ts].closed && ts >= start && Listed(rows, ts)))
  {
    if rows != [] {
      var front := rows[..|rows| - 1];
      AbsorbHistory(hist, known, front, start);
      forall ts
        ensures Listed(rows, ts) <==> Listed(front, ts) || rows[|rows| - 1].ts == ts
      {
        if Listed(rows, ts) {
          var i :| 0 <= i < |rows| && rows[i].ts == ts;
          assert i < |front| ==> front[i].ts == ts;
        }
        if Listed(front, ts) {
          var i :| 0 <= i < |front| && front[i].ts == ts;
          assert rows[i].ts == ts;
        }
      }
    }
  }

  lemma PageExtendsHistory(hist: History, after: Option<int>, rows: seq<Row>, start: int, known: map<int, Bar>, oldest: int)
    requires NewestPage(hist, after, rows) && rows != []
    requires after.Some? ==> after.value > start
    requires known == if after.None? then map[] else ClosedFrom(hist, after.value)
    requires exists i :: 0 <= i < |rows| && rows[i].ts == oldest
    requires forall i :: 0 <= i < |rows| ==> oldest <= rows[i].ts
    ensures Older(oldest, after)
    ensures Absorb(known, rows, start) == ClosedFrom(hist, if oldest <= start then start else oldest)
  {
    AbsorbHistory(hist, known, rows, start);
    var m, goal := Absorb(known, rows, start), ClosedFrom(hist, if oldest <= start then start else oldest);
    forall ts
      ensures ts in m <==> ts in goal
    {
      if ts in hist && Older(ts, after) && ts >= oldest {
        assert Listed(rows, ts);
      }
      if Listed(rows, ts) {
        var i :| 0 <= i < |rows| && rows[i].ts == ts;
      }
    }
    assert m.Keys == goal.Keys;
  }

  lemma EmptyPageEndsHistory(hist: History, after: Option<int>, rows: seq<Row>, start: int, known: map<int, Bar>)
    requires NewestPage(hist, after, rows) && rows == []
    requires after.Some? ==> after.value > start
    requires known == if after.None? then map[] else ClosedFrom(hist, after.value)
    ensures known == ClosedFrom(hist, start)
  {
    forall ts | ts in hist
      ensures !Older(ts, after)
    {
      assert Listed(rows, ts) == false;
    }
    assert known.Keys == ClosedFrom(hist, start).Keys;
  }

  // ------------------------------------------------------------------- refresh

  function Later(a: int, b: int): int {
    if a < b then b else a
  }

  function Earlier(a: int, b: int): int {
    if a < b then a else b
  }

  function LastDate(f: Frame): int
    requires f != []
  {
    f[|f| - 1].date
  }

  /** Where a refresh asks the exchange to start. */
  function RequestStart(current: Option<Frame>, start: int): int
    requires current.Some? ==> current.value != []
  {
    if current.None? then start else Later(start, LastDate(current.value) - OVERLAP)
  }

  /** The frame holds the closed candles of the history between its first and last dates. */
  ghost predicate Installed(hist: History, f: Frame) {
    && ValidFrame(f)
    && RowsOf(f) == ClosedWithin(hist, f[0].date, LastDate(f))
  }

  predicate Aligned(ts: int) {
    ts % INTERVAL == 0
  }

  ghost predicate OnGrid(hist: History) {
    forall ts :: ts in hist ==> Aligned(ts)
  }

  /** Concatenate, keep the last row of each date, sort by date. */
  method MergeFrames(current: Frame, refreshed: Frame) returns (merged: Frame)
    ensures merged == FrameOf(RowsOf(current) + RowsOf(refreshed))
  {
    var rows: map<int, Bar> := map[];
    for i := 0 to |current|
      invariant rows == RowsOf(current[..i])
    {
      assert current[..i + 1][..i] == current[..i];
      rows := rows[current[i].date := current[i].bar];
    }
    assert current[..|current|] == current;
    for i := 0 to |refreshed|
      invariant rows == RowsOf(current) + RowsOf(refreshed[..i])
    {
      assert refreshed[..i + 1][..i] == refreshed[..i];
      rows := rows[refreshed[i].date := refreshed[i].bar];
    }
    assert refreshed[..|refreshed|] == refreshed;
    merged := BuildFrame(rows);
  }

  /** The closed candles asked for exist and join the installed ones without a gap. */
  ghost predicate Refreshable(hist: History, current: Frame, start: int)
    requires current != []
  {
    Joins(RowsOf(current), ClosedFrom(hist, RequestStart(Some(current), start)))
  }

  ghost predicate Joins(rows: map<int, Bar>, closed: map<int, Bar>) {
    closed != map[] && Spaced(FrameOf(closed)) && Spaced(FrameOf(rows + closed))
  }

  /**
   * What a refresh owes to a fixed history: from no frame, the closed history from
   * the start; from an installed frame, success exactly when the two join without a
   * gap, and then the closed history from the earlier of the first installed date and
   * the requested start.
   */
  ghost predicate CompletesHistory(hist: History, current: Option<Frame>, start: int, r: Result<Frame, PullError>) {
    match current
    case None => Downloads(hist, start, r)
    case Some(f) => Installed(hist, f) ==>
      && (r.Ok? <==> Refreshable(hist, f, start))
      && (OnGrid(hist) && r.Ok? ==> r.value == FrameOf(ClosedFrom(hist, Earlier(f[0].date, RequestStart(current, start)))))
  }

  /**
   * The incremental refresh. Whatever the server answers, an accepted frame merges the
   * download of this call into the installed frame; a download that ends earlier than
   * the installed frame is refused. Against a fixed history it completes the installed
   * frame.
   */
  method RefreshPair(server: Server, start: int, current: Option<Frame>, ghost hist: History)
    returns (r: Result<Frame, PullError>, ghost downloaded: Option<Frame>, ghost pages: seq<seq<Row>>)
    ensures r.Ok? ==> ValidFrame(r.value)
    ensures r == Err(FrameInvalid) <==> current.Some? && !ValidFrame(current.value)
    ensures downloaded.Some? ==>
      && (current.Some? ==> ValidFrame(current.value)) && ValidFrame(downloaded.value)
      && PulledFrom(server, RequestStart(current, start), pages, downloaded.value)
    ensures r.Ok? ==> downloaded.Some?
    ensures r.Ok? && current.None? ==> r.value == downloaded.value
    ensures r.Ok? && current.Some? ==>
      && LastDate(downloaded.value) >= LastDate(current.value)
      && Merges(current.value, downloaded.value, r.value)
    ensures r == Err(OlderThanInstalled) <==>
      current.Some? && downloaded.Some? && LastDate(downloaded.value) < LastDate(current.value)
    ensures r.Ok? && current.Some? ==>
      && ValidFrame(current.value)
      && RowsOf(current.value).Keys <= RowsOf(r.value).Keys
      && LastDate(r.value) >= LastDate(current.value)
    ensures Serves(server, hist) ==> CompletesHistory(hist, current, start, r)
  {
    hide Serves, Downloads, CompletesHistory, FrameOf, RowsOf, Spaced, Merges, PulledFrom, GapFree;
    downloaded, pages := None, [];
    ghost var served := Serves(server, hist);
    if served {
      RefreshOutcome(hist, current, start);
    }
    var requestStart := start;
    if current.Some? {
      if !ValidFrame(current.value) {
        return Err(FrameInvalid), None, [];
      }
      requestStart := Later(start, LastDate(current.value) - OVERLAP);
    }
    r, pages := DownloadPair(server, requestStart, hist);
    if r.Err? {
      return r, None, pages;
    }
    downloaded := Some(r.value);
    if current.None? {
      return;
    }
    r := JoinFrames(current.value, r.value);
  }

  /** The three ways out of a refresh against a fixed history. */
  lemma RefreshOutcome(hist: History, current: Option<Frame>, start: int)
    ensures current.Some? && !ValidFrame(current.value) ==> CompletesHistory(hist, current, start, Err(FrameInvalid))
    ensures current.Some? ==> ValidFrame(current.value) ==>
      forall r: Result<Frame, PullError> :: Downloads(hist, RequestStart(current, start), r) ==>
        CompletesHistory(hist, current, start,
          if r.Err? || r.value == [] then r else Joined(current.value, r.value))
    ensures current.None? ==>
      forall r: Result<Frame, PullError> :: Downloads(hist, start, r) ==> CompletesHistory(hist, current, start, r)
  {
    hide FrameOf, RowsOf, Spaced, ClosedFrom, ClosedWithin, OnGrid;
    if current.Some? && Installed(hist, current.value) {
      var requestStart := RequestStart(current, start);
      JoinOutcome(hist, current.value, requestStart);
      if OnGrid(hist) && Refreshable(hist, current.value, start) {
        MergeCompletesHistory(hist, current.value, requestStart);
      }
    }
  }

  /** All dates of both frames; the refreshed bar wins where both have one. */
  ghost predicate Merges(current: Frame, refreshed: Frame, merged: Frame) {
    && RowsOf(merged).Keys == RowsOf(current).Keys + RowsOf(refreshed).Keys
    && (forall ts :: ts in RowsOf(refreshed) ==> RowsOf(merged)[ts] == RowsOf(refreshed)[ts])
    && (forall ts :: ts in RowsOf(current) && ts !in RowsOf(refreshed) ==> RowsOf(merged)[ts] == RowsOf(current)[ts])
  }

  /** Refuse an older frame, merge, and refuse a merged frame with gaps. */
  method JoinFrames(current: Frame, refreshed: Frame) returns (r: Result<Frame, PullError>)
    requires current != [] && refreshed != []
    ensures r == Joined(current, refreshed)
    ensures r == Err(OlderThanInstalled) <==> LastDate(refreshed) < LastDate(current)
    ensures r == Err(IntervalIncomplete) <==>
      LastDate(refreshed) >= LastDate(current) && !GapFree(RowsOf(current).Keys + RowsOf(refreshed).Keys)
    ensures r.Ok? ==> Merges(current, refreshed, r.value)
    ensures r.Ok? ==> ValidFrame(r.value)
    ensures r.Ok? ==> RowsOf(current).Keys <= RowsOf(r.value).Keys && LastDate(r.value) >= LastDate(current)
  {
    hide FrameOf, RowsOf, Spaced, GapFree;
    if LastDate(refreshed) < LastDate(current) {
      return Err(OlderThanInstalled);
    }
    var merged := MergeFrames(current, refreshed);
    MergedKeepsDates(current, refreshed);
    RowsOfFrameOf(RowsOf(current) + RowsOf(refreshed));
    SpacedExactlyWhen(RowsOf(current) + RowsOf(refreshed));
    assert (RowsOf(current) + RowsOf(refreshed)).Keys == RowsOf(current).Keys + RowsOf(refreshed).Keys;
    if !ValidFrame(merged) {
      return Err(IntervalIncomplete);
    }
    r := Ok(merged);
  }

  ghost function Joined(current: Frame, refreshed: Frame): Result<Frame, PullError>
    requires current != [] && refreshed != []
  {
    var merged := FrameOf(RowsOf(current) + RowsOf(refreshed));
    if LastDate(refreshed) < LastDate(current) then Err(OlderThanInstalled)
    else if !Spaced(merged) then Err(IntervalIncomplete)
    else Ok(merged)
  }

  /** Joining the closed history to an installed frame only fails over a gap. */
  lemma JoinOutcome(hist: History, current: Frame, requestStart: int)
    requires Installed(hist, current)
    ensures var closed := ClosedFrom(hist, requestStart);
      closed != map[] ==>
        && FrameOf(closed) != []
        && var merged := FrameOf(RowsOf(current) + closed);
          Joined(current, FrameOf(closed)) == if Spaced(merged) then Ok(merged) else Err(IntervalIncomplete)
  {
    hide FrameOf, RowsOf, Spaced, ClosedFrom;
    if ClosedFrom(hist, requestStart) != map[] {
      RowsOfFrameOf(ClosedFrom(hist, requestStart));
      NewestNotOlder(hist, current, requestStart);
    }
  }

  /** A frame built from rows by date gives the same rows back. */
  lemma {:induction false} RowsOfPrefix(rows: map<int, Bar>, keys: seq<int>, n: nat)
    requires n <= |keys| && forall i :: 0 <= i < |keys| ==> keys[i] in rows
    ensures RowsOf(seq(n, i requires 0 <= i < n => Candle(keys[i], rows[keys[i]])))
         == map ts | ts in keys[..n] && ts in rows :: rows[ts]
  {
    var f := seq(n, i requires 0 <= i < n => Candle(keys[i], rows[keys[i]]));
    if n > 0 {
      RowsOfPrefix(rows, keys, n - 1);
      assert f[..n - 1] == seq(n - 1, i requires 0 <= i < n - 1 => Candle(keys[i], rows[keys[i]]));
      assert keys[..n] == keys[..n - 1] + [keys[n - 1]];
    }
  }

  lemma RowsOfFrameOf(rows: map<int, Bar>)
    ensures RowsOf(FrameOf(rows)) == rows
  {
    var keys := Sorted(rows.Keys);
    assert forall i :: 0 <= i < |keys| ==> keys[i] in keys;
    RowsOfPrefix(rows, keys, |keys|);
    assert keys[..|keys|] == keys;
    assert FrameOf(rows) == seq(|keys|, i requires 0 <= i < |keys| => Candle(keys[i], rows[keys[i]]));
    assert forall ts :: ts in rows <==> ts in keys;
  }

  lemma {:induction false} DatesAreKeys(f: Frame)
    ensures forall ts :: ts in RowsOf(f) <==> exists i :: 0 <= i < |f| && f[i].date == ts
  {
    if f != [] {
      var front := f[..|f| - 1];
      DatesAreKeys(front);
      forall ts
        ensures ts in RowsOf(f) <==> exists i :: 0 <= i < |f| && f[i].date == ts
      {
        if ts in RowsOf(front) {
          var i :| 0 <= i < |front| && front[i].date == ts;
          assert f[i].date == ts;
        }
        if i :| 0 <= i < |f| && f[i].date == ts {
          assert i < |front| ==> front[i].date == ts;
        }
        assert f[|f| - 1].date in RowsOf(f);
      }
    }
  }

  /** The last date of a frame built by date is its greatest. */
  lemma LastIsGreatest(rows: map<int, Bar>, ts: int)
    requires ts in rows
    ensures FrameOf(rows) != [] && ts <= LastDate(FrameOf(rows)) && LastDate(FrameOf(rows)) in rows
  {
    var keys := Sorted(rows.Keys);
    assert forall i :: 0 <= i < |keys| ==> keys[i] in keys;
    SortedAscends(rows.Keys);
    var i :| 0 <= i < |keys| && keys[i] == ts;
  }

  lemma MergedKeepsDates(current: Frame, refreshed: Frame)
    requires current != []
    ensures var merged := FrameOf(RowsOf(current) + RowsOf(refreshed));
      merged != [] && RowsOf(current).Keys <= RowsOf(merged).Keys && LastDate(merged) >= LastDate(current)
  {
    RowsOfFrameOf(RowsOf(current) + RowsOf(refreshed));
    LastIsGreatest(RowsOf(current) + RowsOf(refreshed), LastDate(current));
  }

  lemma NewestNotOlder(hist: History, current: Frame, requestStart: int)
    requires Installed(hist, current) && ClosedFrom(hist, requestStart) != map[]
    ensures FrameOf(ClosedFrom(hist, requestStart)) != []
    ensures LastDate(FrameOf(ClosedFrom(hist, requestStart))) >= LastDate(current)
  {
    var closed, b := ClosedFrom(hist, requestStart), LastDate(current);
    assert b in RowsOf(current);
    if b in closed {
      LastIsGreatest(closed, b);
    } else {
      var ts :| ts in closed;
      LastIsGreatest(closed, ts);
    }
  }

  lemma {:induction false} SpacedDates(f: Frame, i: nat, j: nat)
    requires Spaced(f) && i <= j < |f|
    ensures f[j].date == f[i].date + (j - i) * INTERVAL
    decreases j - i
  {
    if i < j {
      SpacedDates(f, i, j - 1);
    }
  }

  /** In a gap-free frame every date but the last is followed by the next one. */
  lemma NextDatePresent(rows: map<int, Bar>, x: int, y: int)
    requires Spaced(FrameOf(rows)) && x in rows && y in rows && x < y
    ensures x + INTERVAL in rows
  {
    RowsOfFrameOf(rows);
    var f := FrameOf(rows);
    DatesAreKeys(f);
    hide FrameOf, RowsOf;
    var i :| 0 <= i < |f| && f[i].date == x;
    var j :| 0 <= j < |f| && f[j].date == y;
    if i < j {
      assert f[i + 1].date == x + INTERVAL;
    } else {
      SpacedDates(f, j, i);
      assert false;
    }
  }

  lemma GridStep(b: int, ts: int)
    requires Aligned(b) && Aligned(ts) && b < ts
    ensures b + INTERVAL <= ts
  {
  }

  /** No candle lies strictly between the installed frame and the requested start. */
  lemma NothingSkipped(hist: History, current: Frame, requestStart: int, ts: int)
    requires OnGrid(hist) && Installed(hist, current) && ts in hist
    requires ClosedFrom(hist, requestStart) != map[]
    requires Spaced(FrameOf(RowsOf(current) + ClosedFrom(hist, requestStart)))
    ensures ts <= LastDate(current) || requestStart <= ts
  {
    var closed, b := ClosedFrom(hist, requestStart), LastDate(current);
    var later :| later in closed;
    assert b in RowsOf(current) && b in hist;
    if b < ts && b < later {
      hide FrameOf, RowsOf;
      NextDatePresent(RowsOf(current) + closed, b, later);
      assert b + INTERVAL in closed;
      GridStep(b, ts);
    }
  }

  lemma MergeCompletesHistory(hist: History, current: Frame, requestStart: int)
    requires OnGrid(hist) && Installed(hist, current)
    requires ClosedFrom(hist, requestStart) != map[]
    requires Spaced(FrameOf(RowsOf(current) + ClosedFrom(hist, requestStart)))
    ensures RowsOf(current) + ClosedFrom(hist, requestStart)
         == ClosedFrom(hist, Earlier(current[0].date, requestStart))
  {
    var closed, a, b := ClosedFrom(hist, requestStart), current[0].date, LastDate(current);
    SpacedDates(current, 0, |current| - 1);
    forall ts | ts in hist
      ensures ts <= b || requestStart <= ts
    {
      NothingSkipped(hist, current, requestStart, ts);
    }
    hide Spaced, FrameOf, RowsOf, OnGrid;
    JoinRanges(hist, RowsOf(current), a, b, requestStart);
  }

  lemma JoinRanges(hist: History, rows: map<int, Bar>, a: int, b: int, requestStart: int)
    requires rows == ClosedWithin(hist, a, b)
    requires forall ts :: ts in hist ==> ts <= b || requestStart <= ts
    requires a <= b
    ensures rows + ClosedFrom(hist, requestStart) == ClosedFrom(hist, Earlier(a, requestStart))
  {
    var merged, goal := rows + ClosedFrom(hist, requestStart), ClosedFrom(hist, Earlier(a, requestStart));
    assert forall ts :: ts in merged <==> ts in goal;
    assert merged.Keys == goal.Keys;
  }

  // --------------------------------------------- what a refresh gives, and when

  /** Refreshing the installed frame against this history begins where the frame begins. */
  ghost predicate StartsAtInstalled(hist: History, f: Frame, start: int)
    requires f != []
  {
    FrameOf(ClosedFrom(hist, Earlier(f[0].date, RequestStart(Some(f), start)))) == FrameOf(ClosedFrom(hist, f[0].date))
  }

  /** It does so exactly when no closed candle lies between the requested start and the frame. */
  lemma StartsAtInstalledWithoutOlder(hist: History, f: Frame, start: int)
    requires f != []
    ensures StartsAtInstalled(hist, f, start)
      <==> forall ts :: ts in hist && hist[ts].closed && RequestStart(Some(f), start) <= ts ==> f[0].date <= ts
  {
    hide FrameOf, RowsOf, Spaced;
    var a, from := f[0].date, RequestStart(Some(f), start);
    var wide, narrow := ClosedFrom(hist, Earlier(a, from)), ClosedFrom(hist, a);
    RowsOfFrameOf(wide);
    RowsOfFrameOf(narrow);
    if forall ts :: ts in hist && hist[ts].closed && from <= ts ==> a <= ts {
      assert forall ts :: ts in wide <==> ts in narrow;
      assert wide.Keys == narrow.Keys;
    } else {
      var ts :| ts in hist && hist[ts].closed && from <= ts < a;
      assert ts in wide && ts !in narrow;
    }
  }

  /** Whatever history the frame comes from, a successful refresh starts at the frame. */
  ghost predicate AlwaysStartsAtInstalled(f: Frame, start: int)
    requires f != []
  {
    forall hist: History :: OnGrid(hist) && Installed(hist, f) && Refreshable(hist, f, start) ==>
      StartsAtInstalled(hist, f, start)
  }

  /**
   * A frame shorter than the overlap can be extended backwards: every successful
   * refresh starts at the stored frame exactly when the frame covers the overlap or
   * the caller's start is later than one candle before the frame.
   */
  lemma RefreshStartsAtInstalledExactlyWhen(f: Frame, start: int)
    requires ValidFrame(f) && Aligned(f[0].date)
    ensures AlwaysStartsAtInstalled(f, start) <==> |f| > 72 || f[0].date - 300000 < start
  {
    hide StartsAtInstalled, Installed, Refreshable, OnGrid, Spaced;
    RequestIsLateExactlyWhen(f, start);
    if f[0].date - INTERVAL < RequestStart(Some(f), start) {
      forall hist: History | OnGrid(hist) && Installed(hist, f)
        ensures StartsAtInstalled(hist, f, start)
      {
        NoOlderCandle(hist, f, start);
      }
    } else {
      var hist := WithOlderCandle(RowsOf(f), f[0].date, f[0].bar);
      OlderCandleRefreshes(f, start);
      assert OnGrid(hist) && Installed(hist, f) && Refreshable(hist, f, start) && !StartsAtInstalled(hist, f, start);
    }
  }

  lemma RequestIsLateExactlyWhen(f: Frame, start: int)
    requires ValidFrame(f)
    ensures f[0].date - INTERVAL < RequestStart(Some(f), start)
      <==> |f| > 72 || f[0].date - 300000 < start
  {
    SpacedDates(f, 0, |f| - 1);
  }

  lemma NoOlderCandle(hist: History, f: Frame, start: int)
    requires OnGrid(hist) && Installed(hist, f) && f[0].date - INTERVAL < RequestStart(Some(f), start)
    ensures StartsAtInstalled(hist, f, start)
  {
    hide FrameOf, Spaced;
    StartsAtInstalledWithoutOlder(hist, f, start);
    FirstIsPresent(hist, f);
    hide RowsOf, Installed;
    forall ts | ts in hist && hist[ts].closed && RequestStart(Some(f), start) <= ts
      ensures f[0].date <= ts
    {
      if ts < f[0].date {
        GridStep(ts, f[0].date);
      }
    }
  }

  lemma FirstIsPresent(hist: History, f: Frame)
    requires OnGrid(hist) && Installed(hist, f)
    ensures Aligned(f[0].date)
  {
    DatesAreKeys(f);
    assert f[0].date in RowsOf(f);
  }

  /** Some rows from a time on, and one closed candle right before it. */
  ghost function WithOlderCandle(rows: map<int, Bar>, a: int, bar: Bar): History {
    var all := rows[a - INTERVAL := bar];
    map ts | ts in all :: Record(true, all[ts])
  }

  lemma RowsLieWithin(f: Frame, ts: int)
    requires ValidFrame(f) && ts in RowsOf(f)
    ensures f[0].date <= ts <= LastDate(f)
    ensures Aligned(f[0].date) ==> Aligned(ts)
  {
    DatesAreKeys(f);
    hide RowsOf;
    var i :| 0 <= i < |f| && f[i].date == ts;
    SpacedDates(f, 0, i);
    SpacedDates(f, i, |f| - 1);
    GridMultiple(f[0].date, i);
  }

  lemma GridMultiple(b: int, i: nat)
    ensures Aligned(b) ==> Aligned(b + i * INTERVAL)
  {
  }

  /** The dates of a gap-free frame have no gap. */
  lemma FrameIsGapFree(f: Frame)
    requires Spaced(f)
    ensures GapFree(RowsOf(f).Keys)
  {
    DatesAreKeys(f);
    hide RowsOf;
    forall x, y | x in RowsOf(f) && y in RowsOf(f) && x < y
      ensures Follows(RowsOf(f).Keys, x, y)
    {
      var i :| 0 <= i < |f| && f[i].date == x;
      var j :| 0 <= j < |f| && f[j].date == y;
      if i < j {
        SpacedDates(f, i + 1, j);
        assert f[i + 1].date == x + INTERVAL;
      } else {
        SpacedDates(f, j, i);
        assert false;
      }
    }
  }

  lemma OlderCandleJoins(rows: map<int, Bar>, a: int, b: int, bar: Bar, from: int)
    requires a in rows && forall ts :: ts in rows ==> a <= ts <= b
    requires GapFree(rows.Keys) && from <= a - INTERVAL
    ensures var hist := WithOlderCandle(rows, a, bar); var closed := ClosedFrom(hist, from);
      && rows == ClosedWithin(hist, a, b)
      && a - INTERVAL in hist && hist[a - INTERVAL].closed
      && closed != map[] && rows + closed == closed && GapFree(closed.Keys)
  {
    var hist, older := WithOlderCandle(rows, a, bar), a - INTERVAL;
    assert rows == ClosedWithin(hist, a, b);
    var closed := ClosedFrom(hist, from);
    assert closed == rows[older := bar];
    forall x, y | x in closed && y in closed && x < y
      ensures Follows(closed.Keys, x, y)
    {
      if x != older {
        assert Follows(rows.Keys, x, y);
      }
    }
  }

  lemma OlderCandleOnGrid(rows: map<int, Bar>, a: int, bar: Bar)
    requires Aligned(a) && forall ts :: ts in rows ==> Aligned(ts)
    ensures OnGrid(WithOlderCandle(rows, a, bar))
  {
    GridBefore(a);
  }

  lemma OlderCandleRefreshes(f: Frame, start: int)
    requires ValidFrame(f) && Aligned(f[0].date) && RequestStart(Some(f), start) <= f[0].date - INTERVAL
    ensures var hist := WithOlderCandle(RowsOf(f), f[0].date, f[0].bar);
      OnGrid(hist) && Installed(hist, f) && Refreshable(hist, f, start) && !StartsAtInstalled(hist, f, start)
  {
    hide Spaced, FrameOf, RowsOf, Aligned, OnGrid, WithOlderCandle, ClosedFrom, ClosedWithin, GapFree, StartsAtInstalled;
    var rows, a, from := RowsOf(f), f[0].date, RequestStart(Some(f), start);
    DatesAreKeys(f);
    forall ts | ts in rows
      ensures a <= ts <= LastDate(f) && Aligned(ts)
    {
      RowsLieWithin(f, ts);
    }
    FrameIsGapFree(f);
    OlderCandleOnGrid(rows, a, f[0].bar);
    OlderCandleJoins(rows, a, LastDate(f), f[0].bar, from);
    var hist := WithOlderCandle(rows, a, f[0].bar);
    SpacedExactlyWhen(ClosedFrom(hist, from));
    StartsAtInstalledWithoutOlder(hist, f, start);
  }

  lemma GridBefore(b: int)
    requires Aligned(b)
    ensures Aligned(b - INTERVAL)
  {
  }

  /** One stored candle and an early start: the refreshed frame begins before it. */
  lemma ShortFrameGrowsBackwards()
    ensures var bar := Bar(1.0, 1.0, 1.0, 1.0, 1.0);
      var hist: History := map[0 := Record(true, bar), INTERVAL := Record(true, bar)];
      var current := [Candle(INTERVAL, bar)];
      && Installed(hist, current) && OnGrid(hist) && Refreshable(hist, current, 0)
      && Earlier(current[0].date, RequestStart(Some(current), 0)) == 0
      && FrameOf(ClosedFrom(hist, 0)) == [Candle(0, bar), Candle(INTERVAL, bar)]
  {
    hide FrameOf, RowsOf;
    var bar := Bar(1.0, 1.0, 1.0, 1.0, 1.0);
    var hist: History := map[0 := Record(true, bar), INTERVAL := Record(true, bar)];
    var current := [Candle(INTERVAL, bar)];
    SingleRow(current[0]);
    var closed := ClosedFrom(hist, 0);
    assert closed == map[0 := bar, INTERVAL := bar];
    assert RowsOf(current) + closed == closed;
    TwoRowFrame(closed, 0, INTERVAL);
  }

  lemma SingleRow(c: Candle)
    ensures RowsOf([c]) == map[c.date := c.bar]
  {
    assert [c][..0] == [];
  }

  lemma TwoRowFrame(rows: map<int, Bar>, x: int, y: int)
    requires x < y && rows.Keys == {x, y}
    ensures FrameOf(rows) == [Candle(x, rows[x]), Candle(y, rows[y])]
  {
    SortedAscends(rows.Keys);
    AscendingUnique(Sorted(rows.Keys), [x, y]);
  }

  /** Dates five minutes apart, as a property of the set of dates. */
  ghost predicate GapFree(dates: set<int>) {
    forall x, y {:trigger Follows(dates, x, y)} :: x in dates && y in dates && x < y ==> Follows(dates, x, y)
  }

  /** The date after x comes no later than y and is present. */
  ghost predicate Follows(dates: set<int>, x: int, y: int) {
    x + 300000 <= y && x + 300000 in dates
  }

  lemma SpacedExactlyWhen(rows: map<int, Bar>)
    ensures Spaced(FrameOf(rows)) <==> GapFree(rows.Keys)
  {
    if Spaced(FrameOf(rows)) {
      forall x, y | x in rows && y in rows && x < y
        ensures Follows(rows.Keys, x, y)
      {
        SpacedOrder(rows, x, y);
        NextDatePresent(rows, x, y);
      }
    }
    if GapFree(rows.Keys) {
      GapFreeIsSpaced(rows);
    }
  }

  lemma SpacedOrder(rows: map<int, Bar>, x: int, y: int)
    requires Spaced(FrameOf(rows)) && x in rows && y in rows && x < y
    ensures x + INTERVAL <= y
  {
    RowsOfFrameOf(rows);
    var f := FrameOf(rows);
    DatesAreKeys(f);
    hide FrameOf, RowsOf;
    var i :| 0 <= i < |f| && f[i].date == x;
    var j :| 0 <= j < |f| && f[j].date == y;
    if i < j {
      SpacedDates(f, i + 1, j);
    } else {
      SpacedDates(f, j, i);
      assert false;
    }
  }

  lemma GapFreeIsSpaced(rows: map<int, Bar>)
    requires GapFree(rows.Keys)
    ensures Spaced(FrameOf(rows))
  {
    var keys := Sorted(rows.Keys);
    SortedAscends(rows.Keys);
    forall i | 0 < i < |keys|
      ensures keys[i] - keys[i - 1] == INTERVAL
    {
      NeighboursFollow(rows.Keys, keys, i);
    }
    assert forall i :: 0 <= i < |keys| ==> keys[i] in keys;
  }

  lemma NeighboursFollow(dates: set<int>, keys: seq<int>, i: nat)
    requires GapFree(dates) && Ascending(keys) && 0 < i < |keys|
    requires forall x :: x in keys <==> x in dates
    ensures keys[i] - keys[i - 1] == INTERVAL
  {
    assert keys[i - 1] in keys && keys[i] in keys;
    assert Follows(dates, keys[i - 1], keys[i]);
    assert keys[i - 1] + INTERVAL in keys;
    var k :| 0 <= k < |keys| && keys[k] == keys[i - 1] + INTERVAL;
    assert k > i - 1;
  }

  /**
   * When the closed history has no gap, a refresh succeeds exactly when the start
   * lies within the installed frame, or at most at the candle after it once that
   * candle is closed.
   */
  lemma {:induction false} RefreshableExactlyWhen(hist: History, current: Frame, start: int)
    requires OnGrid(hist) && Installed(hist, current)
    requires Spaced(FrameOf(ClosedFrom(hist, Earlier(current[0].date, RequestStart(Some(current), start)))))
    ensures var next := LastDate(current) + INTERVAL;
      Refreshable(hist, current, start)
      <==> start <= LastDate(current) || (start <= next && next in hist && hist[next].closed)
  {
    hide Spaced, FrameOf, RowsOf, ClosedFrom, ClosedWithin, OnGrid, Joins;
    var a, b, from := current[0].date, LastDate(current), RequestStart(Some(current), start);
    InstalledEnds(hist, current);
    JoinsExactlyWhen(hist, RowsOf(current), a, b, from);
  }

  lemma JoinsExactlyWhen(hist: History, rows: map<int, Bar>, a: int, b: int, from: int)
    requires OnGrid(hist) && a <= b && b in rows && rows == ClosedWithin(hist, a, b)
    requires Spaced(FrameOf(ClosedFrom(hist, Earlier(a, from))))
    ensures Joins(rows, ClosedFrom(hist, from))
      <==> from <= b || (from <= b + INTERVAL && b + INTERVAL in hist && hist[b + INTERVAL].closed)
  {
    var closed := ClosedFrom(hist, from);
    SpacedExactlyWhen(closed);
    SpacedExactlyWhen(ClosedFrom(hist, Earlier(a, from)));
    SpacedExactlyWhen(rows + closed);
    hide Spaced, FrameOf;
    DatesJoinExactlyWhen(hist, rows, a, b, from);
  }

  lemma InstalledEnds(hist: History, current: Frame)
    requires OnGrid(hist) && Installed(hist, current)
    ensures LastDate(current) in RowsOf(current) && LastDate(current) in hist && hist[LastDate(current)].closed
    ensures current[0].date <= LastDate(current)
    ensures RowsOf(current) == ClosedWithin(hist, current[0].date, LastDate(current))
  {
    SpacedDates(current, 0, |current| - 1);
  }

  lemma DatesJoinExactlyWhen(hist: History, rows: map<int, Bar>, a: int, b: int, from: int)
    requires OnGrid(hist) && a <= b && b in rows
    requires rows == ClosedWithin(hist, a, b)
    requires GapFree(ClosedFrom(hist, Earlier(a, from)).Keys)
    ensures var closed, next := ClosedFrom(hist, from), b + INTERVAL;
      closed != map[] && GapFree(closed.Keys) && GapFree((rows + closed).Keys)
      <==> from <= b || (from <= next && next in hist && hist[next].closed)
  {
    var closed, whole, next := ClosedFrom(hist, from), ClosedFrom(hist, Earlier(a, from)), b + INTERVAL;
    forall x, y | x in closed && y in closed && x < y
      ensures Follows(closed.Keys, x, y)
    {
      assert Follows(whole.Keys, x, y);
    }
    if from <= next {
      forall ts | ts in hist
        ensures ts <= b || from <= ts
      {
        if b < ts {
          GridStep(b, ts);
        }
      }
      JoinRanges(hist, rows, a, b, from);
      if from <= b {
        assert b in closed;
      } else if closed != map[] {
        var later :| later in closed;
        assert Follows(whole.Keys, b, later);
      } else {
        assert next !in closed;
      }
    } else if closed != map[] {
      var later :| later in closed;
      var joined := (rows + closed).Keys;
      assert b in joined && later in joined && next !in joined;
      assert !Follows(joined, b, later);
    }
  }
}
