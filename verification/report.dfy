/**
 * `build_html`: the HTML report, as a logical view (`ReportOf`) of what the
 * page shows and a rendering (`Render`) of that view, and the method that
 * grows the page with `+=` as the source does.
 */
module Report {
  import opened Wrappers
  import opened PyText
  import opened Details
  import opened Screenshots

  /** One of the four summary tiles. */
  datatype Kpi = Kpi(caption: string, value: int)

  /** A screenshot: its path relative to the report, and its file name. */
  datatype Image = Image(src: string, alt: string)

  /** A row of the details table. */
  datatype Row =
    | TestRow(name: string, suite: string, color: string, status: string, failure: Option<string>)
    | ShotRow(colspan: nat, images: seq<Image>, more: nat)

  /** The details card. */
  datatype Table = Table(note: string, columns: seq<string>, rows: seq<Row>)

  /** What the page shows. */
  datatype Report = Report(title: string, kpis: seq<Kpi>, source: string, table: Option<Table>, chart: seq<int>)

  /** Where the screenshots are and which test has which. */
  datatype Gallery = Gallery(dir: string, index: Index)

  /** At most this many screenshots are shown per test. */
  const ShotLimit: nat := 10

  const NoteWithShots := "Screenshots included below when available."
  const NoteWithoutShots := "Best-effort list of tests discovered in the xcresult summary. Screenshots and other rich attachments are not included."

  /** The colour of a status cell. */
  function StatusColor(status: string): string {
    if status == "Failed" then "#ef4444" else if status == "Passed" then "#22c55e" else "#f59e0b"
  }

  /** Some detail has a non-empty failure text. */
  predicate HasFailures(ds: seq<Detail>) {
    exists i | 0 <= i < |ds| :: ds[i].failure != ""
  }

  /** The table header. */
  function Columns(hasFailures: bool): seq<string> {
    ["Test", "Suite", "Status"] + if hasFailures then ["Failure"] else []
  }

  /** The row of a detail. */
  function TestRowOf(d: Detail, hasFailures: bool): Row {
    TestRow(d.name, d.suite, StatusColor(d.status), d.status, if hasFailures then Some(d.failure) else None)
  }

  /** The images of a list of file names in the screenshot directory. */
  function ImagesOf(dir: string, files: seq<string>): (r: seq<Image>)
    ensures |r| == |files|
    ensures forall i | 0 <= i < |files| :: r[i] == Image(dir + "/" + files[i], files[i])
  {
    if files == [] then []
    else ImagesOf(dir, files[..|files| - 1]) + [Image(dir + "/" + files[|files| - 1], files[|files| - 1])]
  }

  /** The screenshot row of a test with a non-empty list of screenshots. */
  function ShotRowOf(dir: string, files: seq<string>, colspan: nat): Row {
    var shown := if |files| < ShotLimit then files else files[..ShotLimit];
    ShotRow(colspan, ImagesOf(dir, shown), if |files| > ShotLimit then |files| - ShotLimit else 0)
  }

  /** The rows one detail contributes: its own row, then its screenshots if it has any. */
  function ItemRows(d: Detail, hasFailures: bool, gallery: Option<Gallery>): seq<Row> {
    [TestRowOf(d, hasFailures)] +
    if gallery.None? then []
    else
      var files := FindShots(gallery.value.index, d.testId);
      if files == [] then [] else [ShotRowOf(gallery.value.dir, files, if hasFailures then 4 else 3)]
  }

  /** The rows of the details table, detail by detail. */
  function RowsOf(ds: seq<Detail>, hasFailures: bool, gallery: Option<Gallery>): seq<Row> {
    if ds == [] then []
    else RowsOf(ds[..|ds| - 1], hasFailures, gallery) + ItemRows(ds[|ds| - 1], hasFailures, gallery)
  }

  /** The gallery `build_html` uses: only with a non-empty directory and a non-empty map. */
  function GalleryOf(dir: Option<string>, shots: Option<Index>): Option<Gallery> {
    if dir.Some? && dir.value != "" && shots.Some? && shots.value != [] then Some(Gallery(dir.value, shots.value))
    else None
  }

  /** The details card for a non-empty list of details. */
  function TableOf(ds: seq<Detail>, gallery: Option<Gallery>): Table {
    var hasFailures := HasFailures(ds);
    Table(if gallery.Some? then NoteWithShots else NoteWithoutShots, Columns(hasFailures), RowsOf(ds, hasFailures, gallery))
  }

  /** What `build_html` puts on the page; None and an empty list of details both give no card. */
  function ReportOf(passed: int, failed: int, skipped: int, source: string, title: string,
                    details: Option<seq<Detail>>, dir: Option<string>, shots: Option<Index>): Report
  {
    Report(
      title,
      [Kpi("Total", passed + failed + skipped), Kpi("Passed", passed), Kpi("Failed", failed), Kpi("Skipped", skipped)],
      source,
      if details.Some? && details.value != [] then Some(TableOf(details.value, GalleryOf(dir, shots))) else None,
      [passed, failed, skipped])
  }

  // The page text. The pieces are cut where the source interpolates a value.

  const DocOpen := "<!doctype html>\n<html lang=\"en\">\n<head>\n  <meta charset=\"utf-8\" />\n  <title>"
  const TitleClose := "</title>\n  <meta name=\"viewport\" content=\"width=device-width, initial-scale=1\" />\n  <meta name=\"color-scheme\" content=\"dark\" />\n  <style>\n"
  /**
   * Stands for the rules of the page's `<style>` element, which the model
   * leaves out: no value is interpolated into them and no property here
   * depends on them.
   */
  const Stylesheet := ""
  const BodyOpen := "  </style>\n</head>\n<body>\n  <div class=\"card\">\n    <h1>"
  const CardIntro := "</h1>\n    <div class=\"meta\">This report is intended to be a quick overview of the test results. For detailed test results, please view the original xcresult bundle.</div>\n    <div class=\"grid\">\n"
  const KpiOpen := "      <div class=\"kpi\"><div class=\"label\">"
  const KpiMiddle := "</div><div class=\"value\">"
  const KpiClose := "</div></div>\n"
  const SourceLead := "    </div>\n    <canvas id=\"pie\" width=\"520\" height=\"320\"></canvas>\n    <div class=\"small\">Source: "
  const SummaryClose := "</div>\n  </div>"
  const TableLead := "\n  <div class=\"card\" style=\"margin-top:24px;\">\n    <h2>Test details</h2>\n    <p class=\"meta\">"
  const TableHead := "</p>\n    <table style=\"width:100%; border-collapse:collapse; font-size:13px;\">\n      <thead>\n        <tr>"
  const HeaderCellOpen := "\n          <th style=\"text-align:left; border-bottom:1px solid #404040; padding:6px;\">"
  const HeaderCellClose := "</th>"
  const HeadClose := "\n        </tr>\n      </thead>\n      <tbody>\n"
  const CellOpen := "</td>\n          <td style=\"border-bottom:1px solid #404040; padding:4px 6px;\">"
  const RowOpen := "        <tr>\n          <td style=\"border-bottom:1px solid #404040; padding:4px 6px;\">"
  const StatusOpen := "</td>\n          <td style=\"border-bottom:1px solid #404040; padding:4px 6px; color:"
  const StatusMiddle := "; font-weight:bold;\">"
  const FailureOpen := "\n          <td style=\"border-bottom:1px solid #404040; padding:4px 6px; font-size:12px; color:#9ca3af;\">"
  const RowClose := "\n        </tr>\n"
  const GalleryOpenLead := "        <tr>\n          <td colspan=\""
  const GalleryOpenTail := "\" style=\"border-bottom:1px solid #404040; padding:8px 6px; background:#1f1f1f;\">\n            <div style=\"font-size:11px; color:#9ca3af; margin-bottom:4px;\">Screenshots</div>\n            <div style=\"display:flex; flex-wrap:wrap; gap:8px;\">"
  const GalleryClose := "</div>\n          </td>\n        </tr>\n"
  const TableClose := "      </tbody>\n    </table>\n  </div>\n"
  /**
   * The chart script around its data list: the Chart.js include and the
   * script up to the list, then everything after the list through the end
   * of the document, footer included.
   */
  const ChartLead := "\n  <script src=\"https://cdn.jsdelivr.net/npm/chart.js\"></script>\n  <script>\n    Chart.defaults.color = '#d1d5db';\n    Chart.defaults.borderColor = '#404040';\n    const ctx = document.getElementById('pie');\n    new Chart(ctx, {\n      type: 'pie',\n      data: {\n        labels: ['Passed', 'Failed', 'Skipped'],\n        datasets: [{ data: "
  const ChartClose := "],\n          backgroundColor: ['#22c55e', '#ef4444', '#f59e0b'],\n          borderColor: '#2b2b2b',\n          borderWidth: 2 }]\n      },\n      options: {\n        responsive: true,\n        plugins: { legend: { position: 'bottom', labels: { color: '#d1d5db' } }, title: { display: false } }\n      }\n    });\n  </script>\n  <hr style=\"border: none; border-top: 1px solid #404040; margin: 24px 0 0 0;\" />\n  <br /><br /><br />\n  <p style=\"color: #6b7280; font-size: 12px; margin: 0;\">This was built with passion</p>\n</body>\n</html>\n"

  function KpiLine(k: Kpi): string {
    KpiOpen + k.caption + KpiMiddle + IntText(k.value) + KpiClose
  }

  function HeaderCell(column: string): string {
    HeaderCellOpen + column + HeaderCellClose
  }

  function Cells(name: string, suite: string, color: string, status: string): string {
    RowOpen + name + CellOpen + suite + StatusOpen + color + StatusMiddle + status + "</td>"
  }

  function FailureCell(failure: string): string {
    FailureOpen + failure + "</td>"
  }

  function GalleryOpen(colspan: nat): string {
    GalleryOpenLead + NatText(colspan) + GalleryOpenTail
  }

  function ImageTag(image: Image): string {
    "<img src=\"" + image.src + "\" alt=\"" + image.alt
      + "\" style=\"max-width:280px; max-height:200px; border:1px solid #404040; border-radius:4px;\" />"
  }

  function MoreNote(more: int): string {
    "<span style=\"font-size:12px; color:#9ca3af;\">+" + IntText(more) + " more</span>"
  }

  /** The texts of a list of items, one after the other. */
  function Concat<T>(items: seq<T>, text: T -> string): string {
    if items == [] then "" else Concat(items[..|items| - 1], text) + text(items[|items| - 1])
  }

  function RenderRow(row: Row): string {
    match row
    case TestRow(name, suite, color, status, failure) =>
      Cells(name, suite, color, status) + (if failure.Some? then FailureCell(failure.value) else "") + RowClose
    case ShotRow(colspan, images, more) =>
      GalleryOpen(colspan) + Concat(images, ImageTag) + (if more > 0 then MoreNote(more) else "") + GalleryClose
  }

  function RenderTable(t: Table): string {
    TableLead + t.note + TableHead + Concat(t.columns, HeaderCell) + HeadClose + Concat(t.rows, RenderRow) + TableClose
  }

  /** The chart data as the script literal writes it: `p, f, s`. */
  function JoinInts(xs: seq<int>): string {
    if xs == [] then ""
    else if |xs| == 1 then IntText(xs[0])
    else JoinInts(xs[..|xs| - 1]) + ", " + IntText(xs[|xs| - 1])
  }

  /** Everything before the chart data. */
  function Page(r: Report): string {
    Summary(r) + (if r.table.Some? then RenderTable(r.table.value) else "") + ChartLead
  }

  /** The head of the page and the summary card. */
  function Summary(r: Report): string {
    DocOpen + r.title + TitleClose + Stylesheet + BodyOpen + r.title + CardIntro
      + Concat(r.kpis, KpiLine) + SourceLead + r.source + SummaryClose
  }

  /** The page text. */
  function Render(r: Report): string {
    Page(r) + "[" + JoinInts(r.chart) + ChartClose
  }

  /** The text of two spliced lists is the text of the first, then that of the second. */
  lemma {:induction false} ConcatAppend<T>(a: seq<T>, b: seq<T>, text: T -> string)
    ensures Concat(a + b, text) == Concat(a, text) + Concat(b, text)
    decreases |b|
  {
    if b == [] {
      assert a + b == a;
    } else {
      var b' := b[..|b| - 1];
      assert (a + b)[..|a + b| - 1] == a + b';
      assert (a + b)[|a + b| - 1] == b[|b| - 1];
      ConcatAppend(a, b', text);
    }
  }

  /** The test rows of a table, in order. */
  function TestRowsIn(rows: seq<Row>): seq<Row> {
    if rows == [] then []
    else TestRowsIn(rows[..|rows| - 1]) + if rows[|rows| - 1].TestRow? then [rows[|rows| - 1]] else []
  }

  /** The test rows of two spliced lists of rows are those of the first, then those of the second. */
  lemma {:induction false} TestRowsInAppend(a: seq<Row>, b: seq<Row>)
    ensures TestRowsIn(a + b) == TestRowsIn(a) + TestRowsIn(b)
    decreases |b|
  {
    if b == [] {
      assert a + b == a;
    } else {
      var b' := b[..|b| - 1];
      assert (a + b)[..|a + b| - 1] == a + b';
      assert (a + b)[|a + b| - 1] == b[|b| - 1];
      TestRowsInAppend(a, b');
    }
  }

  /** A detail contributes exactly its own test row. */
  lemma TestRowsInItem(d: Detail, hasFailures: bool, gallery: Option<Gallery>)
    ensures TestRowsIn(ItemRows(d, hasFailures, gallery)) == [TestRowOf(d, hasFailures)]
  {
    var item := ItemRows(d, hasFailures, gallery);
    var t := TestRowOf(d, hasFailures);
    assert TestRowsIn([t]) == [t] by {
      assert [t][..0] == [];
    }
    if |item| == 2 {
      assert item[..1] == [t];
      assert item[1].ShotRow?;
    } else {
      assert item == [t];
    }
  }

  /** The rows of one detail: its test row, then at most one screenshot row spanning the table. */
  lemma ItemRowsShape(d: Detail, hasFailures: bool, gallery: Option<Gallery>)
    ensures var item := ItemRows(d, hasFailures, gallery);
      && 1 <= |item| <= 2
      && item[0] == TestRowOf(d, hasFailures)
      && (|item| == 2 ==>
            && item[1].ShotRow?
            && item[1].colspan == (if hasFailures then 4 else 3)
            && |item[1].images| <= ShotLimit)
  {
    if gallery.Some? {
      var files := FindShots(gallery.value.index, d.testId);
      if files != [] {
        var row := ShotRowOf(gallery.value.dir, files, if hasFailures then 4 else 3);
        assert |row.images| <= ShotLimit;
      }
    }
  }

  /** The cells of each row agree with the header; a screenshot row follows a test row and shows at most ten images. */
  predicate RowsFit(rows: seq<Row>, hasFailures: bool) {
    && (forall i | 0 <= i < |rows| :: rows[i].TestRow? ==> (rows[i].failure.Some? <==> hasFailures))
    && (forall i | 0 <= i < |rows| :: rows[i].ShotRow? ==>
          && rows[i].colspan == (if hasFailures then 4 else 3)
          && |rows[i].images| <= ShotLimit
          && i > 0 && rows[i - 1].TestRow?)
  }

  /** A test row that fits the header, then at most one screenshot row that fits it, keep the rows fitting it. */
  lemma RowsFitSnoc(prev: seq<Row>, item: seq<Row>, hasFailures: bool)
    requires RowsFit(prev, hasFailures)
    requires 1 <= |item| <= 2 && item[0].TestRow? && (item[0].failure.Some? <==> hasFailures)
    requires |item| == 2 ==>
      && item[1].ShotRow?
      && item[1].colspan == (if hasFailures then 4 else 3)
      && |item[1].images| <= ShotLimit
    ensures RowsFit(prev + item, hasFailures)
  {
    var rows := prev + item;
    forall i | 0 <= i < |rows|
      ensures rows[i].TestRow? ==> (rows[i].failure.Some? <==> hasFailures)
      ensures rows[i].ShotRow? ==>
        && rows[i].colspan == (if hasFailures then 4 else 3)
        && |rows[i].images| <= ShotLimit
        && i > 0 && rows[i - 1].TestRow?
    {
      if i < |prev| {
        assert rows[i] == prev[i];
        if i > 0 {
          assert rows[i - 1] == prev[i - 1];
        }
      } else if i > |prev| {
        assert rows[i] == item[1] && rows[i - 1] == item[0];
      }
    }
  }

  /** Every row of the details table fits the header. */
  lemma {:induction false} RowsFitHeader(ds: seq<Detail>, hasFailures: bool, gallery: Option<Gallery>)
    ensures RowsFit(RowsOf(ds, hasFailures, gallery), hasFailures)
  {
    if ds != [] {
      var init, d := ds[..|ds| - 1], ds[|ds| - 1];
      RowsFitHeader(init, hasFailures, gallery);
      ItemRowsShape(d, hasFailures, gallery);
      RowsFitSnoc(RowsOf(init, hasFailures, gallery), ItemRows(d, hasFailures, gallery), hasFailures);
    }
  }

  /** The test rows of a list of details, one per detail, in order. */
  function TestRowsOf(ds: seq<Detail>, hasFailures: bool): (rows: seq<Row>)
    ensures |rows| == |ds|
    ensures forall k | 0 <= k < |ds| :: rows[k] == TestRowOf(ds[k], hasFailures)
  {
    if ds == [] then [] else TestRowsOf(ds[..|ds| - 1], hasFailures) + [TestRowOf(ds[|ds| - 1], hasFailures)]
  }

  /** The test rows of the details table are those of the details, in order. */
  lemma {:induction false} RowsTestOrder(ds: seq<Detail>, hasFailures: bool, gallery: Option<Gallery>)
    ensures TestRowsIn(RowsOf(ds, hasFailures, gallery)) == TestRowsOf(ds, hasFailures)
  {
    if ds != [] {
      var init, d := ds[..|ds| - 1], ds[|ds| - 1];
      RowsTestOrder(init, hasFailures, gallery);
      TestRowsInAppend(RowsOf(init, hasFailures, gallery), ItemRows(d, hasFailures, gallery));
      TestRowsInItem(d, hasFailures, gallery);
    }
  }

  /**
   * The table has one test row per detail, in the order of the details; every
   * test row has a failure cell exactly when the table has the Failure
   * column; every screenshot row directly follows a test row, spans the
   * whole table and shows at most ten images.
   */
  lemma RowsShape(ds: seq<Detail>, hasFailures: bool, gallery: Option<Gallery>)
    ensures var rows := RowsOf(ds, hasFailures, gallery);
      && |TestRowsIn(rows)| == |ds|
      && (forall k | 0 <= k < |ds| :: TestRowsIn(rows)[k] == TestRowOf(ds[k], hasFailures))
      && (forall i | 0 <= i < |rows| :: rows[i].TestRow? ==> (rows[i].failure.Some? <==> hasFailures))
      && (forall i | 0 <= i < |rows| :: rows[i].ShotRow? ==>
            && rows[i].colspan == (if hasFailures then 4 else 3)
            && |rows[i].images| <= ShotLimit
            && i > 0 && rows[i - 1].TestRow?)
  {
    RowsTestOrder(ds, hasFailures, gallery);
    RowsFitHeader(ds, hasFailures, gallery);
  }

  /**
   * The Failure column is there exactly when some detail has a failure text,
   * and screenshot rows span exactly the columns of the header.
   */
  lemma TableShape(ds: seq<Detail>, gallery: Option<Gallery>)
    ensures var t := TableOf(ds, gallery);
      && t.columns[..3] == ["Test", "Suite", "Status"]
      && (|t.columns| == 4 <==> HasFailures(ds))
      && (|t.columns| == 3 <==> !HasFailures(ds))
      && (t.note == NoteWithShots <==> gallery.Some?)
      && (forall i | 0 <= i < |t.rows| :: t.rows[i].TestRow? ==> (t.rows[i].failure.Some? <==> |t.columns| == 4))
      && (forall i | 0 <= i < |t.rows| :: t.rows[i].ShotRow? ==> t.rows[i].colspan == |t.columns|)
  {
    RowsShape(ds, HasFailures(ds), gallery);
  }

  /**
   * A screenshot row shows the first ten files (or all of them) in order, as
   * paths in the screenshot directory, and counts the rest in its note.
   */
  lemma ShotRowCounts(dir: string, files: seq<string>, colspan: nat)
    ensures var row := ShotRowOf(dir, files, colspan);
      && |row.images| == (if |files| < ShotLimit then |files| else ShotLimit)
      && |row.images| + row.more == |files|
      && (row.more > 0 <==> |files| > ShotLimit)
      && forall i | 0 <= i < |row.images| :: row.images[i] == Image(dir + "/" + files[i], files[i])
  {
  }

  /** The tiles show the total first and the chart shows passed, failed, skipped in that order. */
  lemma ReportSummary(passed: int, failed: int, skipped: int, source: string, title: string,
                      details: Option<seq<Detail>>, dir: Option<string>, shots: Option<Index>)
    ensures var r := ReportOf(passed, failed, skipped, source, title, details, dir, shots);
      && |r.kpis| == 4
      && r.kpis[0] == Kpi("Total", r.kpis[1].value + r.kpis[2].value + r.kpis[3].value)
      && r.kpis[1].caption == "Passed" && r.kpis[2].caption == "Failed" && r.kpis[3].caption == "Skipped"
      && r.chart == [r.kpis[1].value, r.kpis[2].value, r.kpis[3].value] == [passed, failed, skipped]
      && (r.table.Some? <==> details.Some? && details.value != [])
  {
  }

  /** The numbers of a comma-separated list, each parsed as `int()` does. */
  function ParseAll(pieces: seq<string>): (r: Option<seq<int>>)
    ensures r.Some? ==> |r.value| == |pieces|
  {
    if pieces == [] then Some([])
    else
      match ParseAll(pieces[..|pieces| - 1])
      case None => None
      case Some(xs) =>
        match ParseInt(pieces[|pieces| - 1])
        case None => None
        case Some(x) => Some(xs + [x])
  }

  /** The chart data read back from a page: the numbers between the last `[` and the script text that closes the document. */
  function ChartValues(html: string): Option<seq<int>> {
    ListBefore(html, ChartClose)
  }

  /** The comma-separated numbers between the last `[` and the text `close` that ends `html`. */
  function ListBefore(html: string, close: string): Option<seq<int>> {
    if !EndsWith(html, close) then None
    else ParseAll(Split(LastSegment(html[..|html| - |close|], '['), ','))
  }

  /** One more piece that parses adds its number at the end. */
  lemma ParseAllSnoc(pieces: seq<string>, piece: string, xs: seq<int>, x: int)
    requires ParseAll(pieces) == Some(xs) && ParseInt(piece) == Some(x)
    ensures ParseAll(pieces + [piece]) == Some(xs + [x])
  {
    assert (pieces + [piece])[..|pieces|] == pieces;
  }

  /** A written number contains no comma. */
  lemma IntTextNoComma(x: int)
    ensures ',' !in IntText(x)
  {
    var t := IntText(x);
    forall i | 0 <= i < |t|
      ensures t[i] != ','
    {
    }
  }

  /** A single written number parses back. */
  lemma ParseJoinOne(x: int)
    ensures ParseAll(Split(JoinInts([x]), ',')) == Some([x])
  {
    var t := IntText(x);
    assert JoinInts([x]) == t;
    assert Split(t, ',') == [t] by {
      IntTextNoComma(x);
      SplitNoSep(t, ',');
    }
    assert ParseInt(t) == Some(x) by {
      ParseIntText("", x);
      assert "" + t == t;
    }
    assert ParseAll([t]) == Some([x]) by {
      ParseAllSnoc([], t, [], x);
      assert [] + [t] == [t] && [] + [x] == [x];
    }
  }

  /** One more number is written after a comma and a space. */
  lemma JoinIntsSnoc(init: seq<int>, x: int)
    requires init != []
    ensures JoinInts(init + [x]) == JoinInts(init) + [','] + (" " + IntText(x))
  {
    var xs := init + [x];
    var a, t := JoinInts(init), IntText(x);
    assert xs[..|xs| - 1] == init && xs[|xs| - 1] == x;
    assert JoinInts(xs) == a + ", " + t;
    assert ", " == [','] + " ";
    Assoc(a, [','], " ");
    Assoc(a + [','], " ", t);
  }

  /** The pieces of the longer list are those of the shorter one and the new number's text. */
  lemma SplitSnoc(a: string, x: int)
    ensures Split(a + [','] + (" " + IntText(x)), ',') == Split(a, ',') + [" " + IntText(x)]
  {
    SplitAppend(a, ',', " " + IntText(x));
    IntTextNoComma(x);
    assert ',' !in " " + IntText(x);
    SplitNoSep(" " + IntText(x), ',');
  }

  /** Writing one more number adds one more piece that parses to it. */
  lemma ParseJoinStep(init: seq<int>, x: int)
    requires init != [] && ParseAll(Split(JoinInts(init), ',')) == Some(init)
    ensures ParseAll(Split(JoinInts(init + [x]), ',')) == Some(init + [x])
  {
    JoinIntsSnoc(init, x);
    SplitSnoc(JoinInts(init), x);
    assert AllBlank(NumberBlanks, " ");
    ParseIntText(" ", x);
    ParseAllSnoc(Split(JoinInts(init), ','), " " + IntText(x), init, x);
  }

  /** Parsing a written list of numbers gives the numbers back. */
  lemma {:induction false} ParseJoin(xs: seq<int>)
    requires xs != []
    ensures ParseAll(Split(JoinInts(xs), ',')) == Some(xs)
  {
    var init, x := xs[..|xs| - 1], xs[|xs| - 1];
    assert xs == init + [x];
    if init == [] {
      ParseJoinOne(x);
    } else {
      ParseJoin(init);
      ParseJoinStep(init, x);
    }
  }

  /** A written list of numbers contains no `[`. */
  lemma {:induction false} JoinIntsNoBracket(xs: seq<int>)
    ensures '[' !in JoinInts(xs)
  {
    if xs != [] {
      var t := IntText(xs[|xs| - 1]);
      assert '[' !in t by {
        forall i | 0 <= i < |t|
          ensures t[i] != '['
        {
        }
      }
      if |xs| > 1 {
        JoinIntsNoBracket(xs[..|xs| - 1]);
      }
    }
  }

  /** A text followed by a closing text ends with it, and removing it gives the text back. */
  lemma StripClose(body: string, close: string)
    ensures EndsWith(body + close, close)
    ensures (body + close)[..|body + close| - |close|] == body
  {
    assert (body + close)[|body|..] == close;
  }

  /** The text after the last `[` is the written list. */
  lemma LastBracketSegment(page: string, data: string)
    requires '[' !in data
    ensures LastSegment(page + "[" + data, '[') == data
  {
    assert page + "[" + data == page + ['['] + data;
    SplitAppend(page, '[', data);
    SplitNoSep(data, '[');
  }

  /** What is read back is the text between the last `[` and the closing text, cut at commas. */
  lemma ListBeforeData(page: string, data: string, close: string)
    requires '[' !in data
    ensures ListBefore(page + "[" + data + close, close) == ParseAll(Split(data, ','))
  {
    var body := page + "[" + data;
    var html := body + close;
    StripClose(body, close);
    LastBracketSegment(page, data);
  }

  /** The list read back from a page ending with a written list and a closing text. */
  lemma ListReadBack(page: string, xs: seq<int>, close: string)
    requires xs != []
    ensures ListBefore(page + "[" + JoinInts(xs) + close, close) == Some(xs)
  {
    JoinIntsNoBracket(xs);
    ListBeforeData(page, JoinInts(xs), close);
    ParseJoin(xs);
  }

  /** The chart data read back from a page ending with a written list and the closing script text. */
  lemma ChartReadBack(page: string, xs: seq<int>)
    requires xs != []
    ensures ChartValues(page + "[" + JoinInts(xs) + ChartClose) == Some(xs)
  {
    ListReadBack(page, xs, ChartClose);
  }

  /** The chart data read back from a rendered page is the report's chart. */
  lemma ChartRoundTrip(r: Report)
    requires r.chart != []
    ensures ChartValues(Render(r)) == Some(r.chart)
  {
    ChartReadBack(Page(r), r.chart);
  }

  /** The text that closes the chart data also closes the document. */
  lemma ChartCloseEndsDocument()
    ensures EndsWith(ChartClose, "</html>\n")
  {
  }

  /** The rendered page is the whole document: it ends with the closing `</html>` line. */
  lemma RenderEndsDocument(r: Report)
    ensures EndsWith(Render(r), ChartClose)
    ensures EndsWith(Render(r), "</html>\n")
  {
    StripClose(Page(r) + "[" + JoinInts(r.chart), ChartClose);
    ChartCloseEndsDocument();
    EndsWithEnd(Render(r), ChartClose, "</html>\n");
  }

  /** A prefix of a text is a prefix of any longer text. */
  lemma PrefixExtends(p: string, s: string, t: string)
    requires p <= s
    ensures p <= s + t
  {
    assert (s + t)[..|s|] == s;
  }

  /** The summary card opens with the fixed opening and the title. */
  lemma SummaryStartsWithTitle(r: Report)
    ensures DocOpen + r.title <= Summary(r)
  {
    var p := DocOpen + r.title;
    PrefixExtends(p, p, TitleClose);
    PrefixExtends(p, p + TitleClose, Stylesheet);
    PrefixExtends(p, p + TitleClose + Stylesheet, BodyOpen);
    PrefixExtends(p, p + TitleClose + Stylesheet + BodyOpen, r.title);
    var q := p + TitleClose + Stylesheet + BodyOpen + r.title;
    PrefixExtends(p, q, CardIntro);
    PrefixExtends(p, q + CardIntro, Concat(r.kpis, KpiLine));
    var u := q + CardIntro + Concat(r.kpis, KpiLine);
    PrefixExtends(p, u, SourceLead);
    PrefixExtends(p, u + SourceLead, r.source);
    PrefixExtends(p, u + SourceLead + r.source, SummaryClose);
  }

  /** The title reaches the page right after the fixed opening, exactly as given: nothing is escaped. */
  lemma TitleVerbatim(r: Report)
    ensures DocOpen + r.title <= Render(r)
  {
    SummaryStartsWithTitle(r);
    PrefixOfPage(r, DocOpen + r.title);
    PrefixOfRender(r, DocOpen + r.title);
  }

  /** A prefix of the summary card is a prefix of everything before the chart data. */
  lemma PrefixOfPage(r: Report, p: string)
    requires p <= Summary(r)
    ensures p <= Page(r)
  {
    var table := if r.table.Some? then RenderTable(r.table.value) else "";
    PrefixExtends(p, Summary(r), table);
    PrefixExtends(p, Summary(r) + table, ChartLead);
  }

  /** A prefix of everything before the chart data is a prefix of the page. */
  lemma PrefixOfRender(r: Report, p: string)
    requires p <= Page(r)
    ensures p <= Render(r)
  {
    PrefixExtends(p, Page(r), "[");
    PrefixExtends(p, Page(r) + "[", JoinInts(r.chart));
    PrefixExtends(p, Page(r) + "[" + JoinInts(r.chart), ChartClose);
  }

  /** The text of a list with one more item is followed by that item's text. */
  lemma ConcatSnoc<T>(items: seq<T>, item: T, text: T -> string)
    ensures Concat(items + [item], text) == Concat(items, text) + text(item)
  {
    assert (items + [item])[..|items|] == items;
  }

  /** The rows of one more detail follow the rows of the details before it. */
  lemma RowsOfSnoc(ds: seq<Detail>, i: nat, hasFailures: bool, gallery: Option<Gallery>)
    requires i < |ds|
    ensures RowsOf(ds[..i + 1], hasFailures, gallery) == RowsOf(ds[..i], hasFailures, gallery) + ItemRows(ds[i], hasFailures, gallery)
  {
    assert ds[..i + 1][..i] == ds[..i];
  }

  /** The images of one more file follow the images of the files before it. */
  lemma ImagesOfSnoc(dir: string, files: seq<string>, j: nat)
    requires j < |files|
    ensures ImagesOf(dir, files[..j + 1]) == ImagesOf(dir, files[..j]) + [Image(dir + "/" + files[j], files[j])]
  {
    assert files[..j + 1][..j] == files[..j];
  }

  /** The screenshots of a test, appended image by image. */
  method AppendImages(html0: string, dir: string, files: seq<string>) returns (html: string)
    ensures html == html0 + Concat(ImagesOf(dir, files), ImageTag)
  {
    html := html0;
    for j := 0 to |files|
      invariant html == html0 + Concat(ImagesOf(dir, files[..j]), ImageTag)
    {
      ghost var done := Concat(ImagesOf(dir, files[..j]), ImageTag);
      var src := dir + "/" + files[j];
      var tag := ImageTag(Image(src, files[j]));
      html := html + tag;
      Assoc(html0, done, tag);
      ImagesOfSnoc(dir, files, j);
      ConcatSnoc(ImagesOf(dir, files[..j]), Image(src, files[j]), ImageTag);
    }
    assert files[..|files|] == files;
  }

  /** The text of a screenshot row: the opening, the first ten images, the note on the rest, the closing. */
  lemma ShotRowText(dir: string, imgs: seq<string>, colspan: nat)
    ensures RenderRow(ShotRowOf(dir, imgs, colspan)) ==
      GalleryOpen(colspan)
      + Concat(ImagesOf(dir, if |imgs| < ShotLimit then imgs else imgs[..ShotLimit]), ImageTag)
      + (if |imgs| > ShotLimit then MoreNote(|imgs| - ShotLimit) else "")
      + GalleryClose
  {
  }

  /** The screenshot row of a test with a non-empty list of screenshots. */
  method AppendShotRow(html0: string, dir: string, imgs: seq<string>, colspan: nat) returns (html: string)
    ensures html == html0 + RenderRow(ShotRowOf(dir, imgs, colspan))
  {
    var opening := GalleryOpen(colspan);
    html := html0 + opening;
    var shown := if |imgs| < ShotLimit then imgs else imgs[..ShotLimit];
    html := AppendImages(html, dir, shown);
    ghost var images := Concat(ImagesOf(dir, shown), ImageTag);
    Assoc(html0, opening, images);
    var more := "";
    if |imgs| > ShotLimit {
      more := MoreNote(|imgs| - ShotLimit);
      html := html + more;
    } else {
      assert html + more == html;
    }
    Assoc(html0, opening + images, more);
    html := html + GalleryClose;
    Assoc(html0, opening + images + more, GalleryClose);
    ShotRowText(dir, imgs, colspan);
  }

  /** The test row of a detail. */
  method AppendTestRow(html0: string, item: Detail, hasFailures: bool) returns (html: string)
    ensures html == html0 + RenderRow(TestRowOf(item, hasFailures))
  {
    var statusColor := StatusColor(item.status);
    var cells := Cells(item.name, item.suite, statusColor, item.status);
    html := html0 + cells;
    var failure := "";
    if hasFailures {
      failure := FailureCell(item.failure);
      html := html + failure;
    } else {
      assert html + failure == html;
    }
    Assoc(html0, cells, failure);
    html := html + RowClose;
    Assoc(html0, cells + failure, RowClose);
  }

  /** The rows of one detail: its test row, then its screenshot row when the lookup finds screenshots. */
  method AppendItem(html0: string, item: Detail, hasFailures: bool, gallery: Option<Gallery>) returns (html: string)
    ensures html == html0 + Concat(ItemRows(item, hasFailures, gallery), RenderRow)
  {
    var row := TestRowOf(item, hasFailures);
    html := AppendTestRow(html0, item, hasFailures);
    ConcatSnoc([], row, RenderRow);
    assert [] + [row] == [row];
    assert "" + RenderRow(row) == RenderRow(row);
    if gallery.Some? {
      var imgs := LookupShots(gallery.value.index, item.testId);
      if imgs != [] {
        var colspan := if hasFailures then 4 else 3;
        ghost var shotRow := ShotRowOf(gallery.value.dir, imgs, colspan);
        html := AppendShotRow(html, gallery.value.dir, imgs, colspan);
        ConcatSnoc([row], shotRow, RenderRow);
        Assoc(html0, RenderRow(row), RenderRow(shotRow));
        assert ItemRows(item, hasFailures, gallery) == [row] + [shotRow];
      } else {
        assert ItemRows(item, hasFailures, gallery) == [row];
      }
    } else {
      assert ItemRows(item, hasFailures, gallery) == [row];
    }
  }

  /** The header cells, as the source writes them, for any way of drawing one cell. */
  lemma ColumnsText(hasFailures: bool, cell: string -> string)
    ensures Concat(Columns(hasFailures), cell) ==
      cell("Test") + cell("Suite") + cell("Status") + if hasFailures then cell("Failure") else ""
  {
    var three := ["Test", "Suite", "Status"];
    ConcatSnoc([], "Test", cell);
    ConcatSnoc(["Test"], "Suite", cell);
    ConcatSnoc(["Test", "Suite"], "Status", cell);
    assert [] + ["Test"] == ["Test"] && ["Test"] + ["Suite"] == ["Test", "Suite"] && ["Test", "Suite"] + ["Status"] == three;
    if hasFailures {
      ConcatSnoc(three, "Failure", cell);
    } else {
      assert Columns(hasFailures) == three;
    }
  }

  /** The opening of the details card up to the first row. */
  method AppendTableHead(html0: string, note: string, hasFailures: bool) returns (html: string)
    ensures html == html0 + (TableLead + note + TableHead + Concat(Columns(hasFailures), HeaderCell) + HeadClose)
  {
    ghost var lead := TableLead + note + TableHead;
    ghost var three := HeaderCell("Test") + HeaderCell("Suite") + HeaderCell("Status");
    var opening := TableLead + note + TableHead + HeaderCell("Test") + HeaderCell("Suite") + HeaderCell("Status");
    html := html0 + opening;
    var failure := "";
    if hasFailures {
      failure := HeaderCell("Failure");
      html := html + failure;
    } else {
      assert html + failure == html;
    }
    html := html + HeadClose;
    ColumnsText(hasFailures, HeaderCell);
    assert opening == lead + three by {
      Assoc(lead, HeaderCell("Test"), HeaderCell("Suite"));
      Assoc(lead, HeaderCell("Test") + HeaderCell("Suite"), HeaderCell("Status"));
    }
    Assoc(lead, three, failure);
    Assoc(html0, opening, failure);
    Assoc(html0, opening + failure, HeadClose);
  }

  /** The details card: note, header, one or two rows per detail, in order. */
  method AppendDetails(html0: string, ds: seq<Detail>, dir: Option<string>, shots: Option<Index>) returns (html: string)
    ensures html == html0 + RenderTable(TableOf(ds, GalleryOf(dir, shots)))
  {
    var gallery := GalleryOf(dir, shots);
    var hasScreenshots := gallery.Some?;
    var hasFailures := HasFailures(ds);
    var note := if hasScreenshots then NoteWithShots else NoteWithoutShots;
    ghost var head := TableLead + note + TableHead + Concat(Columns(hasFailures), HeaderCell) + HeadClose;
    html := AppendTableHead(html0, note, hasFailures);
    ghost var start := html;
    for i := 0 to |ds|
      invariant html == start + Concat(RowsOf(ds[..i], hasFailures, gallery), RenderRow)
    {
      ghost var done := Concat(RowsOf(ds[..i], hasFailures, gallery), RenderRow);
      ghost var item := Concat(ItemRows(ds[i], hasFailures, gallery), RenderRow);
      html := AppendItem(html, ds[i], hasFailures, gallery);
      Assoc(start, done, item);
      RowsOfSnoc(ds, i, hasFailures, gallery);
      ConcatAppend(RowsOf(ds[..i], hasFailures, gallery), ItemRows(ds[i], hasFailures, gallery), RenderRow);
    }
    assert ds[..|ds|] == ds;
    ghost var rows := Concat(RowsOf(ds, hasFailures, gallery), RenderRow);
    html := html + TableClose;
    Assoc(html0, head, rows);
    Assoc(html0, head + rows, TableClose);
  }

  /** The text of four items is theirs, one after the other. */
  lemma ConcatFour<T>(xs: seq<T>, text: T -> string)
    requires |xs| == 4
    ensures Concat(xs, text) == text(xs[0]) + text(xs[1]) + text(xs[2]) + text(xs[3])
  {
    assert xs[..1][..0] == [] && xs[..1][0] == xs[0];
    assert Concat(xs[..1], text) == text(xs[0]);
    assert xs[..2][..1] == xs[..1] && xs[..3][..2] == xs[..2] && xs[..4] == xs;
    assert Concat(xs[..2], text) == text(xs[0]) + text(xs[1]);
    assert Concat(xs[..3], text) == text(xs[0]) + text(xs[1]) + text(xs[2]);
  }

  /** The summary card with four tiles, as the source writes it: one tile after the other. */
  lemma SummaryText(r: Report)
    requires |r.kpis| == 4
    ensures Summary(r) == DocOpen + r.title + TitleClose + Stylesheet + BodyOpen + r.title + CardIntro
      + KpiLine(r.kpis[0]) + KpiLine(r.kpis[1]) + KpiLine(r.kpis[2]) + KpiLine(r.kpis[3])
      + SourceLead + r.source + SummaryClose
  {
    var intro := DocOpen + r.title + TitleClose + Stylesheet + BodyOpen + r.title + CardIntro;
    var k0, k1, k2, k3 := KpiLine(r.kpis[0]), KpiLine(r.kpis[1]), KpiLine(r.kpis[2]), KpiLine(r.kpis[3]);
    ConcatFour(r.kpis, KpiLine);
    Assoc(intro, k0, k1);
    Assoc(intro, k0 + k1, k2);
    Assoc(intro, k0 + k1 + k2, k3);
  }

  /** The summary card of the report of build_html's arguments. */
  lemma ReportSummaryText(passed: int, failed: int, skipped: int, source: string, title: string,
                          details: Option<seq<Detail>>, dir: Option<string>, shots: Option<Index>)
    ensures Summary(ReportOf(passed, failed, skipped, source, title, details, dir, shots)) ==
      DocOpen + title + TitleClose + Stylesheet + BodyOpen + title + CardIntro
      + KpiLine(Kpi("Total", passed + failed + skipped)) + KpiLine(Kpi("Passed", passed))
      + KpiLine(Kpi("Failed", failed)) + KpiLine(Kpi("Skipped", skipped))
      + SourceLead + source + SummaryClose
  {
    var r := ReportOf(passed, failed, skipped, source, title, details, dir, shots);
    assert r.title == title && r.source == source;
    assert r.kpis[0] == Kpi("Total", passed + failed + skipped) && r.kpis[1] == Kpi("Passed", passed);
    assert r.kpis[2] == Kpi("Failed", failed) && r.kpis[3] == Kpi("Skipped", skipped);
    SummaryText(r);
  }

  /** The summary card: title, the four counters and the source, as `build_html` opens the page. */
  method AppendSummary(passed: int, failed: int, skipped: int, source: string, title: string,
                       ghost details: Option<seq<Detail>>, ghost dir: Option<string>, ghost shots: Option<Index>)
    returns (html: string)
    ensures html == Summary(ReportOf(passed, failed, skipped, source, title, details, dir, shots))
  {
    var total := passed + failed + skipped;
    var k0, k1, k2, k3 := KpiLine(Kpi("Total", total)), KpiLine(Kpi("Passed", passed)),
      KpiLine(Kpi("Failed", failed)), KpiLine(Kpi("Skipped", skipped));
    html := DocOpen + title + TitleClose + Stylesheet + BodyOpen + title + CardIntro
      + k0 + k1 + k2 + k3 + SourceLead + source + SummaryClose;
    ReportSummaryText(passed, failed, skipped, source, title, details, dir, shots);
  }

  /**
   * `build_html`: the page grows by `+=`, piece by piece, and is exactly the
   * rendering of the report; the chart data read back from it are passed,
   * failed and skipped, in that order.
   */
  method BuildHtml(passed: int, failed: int, skipped: int, source: string, title: string,
                   details: Option<seq<Detail>>, dir: Option<string>, shots: Option<Index>) returns (html: string)
    ensures html == Render(ReportOf(passed, failed, skipped, source, title, details, dir, shots))
    ensures ChartValues(html) == Some([passed, failed, skipped])
  {
    ghost var r := ReportOf(passed, failed, skipped, source, title, details, dir, shots);
    html := AppendSummary(passed, failed, skipped, source, title, details, dir, shots);
    ghost var summary := html;
    ghost var table := "";
    if details.Some? && details.value != [] {
      table := RenderTable(r.table.value);
      html := AppendDetails(html, details.value, dir, shots);
    } else {
      assert html + table == html;
    }
    assert Page(r) == html + ChartLead;
    html := html + ChartLead + "[" + JoinInts([passed, failed, skipped]) + ChartClose;
    ChartRoundTrip(r);
  }
}
