/**
 * The table reader of the ward-spending menu PDFs.  The PDF library calls a visitor once
 * per positioned text fragment; the visitor keeps the last table position, the current
 * ward, the finished rows and the row in progress, and cuts a new row whenever the text
 * jumps up or down the page.  The rows are then filtered and written out.  Coordinates
 * are the PDF's floats; here they are exact `real`s, so the jump `last_y - y` and its
 * comparison with the thresholds carry no rounding.
 */
module PdfTable {
  import opened Regex
  import opened Text

  // ---------------------------------------------------------------------------------
  // Regions of the 2019+ page layout: all open intervals

  predicate IsMenuPackageItem(x: real) { 14.0 < x < 17.0 }

  predicate IsLocation(x: real) { 283.0 < x < 288.0 }

  predicate IsCost(x: real) { 830.0 < x < 890.0 }

  predicate IsInTable(y: real) { 30.0 < y < 460.0 }

  predicate IsWard(x: real, y: real) { (14.0 < x < 17.0) && (490.0 < y < 510.0) }

  /** The ward header lies above the table, so no fragment is both. */
  lemma {:induction false} WardAboveTable(x: real, y: real)
    ensures !(IsWard(x, y) && IsInTable(y))
  {
  }

  /** The three columns of the table do not overlap. */
  lemma {:induction false} ColumnsDisjoint(x: real)
    ensures !(IsMenuPackageItem(x) && IsLocation(x))
    ensures !(IsMenuPackageItem(x) && IsCost(x)) && !(IsLocation(x) && IsCost(x))
  {
  }

  // ---------------------------------------------------------------------------------
  // Text clean-up

  /** `text.replace("\n", "")`. */
  function RemoveNewlines(s: string): (r: string)
    ensures '\n' !in r
    ensures forall c | c in r :: c in s
    ensures '\n' !in s ==> r == s
  {
    if s == [] then [] else (if s[0] == '\n' then [] else [s[0]]) + RemoveNewlines(s[1..])
  }

  /** A fragment's text as the visitor uses it: newlines removed, then stripped. */
  function Clean(s: string): string {
    Strip(RemoveNewlines(s))
  }

  /** `_extract_ward_number(text)`: the stripped text after the last ':'. */
  function ExtractWardNumber(text: string): (r: string)
    ensures ':' !in r
    ensures r == [] || (!IsSpace(r[0]) && !IsSpace(r[|r| - 1]))
  {
    var t := LastPiece(text, ':');
    StripWithin(t);
    Strip(t)
  }

  /** Every character of a stripped text comes from the text. */
  lemma {:induction false} StripWithin(s: string)
    ensures forall c | c in Strip(s) :: c in s
  {
    var l := StripLeft(s);
    var r := StripRight(l);
    StripLeftSuffix(s);
    forall c | c in r ensures c in s {
      var k :| 0 <= k < |r| && r[k] == c;
      assert l[k] == c;
      assert s[|s| - |l| + k] == c;
    }
  }

  /** Whatever comes before the last ':' does not reach the ward number. */
  lemma {:induction false} WardNumberAfterLastColon(a: string, b: string)
    requires ':' !in b
    ensures ExtractWardNumber(a + [':'] + b) == Strip(b)
  {
    SplitLast(a, b, ':');
  }

  /** A header without ':' is its own ward number, stripped. */
  lemma {:induction false} WardNumberWithoutColon(s: string)
    requires ':' !in s
    ensures ExtractWardNumber(s) == Strip(s)
  {
    SplitFree(s, ':');
  }

  // ---------------------------------------------------------------------------------
  // State

  /**
   * `self.ward`: the integer 0 until a header has been read, then the header's text.  The
   * output filter compares it with 0, which no text equals.
   */
  datatype Ward = NoWard | WardText(number: string)

  /** One row of the table: the dictionary with keys ward, item, loc and cost. */
  datatype Row = Row(ward: Ward, item: string, loc: string, cost: string)

  /** A row with the given ward and nothing else yet. */
  function EmptyRow(w: Ward): Row {
    Row(w, "", "", "")
  }

  /** The visitor's fields: `last_x`, `last_y`, `ward`, `data` and `current_row`. */
  datatype State = State(lastX: real, lastY: real, ward: Ward, data: seq<Row>, current: Row)

  /** The fields as the constructor sets them. */
  function Initial(): State {
    State(0.0, 0.0, NoWard, [], EmptyRow(NoWard))
  }

  /** A fragment as the PDF library hands it over: its text and the translation of its text matrix. */
  datatype Fragment = Fragment(text: string, x: real, y: real)

  /** The fragment is neither "" nor "\n". */
  predicate Visible(text: string) {
    text != "" && text != "\n"
  }

  /** A visible fragment inside the table cuts a new row when it lies more than 15 below or more than 50 above the last one. */
  predicate StartsRow(st: State, f: Fragment) {
    Visible(f.text) && !IsWard(f.x, f.y) && IsInTable(f.y) && (st.lastY - f.y > 15.0 || st.lastY - f.y < -50.0)
  }

  /** A visible table fragment, the only kind that moves the last position. */
  predicate InTable(f: Fragment) {
    Visible(f.text) && !IsWard(f.x, f.y) && IsInTable(f.y)
  }

  /** What a table fragment adds to a row in progress, by column; a second line at the same position is preceded by a space. */
  function AddToRow(row: Row, t: string, x: real, samePlace: bool): (r: Row)
    ensures r.ward == row.ward
    ensures r.item == row.item + (if IsMenuPackageItem(x) then (if samePlace then " " else "") + t else "")
    ensures r.loc == row.loc + (if !IsMenuPackageItem(x) && IsLocation(x) then (if samePlace then " " else "") + t else "")
    ensures r.cost == row.cost + (if !IsMenuPackageItem(x) && !IsLocation(x) && IsCost(x) then t else "")
  {
    if IsMenuPackageItem(x) then row.(item := row.item + (if samePlace then " " + t else t))
    else if IsLocation(x) then row.(loc := row.loc + (if samePlace then " " + t else t))
    else if IsCost(x) then row.(cost := row.cost + t)
    else row
  }

  /**
   * `_get_table_data` on one fragment.  Blank fragments and fragments outside both the
   * header and the table change nothing; a header changes only the ward; a table
   * fragment may close the row in progress, adds its text to the current row and
   * becomes the last position.
   */
  function Step(st: State, f: Fragment): (r: State)
    ensures !Visible(f.text) ==> r == st
    ensures r.data == (if StartsRow(st, f) then st.data + [st.current] else st.data)
    ensures r.ward == (if Visible(f.text) && IsWard(f.x, f.y) then WardText(ExtractWardNumber(Clean(f.text))) else st.ward)
    ensures (r.lastX, r.lastY) == (if InTable(f) then (f.x, f.y) else (st.lastX, st.lastY))
    ensures !InTable(f) ==> r.current == st.current
    ensures StartsRow(st, f) ==> r.current == AddToRow(EmptyRow(st.ward), Clean(f.text), f.x, false)
    ensures InTable(f) && !StartsRow(st, f) ==>
      r.current == AddToRow(st.current, Clean(f.text), f.x, f.x == st.lastX && f.y == st.lastY)
  {
    if !Visible(f.text) then st
    else
      var t := Clean(f.text);
      if IsWard(f.x, f.y) then st.(ward := WardText(ExtractWardNumber(t)))
      else if IsInTable(f.y) then
        var yDiff := st.lastY - f.y;
        var st1 := if yDiff > 15.0 || yDiff < -50.0 then st.(data := st.data + [st.current], current := EmptyRow(st.ward)) else st;
        var samePlace := f.x == st.lastX && f.y == st.lastY;
        st1.(current := AddToRow(st1.current, t, f.x, samePlace), lastX := f.x, lastY := f.y)
      else st
  }

  /** A second line at exactly the last position continues the same row, with a space before it. */
  lemma {:induction false} SamePlaceContinues(st: State, f: Fragment)
    requires Visible(f.text) && IsInTable(f.y) && f.x == st.lastX && f.y == st.lastY
    ensures Step(st, f).data == st.data
    ensures Step(st, f).current == AddToRow(st.current, Clean(f.text), f.x, true)
  {
    WardAboveTable(f.x, f.y);
  }

  /** Each fragment, in order, passed to the visitor. */
  function Run(st: State, frags: seq<Fragment>): State
    decreases |frags|
  {
    if frags == [] then st else Run(Step(st, frags[0]), frags[1..])
  }

  /** A page begins with the last position reset to (0, 0). */
  function StartPage(st: State): (r: State)
    ensures r.ward == st.ward && r.data == st.data && r.current == st.current
    ensures r.lastX == 0.0 && r.lastY == 0.0
  {
    st.(lastX := 0.0, lastY := 0.0)
  }

  /** The pages in order, each one's fragments after the reset. */
  function RunPages(st: State, pages: seq<seq<Fragment>>): State
    decreases |pages|
  {
    if pages == [] then st else RunPages(Run(StartPage(st), pages[0]), pages[1..])
  }

  lemma {:induction false} RunSnoc(st: State, frags: seq<Fragment>, f: Fragment)
    ensures Run(st, frags + [f]) == Step(Run(st, frags), f)
    decreases |frags|
  {
    if frags == [] {
      assert [f][1..] == [];
    } else {
      assert (frags + [f])[1..] == frags[1..] + [f];
      RunSnoc(Step(st, frags[0]), frags[1..], f);
    }
  }

  lemma {:induction false} RunPagesSnoc(st: State, pages: seq<seq<Fragment>>, p: seq<Fragment>)
    ensures RunPages(st, pages + [p]) == Run(StartPage(RunPages(st, pages)), p)
    decreases |pages|
  {
    if pages == [] {
      assert [p][1..] == [];
    } else {
      assert (pages + [p])[1..] == pages[1..] + [p];
      RunPagesSnoc(Run(StartPage(st), pages[0]), pages[1..], p);
    }
  }

  /** Finished rows are never changed or removed, and each fragment adds at most one. */
  lemma {:induction false} RunKeepsRows(st: State, frags: seq<Fragment>)
    ensures var d := Run(st, frags).data; st.data <= d && |d| <= |st.data| + |frags|
    decreases |frags|
  {
    if frags != [] {
      RunKeepsRows(Step(st, frags[0]), frags[1..]);
    }
  }

  /** Over a whole document too, finished rows are only ever added at the end. */
  lemma {:induction false} RunPagesKeepsRows(st: State, pages: seq<seq<Fragment>>)
    ensures st.data <= RunPages(st, pages).data
    decreases |pages|
  {
    if pages != [] {
      RunKeepsRows(StartPage(st), pages[0]);
      RunPagesKeepsRows(Run(StartPage(st), pages[0]), pages[1..]);
    }
  }

  /** Without a header fragment the ward stays what it was. */
  lemma {:induction false} WardOnlyFromHeaders(st: State, frags: seq<Fragment>)
    requires forall k | 0 <= k < |frags| :: !(Visible(frags[k].text) && IsWard(frags[k].x, frags[k].y))
    ensures Run(st, frags).ward == st.ward
    decreases |frags|
  {
    if frags != [] {
      assert !(Visible(frags[0].text) && IsWard(frags[0].x, frags[0].y));
      WardOnlyFromHeaders(Step(st, frags[0]), frags[1..]);
    }
  }

  /**
   * The first row closed in a document is the constructor's row, which never gets a
   * ward, so the writer always drops it.
   */
  lemma {:induction false} FirstRowNeverWritten(pages: seq<seq<Fragment>>)
    requires RunPages(Initial(), pages).data != []
    ensures RunPages(Initial(), pages).data[0].ward == NoWard
    ensures !Kept(RunPages(Initial(), pages).data[0])
  {
    FirstRowPages(Initial(), pages);
  }

  lemma {:induction false} FirstRowPages(st: State, pages: seq<seq<Fragment>>)
    requires st.data == [] && st.current.ward == NoWard && RunPages(st, pages).data != []
    ensures RunPages(st, pages).data[0].ward == NoWard
    decreases |pages|
  {
    var st1 := Run(StartPage(st), pages[0]);
    if st1.data != [] {
      FirstRowFrom(StartPage(st), pages[0]);
      RunPagesKeepsRows(st1, pages[1..]);
    } else {
      WardWhileNoRows(StartPage(st), pages[0]);
      FirstRowPages(st1, pages[1..]);
    }
  }

  /** While no row has been closed, the row in progress keeps its ward. */
  lemma {:induction false} WardWhileNoRows(st: State, frags: seq<Fragment>)
    requires st.data == [] && Run(st, frags).data == []
    ensures Run(st, frags).current.ward == st.current.ward
    decreases |frags|
  {
    if frags != [] {
      var st1 := Step(st, frags[0]);
      RunKeepsRows(st1, frags[1..]);
      WardWhileNoRows(st1, frags[1..]);
    }
  }

  lemma {:induction false} FirstRowFrom(st: State, frags: seq<Fragment>)
    requires st.data == [] && st.current.ward == NoWard && Run(st, frags).data != []
    ensures Run(st, frags).data[0].ward == NoWard
    decreases |frags|
  {
    var st1 := Step(st, frags[0]);
    if StartsRow(st, frags[0]) {
      RunKeepsRows(st1, frags[1..]);
    } else {
      FirstRowFrom(st1, frags[1..]);
    }
  }

  // ---------------------------------------------------------------------------------
  // Output

  /** "WARD COMMITTED 20" or "WARD 20" at index i, two digits, then " TOTAL" or " BALANCE". */
  predicate YearPhraseAt(s: string, i: int, head: string, tail: string) {
    0 <= i && i + |head| + 2 + |tail| <= |s| && s[i..i + |head|] == head &&
    IsDigit(s[i + |head|]) && IsDigit(s[i + |head| + 1]) && s[i + |head| + 2..i + |head| + 2 + |tail|] == tail
  }

  /** `re.search(head + "\d\d" + tail, s)` finds a match. */
  predicate HasYearPhrase(s: string, head: string, tail: string) {
    exists i | 0 <= i <= |s| :: YearPhraseAt(s, i, head, tail)
  }

  /** The output filter: not the budget header, not a committed-total or balance line, and a ward has been read. */
  predicate Kept(row: Row) {
    row.item != "MENU BUDGET"
    && !HasYearPhrase(row.item, "WARD COMMITTED 20", " TOTAL")
    && !HasYearPhrase(row.item, "WARD 20", " BALANCE")
    && row.ward != NoWard
  }

  /** The finished rows the writer writes, in order. */
  function Written(data: seq<Row>): (r: seq<Row>)
    ensures forall k | 0 <= k < |r| :: Kept(r[k]) && r[k] in data
    ensures forall k | 0 <= k < |data| :: Kept(data[k]) ==> data[k] in r
    ensures |r| <= |data|
  {
    if data == [] then []
    else (if Kept(data[0]) then [data[0]] else []) + Written(data[1..])
  }

  lemma {:induction false} WrittenSnoc(data: seq<Row>, row: Row)
    ensures Written(data + [row]) == Written(data) + (if Kept(row) then [row] else [])
    decreases |data|
  {
    if data == [] {
      assert [row][1..] == [];
    } else {
      assert (data + [row])[1..] == data[1..] + [row];
      WrittenSnoc(data[1..], row);
    }
  }

  /** A row with no ward yet is never written: the integer 0 is compared, not a text. */
  lemma {:induction false} NoWardDropped(item: string, loc: string, cost: string)
    ensures !Kept(Row(NoWard, item, loc, cost))
  {
  }

  /** A year phrase needs a 'W' in the item. */
  lemma {:induction false} YearPhraseNeedsW(s: string, head: string, tail: string)
    requires head != [] && head[0] == 'W' && 'W' !in s
    ensures !HasYearPhrase(s, head, tail)
  {
    forall i | 0 <= i <= |s| ensures !YearPhraseAt(s, i, head, tail) {
      if i < |s| {
        assert s[i] in s;
      }
    }
  }

  /** So any item other than the budget header and without a 'W' is written once a ward has been read. */
  lemma {:induction false} PlainItemKept(w: string, item: string, loc: string, cost: string)
    requires 'W' !in item && item != "MENU BUDGET"
    ensures Kept(Row(WardText(w), item, loc, cost))
  {
    YearPhraseNeedsW(item, "WARD COMMITTED 20", " TOTAL");
    YearPhraseNeedsW(item, "WARD 20", " BALANCE");
  }

  /** A committed-total line is dropped whatever its year. */
  lemma {:induction false} CommittedTotalDropped(w: Ward, d1: char, d2: char, loc: string, cost: string)
    requires IsDigit(d1) && IsDigit(d2)
    ensures !Kept(Row(w, "WARD COMMITTED 20" + [d1, d2] + " TOTAL", loc, cost))
  {
    var s := "WARD COMMITTED 20" + [d1, d2] + " TOTAL";
    assert s[0..17] == "WARD COMMITTED 20";
    assert s[19..25] == " TOTAL";
    assert YearPhraseAt(s, 0, "WARD COMMITTED 20", " TOTAL");
  }

  /** So is a balance line. */
  lemma {:induction false} BalanceDropped(w: Ward, d1: char, d2: char, loc: string, cost: string)
    requires IsDigit(d1) && IsDigit(d2)
    ensures !Kept(Row(w, "WARD 20" + [d1, d2] + " BALANCE", loc, cost))
  {
    var s := "WARD 20" + [d1, d2] + " BALANCE";
    assert s[0..7] == "WARD 20";
    assert s[9..17] == " BALANCE";
    assert YearPhraseAt(s, 0, "WARD 20", " BALANCE");
  }

  // ---------------------------------------------------------------------------------
  // The extractor

  /** `WardSpendingPDFTextExtractor`: the visitor's state lives in its fields. */
  class WardSpendingPdfTextExtractor {
    const pdfFilePath: string
    const outputFilePath: string
    var lastY: real
    var lastX: real
    var ward: Ward
    var data: seq<Row>
    var currentRow: Row

    function Snapshot(): State
      reads this
    {
      State(lastX, lastY, ward, data, currentRow)
    }

    constructor(pdfFilePath: string, outputFilePath: string)
      ensures this.pdfFilePath == pdfFilePath && this.outputFilePath == outputFilePath
      ensures Snapshot() == Initial()
    {
      this.pdfFilePath := pdfFilePath;
      this.outputFilePath := outputFilePath;
      lastY := 0.0;
      lastX := 0.0;
      ward := NoWard;
      data := [];
      currentRow := EmptyRow(NoWard);
    }

    /** `_get_table_data(input_text, cm, tm, ...)`, with x and y the last two entries of tm. */
    method GetTableData(inputText: string, x: real, y: real)
      modifies this
      ensures Snapshot() == Step(old(Snapshot()), Fragment(inputText, x, y))
    {
      if inputText != "" && inputText != "\n" {
        var text := Clean(inputText);
        if IsWard(x, y) {
          ward := WardText(ExtractWardNumber(text));
        } else if IsInTable(y) {
          var yDiff := lastY - y;
          if yDiff > 15.0 || yDiff < -50.0 {
            data := data + [currentRow];
            currentRow := EmptyRow(ward);
          }
          if IsMenuPackageItem(x) {
            var itemText := text;
            if x == lastX && y == lastY {
              itemText := " " + itemText;
            }
            currentRow := currentRow.(item := currentRow.item + itemText);
          } else if IsLocation(x) {
            var locText := text;
            if x == lastX && y == lastY {
              locText := " " + locText;
            }
            currentRow := currentRow.(loc := currentRow.loc + locText);
          } else if IsCost(x) {
            currentRow := currentRow.(cost := currentRow.cost + text);
          }
          lastY := y;
          lastX := x;
        }
      }
    }

    /** One page of `extract_pdf_data`: the last position reset to (0, 0), then every fragment of the page. */
    method ReadPage(page: seq<Fragment>)
      modifies this
      ensures Snapshot() == Run(StartPage(old(Snapshot())), page)
    {
      lastY := 0.0;
      lastX := 0.0;
      ghost var pageStart := Snapshot();
      for i := 0 to |page|
        invariant Snapshot() == Run(pageStart, page[..i])
      {
        assert page[..i + 1] == page[..i] + [page[i]];
        RunSnoc(pageStart, page[..i], page[i]);
        GetTableData(page[i].text, page[i].x, page[i].y);
      }
      assert page[..|page|] == page;
    }

    /** The rows the writer writes after its header line, in order; the row still in progress is not among them. */
    method WriteRows() returns (rows: seq<Row>)
      ensures rows == Written(data)
    {
      rows := [];
      for k := 0 to |data|
        invariant rows == Written(data[..k])
      {
        assert data[..k + 1] == data[..k] + [data[k]];
        WrittenSnoc(data[..k], data[k]);
        var row := data[k];
        if row.item != "MENU BUDGET"
          && !HasYearPhrase(row.item, "WARD COMMITTED 20", " TOTAL")
          && !HasYearPhrase(row.item, "WARD 20", " BALANCE")
          && row.ward != NoWard
        {
          rows := rows + [row];
        }
      }
      assert data[..|data|] == data;
    }

    /** `extract_pdf_data` without the file I/O: every page in order, then the rows written. */
    method ExtractPdfData(pages: seq<seq<Fragment>>) returns (rows: seq<Row>)
      modifies this
      ensures Snapshot() == RunPages(old(Snapshot()), pages)
      ensures rows == Written(data)
    {
      ghost var start := Snapshot();
      for pageNum := 0 to |pages|
        invariant Snapshot() == RunPages(start, pages[..pageNum])
      {
        assert pages[..pageNum + 1] == pages[..pageNum] + [pages[pageNum]];
        RunPagesSnoc(start, pages[..pageNum], pages[pageNum]);
        ReadPage(pages[pageNum]);
      }
      assert pages[..|pages|] == pages;
      rows := WriteRows();
    }
  }
}
