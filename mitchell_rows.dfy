/** The line-item segmenters of Mitchell estimates, `read_text_mitchell_type_1` and
    `read_text_mitchell_type_2` (parse-pdf-mirroring-3-13/lambda_function.py). Both read the
    column positions from the heading row, classify every span as a part heading (at the
    "Line #" column) or a line start (left of "Description"), give each line a vertical extent
    and read one field per column band. The two variants differ only in their columns: type 2
    has a "CEG" column, whose position is unassigned until a heading row has been seen. */
module MitchellRows {
  import opened Wrappers
  import opened PyText
  import opened PdfDocument
  import opened PdfRows

  datatype Variant = Type1 | Type2

  function ColumnCount(v: Variant): nat {
    if v == Type1 then 10 else 11
  }

  /** The heading words of the table, left to right, with the `search_for` hit that gives each
      column: the second "Type" heading is the second hit. */
  function Headings(v: Variant, lang: Language): (hs: seq<(string, nat)>)
    ensures |hs| == ColumnCount(v)
  {
    var line := if lang == Fr then "Ligne #" else "Line #";
    var ope := if lang == Fr then "Opération" else "Operation";
    var totU := if lang == Fr then "Unités totales" else "Total Units";
    var num := if lang == Fr then "Numéro" else "Number";
    var qty := if lang == Fr then "Qté" else "Qty";
    var totP := if lang == Fr then "Prix total" else "Total Price";
    var tax := if lang == Fr then "Taxe" else "Tax";
    var head := [(line, 0), ("Description", 0), (ope, 0), ("Type", 0), (totU, 0)];
    var tail := [("Type", 1), (num, 0), (qty, 0), (totP, 0), (tax, 0)];
    if v == Type1 then head + tail else head + [("CEG", 0)] + tail
  }

  /** The keys of a line record after "header", in the order of the columns they are read from. */
  function FieldKeys(v: Variant): (ks: seq<string>)
    ensures |ks| == ColumnCount(v)
  {
    var head := ["dbRef", "description", "operation", "Type", "TotalUnits"];
    var tail := ["Type2", "Number", "Qty", "TotalPrice", "Tax"];
    if v == Type1 then head + tail else head + ["CEG"] + tail
  }

  /** The x0 of the chosen hit of every heading word; an IndexError when a word has too few hits. */
  function HeadingColumns(page: Page, hs: seq<(string, nat)>): (r: Outcome<seq<real>>)
    ensures r.Ok? <==> forall k :: 0 <= k < |hs| ==> hs[k].1 < |page.search(hs[k].0)|
    ensures r.Ok? ==> |r.value| == |hs|
    ensures r.Ok? ==> forall k :: 0 <= k < |hs| ==> r.value[k] == page.search(hs[k].0)[hs[k].1].x0
  {
    if hs == [] then Ok([])
    else
      var first :- SearchHit(page, hs[0].0, hs[0].1);
      var rest :- HeadingColumns(page, hs[1..]);
      assert forall k :: 1 <= k < |hs| ==> hs[1..][k - 1] == hs[k];
      Ok([first.x0] + rest)
  }

  /** The column positions `xLine, xDes, ...` and whether all of them have been assigned. */
  datatype Columns = Columns(xs: seq<real>, bound: bool)

  /** All positions start at 0, except that type 2 never initialises `xCEG`. */
  function InitialColumns(v: Variant): (c: Columns)
    ensures |c.xs| == ColumnCount(v)
  {
    Columns(seq(ColumnCount(v), _ => 0.0), v == Type1)
  }

  /** A page holding the "Line #" heading resets every column; any other page keeps the columns
      of the previous pages. */
  function UpdateColumns(page: Page, hs: seq<(string, nat)>, cols: Columns): (r: Outcome<Columns>)
    requires |hs| >= 1 && |cols.xs| == |hs|
    ensures !Contains(page.text, hs[0].0) ==> r == Ok(cols)
    ensures Contains(page.text, hs[0].0) ==>
      (r.Ok? <==> forall k :: 0 <= k < |hs| ==> hs[k].1 < |page.search(hs[k].0)|)
    ensures r.Ok? ==> |r.value.xs| == |hs|
    ensures Contains(page.text, hs[0].0) && r.Ok? ==> r.value.bound
    ensures Contains(page.text, hs[0].0) && r.Ok? ==>
      forall k :: 0 <= k < |hs| ==> r.value.xs[k] == page.search(hs[k].0)[hs[k].1].x0
  {
    if Contains(page.text, hs[0].0) then
      var xs :- HeadingColumns(page, hs);
      Ok(Columns(xs, true))
    else Ok(cols)
  }

  // ---------------------------------------------------------------------------------------
  // Classifying spans
  // ---------------------------------------------------------------------------------------

  /** `line_start_pos`, `line_part_start_pos` and the current part heading `lPart`. */
  datatype Segmentation = Segmentation(entries: seq<Entry>, marks: seq<PartMark>, heading: string)

  /** A span exactly at the "Line #" column is a part heading (the exact `==` of the source). */
  predicate IsPartSpan(sp: Span, xLine: real) {
    sp.bbox.x0 == xLine
  }

  /** A span left of the "Description" column and not at the "Line #" column starts a line. */
  predicate IsLineSpan(sp: Span, xLine: real, xDes: real) {
    sp.bbox.x0 < xDes && sp.bbox.x0 != xLine
  }

  function SegmentStep(s: Segmentation, sp: Span, xLine: real, xDes: real): Segmentation {
    if IsPartSpan(sp, xLine) then
      Segmentation(s.entries + [Entry(PartEntry, sp.text, sp.bbox)],
                   s.marks + [PartMark(sp.text, sp.bbox)], sp.text)
    else if IsLineSpan(sp, xLine, xDes) then
      Segmentation(s.entries + [Entry(LineEntry, s.heading, sp.bbox)], s.marks, s.heading)
    else s
  }

  /** The span loop from span `j` on, with `s` what the spans before `j` produced. */
  function SegmentFrom(spans: seq<Span>, j: nat, s: Segmentation, xLine: real, xDes: real): Segmentation
    requires j <= |spans|
    decreases |spans| - j
  {
    if j == |spans| then s
    else SegmentFrom(spans, j + 1, SegmentStep(s, spans[j], xLine, xDes), xLine, xDes)
  }

  /** The span loop of one page, starting with the heading `heading0` left by the previous pages. */
  function Segment(spans: seq<Span>, xLine: real, xDes: real, heading0: string): Segmentation {
    SegmentFrom(spans, 0, Segmentation([], [], heading0), xLine, xDes)
  }

  /** The bboxes of the spans that are part headings or line starts, in stream order. */
  function ClassifiedBoxes(spans: seq<Span>, xLine: real, xDes: real): seq<Rect> {
    if spans == [] then []
    else
      var last := spans[|spans| - 1];
      ClassifiedBoxes(spans[..|spans| - 1], xLine, xDes)
        + (if IsPartSpan(last, xLine) || IsLineSpan(last, xLine, xDes) then [last.bbox] else [])
  }

  /** The text of the last part-heading span of `spans`, or `heading0` when there is none. */
  function LastPart(spans: seq<Span>, xLine: real, heading0: string): string {
    if spans == [] then heading0
    else if IsPartSpan(spans[|spans| - 1], xLine) then spans[|spans| - 1].text
    else LastPart(spans[..|spans| - 1], xLine, heading0)
  }

  /** The entries the spans call for, read off the spans alone: a part-heading span gives a
      part entry labelled with its own text, a line-start span a line entry labelled with the
      text of the last part-heading span before it, or `heading0` when there is none. */
  function ClassifiedEntries(spans: seq<Span>, xLine: real, xDes: real, heading0: string): seq<Entry> {
    if spans == [] then []
    else
      var pre, last := spans[..|spans| - 1], spans[|spans| - 1];
      ClassifiedEntries(pre, xLine, xDes, heading0)
        + (if IsPartSpan(last, xLine) then [Entry(PartEntry, last.text, last.bbox)]
           else if IsLineSpan(last, xLine, xDes) then [Entry(LineEntry, LastPart(pre, xLine, heading0), last.bbox)]
           else [])
  }

  /** What the span loop guarantees about its state after the spans `spans[..j]`. */
  predicate SegmentInv(spans: seq<Span>, j: nat, s: Segmentation, xLine: real, xDes: real, heading0: string)
    requires j <= |spans|
  {
    && Boxes(s.entries) == ClassifiedBoxes(spans[..j], xLine, xDes)
    && s.entries == ClassifiedEntries(spans[..j], xLine, xDes, heading0)
    && s.heading == LastPart(spans[..j], xLine, heading0)
    && s.marks == MarksOf(s.entries)
    && (forall i :: 0 <= i < |s.entries| ==>
          if s.entries[i].kind == PartEntry then s.entries[i].bbox.x0 == xLine
          else s.entries[i].bbox.x0 < xDes && s.entries[i].bbox.x0 != xLine)
    && (forall i :: 0 <= i < |s.entries| && s.entries[i].kind == LineEntry ==>
          s.entries[i].part == HeadingBefore(s.entries, i, heading0))
    && s.heading == HeadingBefore(s.entries, |s.entries|, heading0)
  }

  lemma SegmentStepInv(spans: seq<Span>, j: nat, s: Segmentation, xLine: real, xDes: real, heading0: string)
    requires j < |spans| && SegmentInv(spans, j, s, xLine, xDes, heading0)
    ensures SegmentInv(spans, j + 1, SegmentStep(s, spans[j], xLine, xDes), xLine, xDes, heading0)
  {
    var sp := spans[j];
    var t := SegmentStep(s, sp, xLine, xDes);
    assert spans[..j + 1][..j] == spans[..j];
    assert spans[..j + 1][j] == sp;
    if t.entries != s.entries {
      var e := t.entries[|t.entries| - 1];
      assert t.entries == s.entries + [e];
      assert t.entries[..|t.entries| - 1] == s.entries;
      forall i | 0 <= i <= |s.entries| {
        HeadingBeforeExtend(s.entries, e, i, heading0);
      }
    }
  }

  lemma {:induction false} SegmentFromInv(spans: seq<Span>, j: nat, s: Segmentation, xLine: real, xDes: real, heading0: string)
    requires j <= |spans| && SegmentInv(spans, j, s, xLine, xDes, heading0)
    ensures SegmentInv(spans, |spans|, SegmentFrom(spans, j, s, xLine, xDes), xLine, xDes, heading0)
    decreases |spans| - j
  {
    if j < |spans| {
      SegmentStepInv(spans, j, s, xLine, xDes, heading0);
      SegmentFromInv(spans, j + 1, SegmentStep(s, spans[j], xLine, xDes), xLine, xDes, heading0);
    }
  }

  /** The span loop classifies exactly the part-heading and line-start spans, in stream order.
      Its entries are those the spans call for: a part entry is labelled with its own span's
      text, and a line entry with the text of the last part-heading span before it. The part
      marks are the part entries. The heading left for the next page is the last part
      heading, or the one it started with when the page has none. */
  lemma SegmentSpec(spans: seq<Span>, xLine: real, xDes: real, heading0: string)
    ensures var s := Segment(spans, xLine, xDes, heading0);
      && Boxes(s.entries) == ClassifiedBoxes(spans, xLine, xDes)
      && s.entries == ClassifiedEntries(spans, xLine, xDes, heading0)
      && s.heading == LastPart(spans, xLine, heading0)
      && s.marks == MarksOf(s.entries)
      && (forall i :: 0 <= i < |s.entries| ==>
            if s.entries[i].kind == PartEntry then s.entries[i].bbox.x0 == xLine
            else s.entries[i].bbox.x0 < xDes && s.entries[i].bbox.x0 != xLine)
      && (forall i :: 0 <= i < |s.entries| && s.entries[i].kind == LineEntry ==>
            s.entries[i].part == HeadingBefore(s.entries, i, heading0))
      && s.heading == HeadingBefore(s.entries, |s.entries|, heading0)
  {
    assert spans[..0] == [];
    SegmentFromInv(spans, 0, Segmentation([], [], heading0), xLine, xDes, heading0);
    assert spans[..|spans|] == spans;
  }

  // ---------------------------------------------------------------------------------------
  // Rows
  // ---------------------------------------------------------------------------------------

  /** The horizontal band of every field: the reference number from 25 right of "Line #" to 3
      left of "Description", each further column up to 3 left of the next, "Tax" 40 wide. */
  function Bands(xs: seq<real>): (bs: seq<(real, real)>)
    requires |xs| >= 2
    ensures |bs| == |xs|
    ensures bs[0] == (xs[0] + 25.0, xs[1] - 3.0)
    ensures forall k {:trigger bs[k]} :: 1 <= k < |xs| - 1 ==> bs[k] == (xs[k], xs[k + 1] - 3.0)
    ensures bs[|xs| - 1] == (xs[|xs| - 1], xs[|xs| - 1] + 40.0)
  {
    seq(|xs|, k requires 0 <= k < |xs| =>
      if k == 0 then (xs[0] + 25.0, xs[1] - 3.0)
      else if k + 1 < |xs| then (xs[k], xs[k + 1] - 3.0)
      else (xs[k], xs[k] + 40.0))
  }

  /** Neighbouring field bands never overlap: each ends 3 left of where the next begins. */
  lemma BandsDisjoint(xs: seq<real>)
    requires |xs| >= 2
    ensures forall k :: 0 <= k < |xs| - 1 ==> Bands(xs)[k].1 < Bands(xs)[k + 1].0
  {
    var bs := Bands(xs);
    forall k | 0 <= k < |xs| - 1 ensures bs[k].1 < bs[k + 1].0 {
      assert bs[k].1 == xs[k + 1] - 3.0;
      assert bs[k + 1].0 == xs[k + 1];
    }
  }

  /** The field texts of a line starting at `top` whose row ends at `bottom`: each band read
      from `top` to 3 above `bottom`. */
  function RawFields(page: Page, xs: seq<real>, top: real, bottom: real): (raw: seq<string>)
    requires |xs| >= 2
    ensures |raw| == |xs|
  {
    var bs := Bands(xs);
    seq(|bs|, k requires 0 <= k < |bs| => ReadTextByPosMc(page, bs[k].0, top, bs[k].1, bottom - 3.0))
  }

  /** The record of entry `idx`, if it is a line entry with some text in its bands. */
  function RowOf(page: Page, xs: seq<real>, seg: Segmentation, idx: nat): Option<Row>
    requires |xs| >= 2 && idx < |seg.entries|
  {
    var e := seg.entries[idx];
    if e.kind != LineEntry then None
    else
      var bottom := RowBottom(StartY0s(seg.entries), idx, NextPartY0(e.part, seg.marks), page.height);
      AssembleRow(e.part, RawFields(page, xs, e.bbox.y0, bottom))
  }

  /** The record loop from entry `k` on, with `acc` the records of the entries before `k`. */
  function RowsFrom(page: Page, xs: seq<real>, seg: Segmentation, k: nat, acc: seq<Row>): seq<Row>
    requires |xs| >= 2 && k <= |seg.entries|
    decreases |seg.entries| - k
  {
    if k == |seg.entries| then acc
    else RowsFrom(page, xs, seg, k + 1, acc + OptionList(RowOf(page, xs, seg, k)))
  }

  /** The records of a page, in entry order. */
  function PageRows(page: Page, xs: seq<real>, seg: Segmentation): seq<Row>
    requires |xs| >= 2
  {
    RowsFrom(page, xs, seg, 0, [])
  }

  lemma {:induction false} RowsFromSpec(page: Page, xs: seq<real>, seg: Segmentation, k: nat, acc: seq<Row>)
    requires |xs| >= 2 && k <= |seg.entries|
    ensures var rows := RowsFrom(page, xs, seg, k, acc);
      && acc <= rows
      && |rows| <= |acc| + LineEntryCount(seg.entries[k..])
      && forall m :: |acc| <= m < |rows| ==> GoodRow(rows[m], |xs|, seg.entries)
    decreases |seg.entries| - k
  {
    if k < |seg.entries| {
      var row := RowOf(page, xs, seg, k);
      var acc' := acc + OptionList(row);
      RowsFromSpec(page, xs, seg, k + 1, acc');
      assert seg.entries[k..][1..] == seg.entries[k + 1..];
      if row.Some? {
        var r := row.value;
        assert acc'[|acc|] == r;
        assert forall f :: 0 <= f < |r.fields| ==> r.fields[f] != "";
        assert GoodRow(r, |xs|, seg.entries);
      }
    }
  }

  /** At most one record per line entry, each with one non-empty field per column and the
      heading of one of the page's line entries. */
  lemma PageRowsSpec(page: Page, xs: seq<real>, seg: Segmentation)
    requires |xs| >= 2
    ensures var rows := PageRows(page, xs, seg);
      && |rows| <= LineEntryCount(seg.entries)
      && forall row :: row in rows ==> GoodRow(row, |xs|, seg.entries)
  {
    RowsFromSpec(page, xs, seg, 0, []);
    assert seg.entries[0..] == seg.entries;
  }

  // ---------------------------------------------------------------------------------------
  // The page loop
  // ---------------------------------------------------------------------------------------

  /** `lines`, the column positions and `lPart` between pages. */
  datatype ReadState = ReadState(rows: seq<Row>, cols: Columns, heading: string)

  predicate HasLineEntry(seg: Segmentation) {
    exists i :: 0 <= i < |seg.entries| && seg.entries[i].kind == LineEntry
  }

  /** One page: update the columns, classify the spans, then emit the records of its lines.
      Reading a line's bands with `xCEG` unassigned raises an UnboundLocalError. */
  function PageStep(st: ReadState, page: Page, v: Variant, lang: Language): (r: Outcome<ReadState>)
    requires |st.cols.xs| == ColumnCount(v)
    ensures r.Ok? ==> |r.value.cols.xs| == ColumnCount(v)
    ensures r.Ok? ==> st.rows <= r.value.rows
  {
    var cols :- UpdateColumns(page, Headings(v, lang), st.cols);
    var seg := Segment(Spans(page), cols.xs[0], cols.xs[1], st.heading);
    if !cols.bound && HasLineEntry(seg) then Crash("UnboundLocalError: xCEG")
    else Ok(ReadState(st.rows + PageRows(page, cols.xs, seg), cols, seg.heading))
  }

  /** The page loop from page `p` on. */
  function ReadFrom(pages: seq<Page>, p: nat, st: ReadState, v: Variant, lang: Language): Outcome<seq<Row>>
    requires p <= |pages| && |st.cols.xs| == ColumnCount(v)
    decreases |pages| - p
  {
    if p == |pages| then Ok(st.rows)
    else
      var next :- PageStep(st, pages[p], v, lang);
      ReadFrom(pages, p + 1, next, v, lang)
  }

  /** What `read_text_mitchell_type_1` (Type1) or `read_text_mitchell_type_2` (Type2) returns
      for the pages of the cleaned document. */
  function ReadMitchell(pages: seq<Page>, v: Variant, lang: Language): Outcome<seq<Row>> {
    ReadFrom(pages, 0, ReadState([], InitialColumns(v), ""), v, lang)
  }

  /** Pages only append records: what the earlier pages produced heads the result. */
  lemma {:induction false} ReadFromExtends(pages: seq<Page>, p: nat, st: ReadState, v: Variant, lang: Language)
    requires p <= |pages| && |st.cols.xs| == ColumnCount(v)
    ensures ReadFrom(pages, p, st, v, lang).Ok? ==> st.rows <= ReadFrom(pages, p, st, v, lang).value
    decreases |pages| - p
  {
    if p < |pages| {
      var next := PageStep(st, pages[p], v, lang);
      if next.Ok? {
        ReadFromExtends(pages, p + 1, next.value, v, lang);
      }
    }
  }

  /** A type 2 read raises as soon as a line appears before any heading row, since `xCEG` is
      then unassigned; a type 1 read never raises for that reason. */
  lemma Type2NeedsHeading(page: Page, lang: Language)
    requires !Contains(page.text, Headings(Type2, lang)[0].0)
    requires HasLineEntry(Segment(Spans(page), 0.0, 0.0, ""))
    ensures ReadMitchell([page], Type2, lang) == Crash("UnboundLocalError: xCEG")
  {
    var st := ReadState([], InitialColumns(Type2), "");
    assert InitialColumns(Type2).xs[0] == 0.0 && InitialColumns(Type2).xs[1] == 0.0;
    assert PageStep(st, page, Type2, lang) == Crash("UnboundLocalError: xCEG");
  }

  // ---------------------------------------------------------------------------------------
  // The loops
  // ---------------------------------------------------------------------------------------

  /** The span loop of one page: appends to `line_start_pos` and `line_part_start_pos` and
      moves `lPart`. */
  method SegmentSpans(spans: seq<Span>, xLine: real, xDes: real, heading0: string) returns (seg: Segmentation)
    ensures seg == Segment(spans, xLine, xDes, heading0)
  {
    var entries: seq<Entry> := [];
    var marks: seq<PartMark> := [];
    var heading := heading0;
    var j := 0;
    while j < |spans|
      invariant 0 <= j <= |spans|
      invariant Segment(spans, xLine, xDes, heading0)
        == SegmentFrom(spans, j, Segmentation(entries, marks, heading), xLine, xDes)
    {
      var sp := spans[j];
      if sp.bbox.x0 == xLine {
        heading := sp.text;
        marks := marks + [PartMark(heading, sp.bbox)];
        entries := entries + [Entry(PartEntry, heading, sp.bbox)];
      }
      if sp.bbox.x0 < xDes && sp.bbox.x0 != xLine {
        entries := entries + [Entry(LineEntry, heading, sp.bbox)];
      }
      j := j + 1;
    }
    seg := Segmentation(entries, marks, heading);
  }

  /** The record of one entry: for a line entry, its extent, then its fields. */
  method EntryRecord(page: Page, xs: seq<real>, seg: Segmentation, k: nat) returns (row: Option<Row>)
    requires |xs| >= 2 && k < |seg.entries|
    ensures row == RowOf(page, xs, seg, k)
  {
    var entries := seg.entries;
    var e := entries[k];
    if e.kind != LineEntry {
      return None;
    }
    var partY0 := GetNextPartPos(e.part, seg.marks);
    var bottom := page.height;
    if k + 1 < |entries| {
      bottom := entries[k + 1].bbox.y0;
      if partY0 != 0.0 && partY0 < bottom {
        bottom := partY0;
      }
    }
    assert bottom == RowBottom(StartY0s(entries), k, partY0, page.height);
    row := AssembleRow(e.part, RawFields(page, xs, e.bbox.y0, bottom));
  }

  /** The record loop of one page, over `line_start_pos` in order. */
  method PageRecords(page: Page, xs: seq<real>, seg: Segmentation) returns (rows: seq<Row>)
    requires |xs| >= 2
    ensures rows == PageRows(page, xs, seg)
  {
    rows := [];
    var k := 0;
    while k < |seg.entries|
      invariant 0 <= k <= |seg.entries|
      invariant PageRows(page, xs, seg) == RowsFrom(page, xs, seg, k, rows)
    {
      var row := EntryRecord(page, xs, seg, k);
      rows := rows + OptionList(row);
      k := k + 1;
    }
  }

  /** Whether `line_start_pos` holds a line entry, found by scanning it. */
  method FindLineEntry(seg: Segmentation) returns (found: bool)
    ensures found == HasLineEntry(seg)
  {
    found := false;
    var k := 0;
    while k < |seg.entries|
      invariant 0 <= k <= |seg.entries|
      invariant !found <==> forall i :: 0 <= i < k ==> seg.entries[i].kind != LineEntry
    {
      if seg.entries[k].kind == LineEntry {
        found := true;
      }
      k := k + 1;
    }
  }

  /** One pass of the page loop: the heading columns, the span loop, then the record loop. */
  method ReadPage(st: ReadState, page: Page, v: Variant, lang: Language) returns (r: Outcome<ReadState>)
    requires |st.cols.xs| == ColumnCount(v)
    ensures r == PageStep(st, page, v, lang)
  {
    var updated := UpdateColumns(page, Headings(v, lang), st.cols);
    if updated.Crash? {
      return Crash(updated.reason);
    }
    var cols := updated.value;
    var seg := SegmentSpans(Spans(page), cols.xs[0], cols.xs[1], st.heading);
    if !cols.bound {
      // the first line entry reads the unassigned xCEG
      var hasLine := FindLineEntry(seg);
      if hasLine {
        return Crash("UnboundLocalError: xCEG");
      }
    }
    var pageRows := PageRecords(page, cols.xs, seg);
    r := Ok(ReadState(st.rows + pageRows, cols, seg.heading));
  }

  /** `read_text_mitchell_type_1` / `read_text_mitchell_type_2`: the page loop. */
  method ReadTextMitchell(pages: seq<Page>, v: Variant, lang: Language) returns (r: Outcome<seq<Row>>)
    ensures r == ReadMitchell(pages, v, lang)
  {
    var st := ReadState([], InitialColumns(v), "");
    var p := 0;
    while p < |pages|
      invariant 0 <= p <= |pages| && |st.cols.xs| == ColumnCount(v)
      invariant ReadMitchell(pages, v, lang) == ReadFrom(pages, p, st, v, lang)
    {
      var next := ReadPage(st, pages[p], v, lang);
      ReadFromStep(pages, p, st, v, lang);
      if next.Crash? {
        return Crash(next.reason);
      }
      st := next.value;
      p := p + 1;
    }
    r := Ok(st.rows);
  }

  /** The page loop from page `p` is the step on page `p`, then the loop from the next page. */
  lemma ReadFromStep(pages: seq<Page>, p: nat, st: ReadState, v: Variant, lang: Language)
    requires p < |pages| && |st.cols.xs| == ColumnCount(v)
    ensures PageStep(st, pages[p], v, lang).Crash? ==>
      ReadFrom(pages, p, st, v, lang) == Crash(PageStep(st, pages[p], v, lang).reason)
    ensures PageStep(st, pages[p], v, lang).Ok? ==>
      |PageStep(st, pages[p], v, lang).value.cols.xs| == ColumnCount(v) &&
      ReadFrom(pages, p, st, v, lang) == ReadFrom(pages, p + 1, PageStep(st, pages[p], v, lang).value, v, lang)
  {
  }
}
