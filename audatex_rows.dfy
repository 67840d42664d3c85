/** The line-item segmenters of Audatex estimates, `read_text_audatex` and
    `read_text_audatex_second_table` (parse-pdf-mirroring-3-13/lambda_function.py). Both read
    the single merged page. The columns come from the heading words; a span at the left margin
    starts a part, a span inside the "Line" heading starts a line, and a span in the
    "Description" column on a new visual line is a wrapped sub-line of the last entry. When the
    page holds a second table, the first reader stops at its heading and appends the rows of
    the second reader, which starts there. */
module AudatexRows {
  import opened Wrappers
  import opened PyText
  import opened PdfDocument
  import opened PdfRows
  import opened PdfText

  /** The heading words: Line, Op, Guide, MC, Description, part number, price, adjustment,
      R, hours and T. */
  function Words(lang: Language): (ws: seq<string>)
    ensures |ws| == 11
  {
    if lang == Fr then
      ["Ligne", "Op", "Guide", "MC", "Description", "# Pièce Manufact.", "Prix", "Ajust%", "R%", "Heures", "T"]
    else
      ["Line", "Op", "Guide", "MC", "Description", "MFR.Part No.", "Price", "ADJ%", "B%", "Hours", "R"]
  }

  datatype Table = FirstTable | SecondTable

  /** The `search_for` hit a column is read from: the first table takes the first hit of every
      word, the second table the second hit of every word except "MC". */
  function HitIndex(t: Table, k: nat): nat {
    if t == FirstTable || k == 3 then 0 else 1
  }

  /** The chosen hit of every word from the `k`-th on; an IndexError when one has too few. */
  function Hits(page: Page, ws: seq<string>, t: Table, k: nat): (r: Outcome<seq<Rect>>)
    requires k <= |ws|
    ensures r.Ok? <==> forall i :: k <= i < |ws| ==> HitIndex(t, i) < |page.search(ws[i])|
    ensures r.Ok? ==> |r.value| == |ws| - k
    ensures r.Ok? ==> forall i :: k <= i < |ws| ==> r.value[i - k] == page.search(ws[i])[HitIndex(t, i)]
    decreases |ws| - k
  {
    if k == |ws| then Ok([])
    else
      var first :- SearchHit(page, ws[k], HitIndex(t, k));
      var rest :- Hits(page, ws, t, k + 1);
      Ok([first] + rest)
  }

  /** The heading rectangles `xLine, xOp, ..., xT`. */
  datatype Columns = Columns(
    line: Rect, op: Rect, guide: Rect, mc: Rect, des: Rect, man: Rect,
    prix: Rect, ajust: Rect, r: Rect, heures: Rect, t: Rect)

  /** The columns stay `None` unless the page text holds the "Line" word; then every word is
      looked up, and a word with too few hits raises an IndexError. */
  function TableColumns(page: Page, t: Table, lang: Language): (r: Outcome<Option<Columns>>)
    ensures !Contains(page.text, Words(lang)[0]) ==> r == Ok(None)
    ensures Contains(page.text, Words(lang)[0]) ==>
      (r.Ok? <==> forall i :: 0 <= i < 11 ==> HitIndex(t, i) < |page.search(Words(lang)[i])|)
    ensures r.Ok? && r.value.Some? ==>
      && r.value.value.line == page.search(Words(lang)[0])[HitIndex(t, 0)]
      && r.value.value.des == page.search(Words(lang)[4])[HitIndex(t, 4)]
      && r.value.value.man == page.search(Words(lang)[5])[HitIndex(t, 5)]
  {
    var ws := Words(lang);
    if Contains(page.text, ws[0]) then
      var hs :- Hits(page, ws, t, 0);
      Ok(Some(Columns(hs[0], hs[1], hs[2], hs[3], hs[4], hs[5], hs[6], hs[7], hs[8], hs[9], hs[10])))
    else Ok(None)
  }

  // ---------------------------------------------------------------------------------------
  // Classifying spans
  // ---------------------------------------------------------------------------------------

  /** The spans a reader looks at: above the second heading (first table) or from it on
      (second table). */
  datatype Window = Above(limit: real) | From(start: real)

  predicate InWindow(w: Window, y0: real) {
    match w
    case Above(limit) => y0 < limit
    case From(start) => y0 >= start
  }

  /** `xPart`: spans at or left of it are part headings. */
  const PartColumn: real := 24.0

  function Abs(x: real): real {
    if x < 0.0 then -x else x
  }

  predicate IsPartSpan(sp: Span) {
    sp.bbox.x0 <= PartColumn
  }

  predicate IsLineSpan(sp: Span, c: Columns) {
    c.line.x0 < sp.bbox.x0 <= c.line.x1
  }

  predicate AtManColumn(sp: Span, c: Columns) {
    Abs(sp.bbox.x0 - c.man.x0) < 1.0
  }

  /** An entry of `line_start_pos` with its `sub_lines` and its `next_line_y0` (unset: None). */
  datatype Item = Item(entry: Entry, sub: string, next: Option<real>)

  /** The state of the span loop: `line_start_pos`, `line_part_start_pos`, `lPart`,
      `last_line_pos` and `pos_finnish_man`. */
  datatype Scan = Scan(items: seq<Item>, marks: seq<PartMark>, heading: string, lastY1: real, manEnd: real)

  function Entries(items: seq<Item>): (es: seq<Entry>)
    ensures |es| == |items|
    ensures forall i :: 0 <= i < |items| ==> es[i] == items[i].entry
  {
    seq(|items|, i requires 0 <= i < |items| => items[i].entry)
  }

  /** Sets the last entry's `next_line_y0` when there is one and it is unset. */
  function SetNextIfUnset(items: seq<Item>, y: real): (r: seq<Item>)
    ensures Entries(r) == Entries(items)
  {
    if items != [] && items[|items| - 1].next.None? then
      items[|items| - 1 := items[|items| - 1].(next := Some(y))]
    else items
  }

  function AddPart(s: Scan, sp: Span): (r: Scan)
    ensures Entries(r.items) == Entries(s.items) + [Entry(PartEntry, sp.text, sp.bbox)]
    ensures r.marks == s.marks + [PartMark(sp.text, sp.bbox)] && r.heading == sp.text
    ensures r.lastY1 == s.lastY1 && r.manEnd == s.manEnd
  {
    s.(items := s.items + [Item(Entry(PartEntry, sp.text, sp.bbox), "", None)],
       marks := s.marks + [PartMark(sp.text, sp.bbox)],
       heading := sp.text)
  }

  function AddLine(s: Scan, sp: Span): (r: Scan)
    ensures Entries(r.items) == Entries(s.items) + [Entry(LineEntry, s.heading, sp.bbox)]
    ensures r.marks == s.marks && r.heading == s.heading
    ensures r.lastY1 == s.lastY1 && r.manEnd == s.manEnd
  {
    s.(items := SetNextIfUnset(s.items, sp.bbox.y0) + [Item(Entry(LineEntry, s.heading, sp.bbox), "", None)])
  }

  /** A span on a new visual line: in the "Description" column it is a wrapped sub-line of
      the last entry; in any case it moves `last_line_pos`. */
  function SubLine(s: Scan, sp: Span, c: Columns): (r: Scan)
    ensures Entries(r.items) == Entries(s.items)
    ensures r.marks == s.marks && r.heading == s.heading && r.manEnd == s.manEnd
    ensures r.lastY1 == sp.bbox.y1
  {
    var items :=
      if Abs(sp.bbox.x0 - c.des.x0) < 1.0 && s.items != [] then
        var last := s.items[|s.items| - 1];
        SetNextIfUnset(s.items[|s.items| - 1 := last.(sub := last.sub + "\n" + sp.text)], sp.bbox.y0)
      else s.items;
    s.(items := items, lastY1 := sp.bbox.y1)
  }

  /** One span inside the window, with the columns known. */
  function ScanSpan(s: Scan, sp: Span, c: Columns): Scan {
    var s1 := if IsPartSpan(sp) then AddPart(s, sp) else s;
    var s2 := if IsLineSpan(sp, c) then AddLine(s1, sp) else s1;
    var s3 := if Abs(sp.bbox.y1 - s2.lastY1) > 2.0 then SubLine(s2, sp, c) else s2;
    if AtManColumn(sp, c) && s3.manEnd < sp.bbox.x1 then s3.(manEnd := sp.bbox.x1) else s3
  }

  /** One span: skipped outside the window; without columns, `xLine.x1` raises. */
  function ScanStep(s: Scan, sp: Span, cols: Option<Columns>, w: Window): Outcome<Scan> {
    if !InWindow(w, sp.bbox.y0) then Ok(s)
    else if cols.None? then Crash("AttributeError: 'NoneType' object has no attribute 'x1'")
    else Ok(ScanSpan(s, sp, cols.value))
  }

  /** The span loop from span `j` on. */
  function ScanFrom(spans: seq<Span>, j: nat, s: Scan, cols: Option<Columns>, w: Window): Outcome<Scan>
    requires j <= |spans|
    decreases |spans| - j
  {
    if j == |spans| then Ok(s)
    else
      var next :- ScanStep(s, spans[j], cols, w);
      ScanFrom(spans, j + 1, next, cols, w)
  }

  const InitialScan := Scan([], [], "", 0.0, 0.0)

  function ScanSpans(spans: seq<Span>, cols: Option<Columns>, w: Window): Outcome<Scan> {
    ScanFrom(spans, 0, InitialScan, cols, w)
  }

  /** The bboxes the loop turns into entries: a span can start both a part and a line. */
  function SpanBoxes(sp: Span, c: Columns, w: Window): seq<Rect> {
    if !InWindow(w, sp.bbox.y0) then []
    else (if IsPartSpan(sp) then [sp.bbox] else []) + (if IsLineSpan(sp, c) then [sp.bbox] else [])
  }

  function ClassifiedBoxes(spans: seq<Span>, c: Columns, w: Window): seq<Rect> {
    if spans == [] then []
    else ClassifiedBoxes(spans[..|spans| - 1], c, w) + SpanBoxes(spans[|spans| - 1], c, w)
  }

  /** The text of the last part-heading span of the window among `spans`, or "" when there
      is none. */
  function LastPart(spans: seq<Span>, w: Window): string {
    if spans == [] then ""
    else
      var last := spans[|spans| - 1];
      if InWindow(w, last.bbox.y0) && IsPartSpan(last) then last.text else LastPart(spans[..|spans| - 1], w)
  }

  /** The entries one span calls for, `heading` being the part label before it. A span at the
      left margin gives a part entry labelled with its own text. A span inside the "Line"
      heading gives a line entry; when the span is both, the line entry comes second and
      carries the span's own text as its label. */
  function SpanEntries(sp: Span, heading: string, c: Columns, w: Window): seq<Entry> {
    if !InWindow(w, sp.bbox.y0) then []
    else
      (if IsPartSpan(sp) then [Entry(PartEntry, sp.text, sp.bbox)] else [])
        + (if IsLineSpan(sp, c) then [Entry(LineEntry, if IsPartSpan(sp) then sp.text else heading, sp.bbox)] else [])
  }

  /** The entries the spans call for, read off the spans alone. */
  function ClassifiedEntries(spans: seq<Span>, c: Columns, w: Window): seq<Entry> {
    if spans == [] then []
    else
      var pre := spans[..|spans| - 1];
      ClassifiedEntries(pre, c, w) + SpanEntries(spans[|spans| - 1], LastPart(pre, w), c, w)
  }

  /** `pos_finnish_man` after the spans `spans`: 0 or the largest right edge of a span in the
      window at the part-number column. */
  predicate IsManEnd(m: real, spans: seq<Span>, c: Columns, w: Window) {
    && m >= 0.0
    && (forall k :: 0 <= k < |spans| && InWindow(w, spans[k].bbox.y0) && AtManColumn(spans[k], c) ==>
          spans[k].bbox.x1 <= m)
    && (m == 0.0 || exists k :: (0 <= k < |spans| && InWindow(w, spans[k].bbox.y0)
          && AtManColumn(spans[k], c) && spans[k].bbox.x1 == m))
  }

  /** The entries, part marks and current heading of the loop are consistent: entries lie in
      the window at their column, the marks are the part entries, and every line carries the
      heading of the nearest part before it. */
  predicate EntriesOk(es: seq<Entry>, marks: seq<PartMark>, heading: string, c: Columns, w: Window) {
    && marks == MarksOf(es)
    && (forall i :: 0 <= i < |es| ==> InWindow(w, es[i].bbox.y0))
    && (forall i :: 0 <= i < |es| ==>
          if es[i].kind == PartEntry then es[i].bbox.x0 <= PartColumn
          else c.line.x0 < es[i].bbox.x0 <= c.line.x1)
    && (forall i :: 0 <= i < |es| && es[i].kind == LineEntry ==> es[i].part == HeadingBefore(es, i, ""))
    && heading == HeadingBefore(es, |es|, "")
  }

  /** What the span loop guarantees about its state after the spans `pre`. */
  predicate ScanOk(pre: seq<Span>, s: Scan, c: Columns, w: Window) {
    && Boxes(Entries(s.items)) == ClassifiedBoxes(pre, c, w)
    && EntriesOk(Entries(s.items), s.marks, s.heading, c, w)
    && IsManEnd(s.manEnd, pre, c, w)
  }

  /** The entries and the current label of the loop are those the spans `pre` call for. */
  predicate ScanLabels(pre: seq<Span>, s: Scan, c: Columns, w: Window) {
    Entries(s.items) == ClassifiedEntries(pre, c, w) && s.heading == LastPart(pre, w)
  }

  predicate ScanInv(spans: seq<Span>, j: nat, s: Scan, c: Columns, w: Window)
    requires j <= |spans|
  {
    ScanOk(spans[..j], s, c, w)
  }

  lemma AppendEntryOk(es: seq<Entry>, marks: seq<PartMark>, heading: string, e: Entry, c: Columns, w: Window)
    requires EntriesOk(es, marks, heading, c, w)
    requires InWindow(w, e.bbox.y0)
    requires if e.kind == PartEntry then e.bbox.x0 <= PartColumn else c.line.x0 < e.bbox.x0 <= c.line.x1
    requires e.kind == LineEntry ==> e.part == heading
    ensures EntriesOk(es + [e], marks + (if e.kind == PartEntry then [PartMark(e.part, e.bbox)] else []),
                      if e.kind == PartEntry then e.part else heading, c, w)
    ensures Boxes(es + [e]) == Boxes(es) + [e.bbox]
  {
    forall i | 0 <= i <= |es| {
      HeadingBeforeExtend(es, e, i, "");
    }
    assert (es + [e])[..|es|] == es;
  }

  lemma ManEndStep(pre: seq<Span>, sp: Span, m: real, c: Columns, w: Window)
    requires IsManEnd(m, pre, c, w)
    ensures IsManEnd(if InWindow(w, sp.bbox.y0) && AtManColumn(sp, c) && m < sp.bbox.x1 then sp.bbox.x1 else m,
                     pre + [sp], c, w)
  {
    var q := pre + [sp];
    var m' := if InWindow(w, sp.bbox.y0) && AtManColumn(sp, c) && m < sp.bbox.x1 then sp.bbox.x1 else m;
    forall k | 0 <= k < |q| && InWindow(w, q[k].bbox.y0) && AtManColumn(q[k], c) ensures q[k].bbox.x1 <= m' {
      if k < |pre| { assert q[k] == pre[k]; }
    }
    if m' != 0.0 {
      if m' == m {
        var k :| 0 <= k < |pre| && InWindow(w, pre[k].bbox.y0) && AtManColumn(pre[k], c) && pre[k].bbox.x1 == m;
        assert q[k] == pre[k];
      } else {
        assert q[|pre|] == sp;
      }
    }
  }

  lemma ScanSpanEntries(s: Scan, sp: Span, c: Columns)
    ensures var t := ScanSpan(s, sp, c);
      && Entries(t.items) == Entries(s.items)
           + (if IsPartSpan(sp) then [Entry(PartEntry, sp.text, sp.bbox)] else [])
           + (if IsLineSpan(sp, c) then [Entry(LineEntry, if IsPartSpan(sp) then sp.text else s.heading, sp.bbox)] else [])
      && t.marks == s.marks + (if IsPartSpan(sp) then [PartMark(sp.text, sp.bbox)] else [])
      && t.heading == (if IsPartSpan(sp) then sp.text else s.heading)
      && t.manEnd == (if AtManColumn(sp, c) && s.manEnd < sp.bbox.x1 then sp.bbox.x1 else s.manEnd)
  {
  }

  lemma PartEntryOk(es: seq<Entry>, marks: seq<PartMark>, heading: string, sp: Span, c: Columns, w: Window)
    requires EntriesOk(es, marks, heading, c, w) && InWindow(w, sp.bbox.y0)
    ensures var add := IsPartSpan(sp);
      && EntriesOk(es + (if add then [Entry(PartEntry, sp.text, sp.bbox)] else []),
                   marks + (if add then [PartMark(sp.text, sp.bbox)] else []),
                   if add then sp.text else heading, c, w)
      && Boxes(es + (if add then [Entry(PartEntry, sp.text, sp.bbox)] else []))
           == Boxes(es) + (if add then [sp.bbox] else [])
  {
    if IsPartSpan(sp) {
      AppendEntryOk(es, marks, heading, Entry(PartEntry, sp.text, sp.bbox), c, w);
    } else {
      assert es + [] == es && marks + [] == marks && Boxes(es) + [] == Boxes(es);
    }
  }

  lemma LineEntryOk(es: seq<Entry>, marks: seq<PartMark>, heading: string, sp: Span, c: Columns, w: Window)
    requires EntriesOk(es, marks, heading, c, w) && InWindow(w, sp.bbox.y0)
    ensures var add := IsLineSpan(sp, c);
      && EntriesOk(es + (if add then [Entry(LineEntry, heading, sp.bbox)] else []), marks, heading, c, w)
      && Boxes(es + (if add then [Entry(LineEntry, heading, sp.bbox)] else []))
           == Boxes(es) + (if add then [sp.bbox] else [])
  {
    if IsLineSpan(sp, c) {
      AppendEntryOk(es, marks, heading, Entry(LineEntry, heading, sp.bbox), c, w);
      assert marks + [] == marks;
    } else {
      assert es + [] == es && Boxes(es) + [] == Boxes(es);
    }
  }

  /** Adding the part entry, then the line entry, of one span keeps the entries consistent. */
  lemma SpanEntriesOk(es: seq<Entry>, marks: seq<PartMark>, heading: string, sp: Span, c: Columns, w: Window)
    requires EntriesOk(es, marks, heading, c, w) && InWindow(w, sp.bbox.y0)
    ensures var es1 := es + (if IsPartSpan(sp) then [Entry(PartEntry, sp.text, sp.bbox)] else []);
      var h1 := if IsPartSpan(sp) then sp.text else heading;
      var es2 := es1 + (if IsLineSpan(sp, c) then [Entry(LineEntry, h1, sp.bbox)] else []);
      EntriesOk(es2, marks + (if IsPartSpan(sp) then [PartMark(sp.text, sp.bbox)] else []), h1, c, w)
  {
    PartEntryOk(es, marks, heading, sp, c, w);
    var es1 := es + (if IsPartSpan(sp) then [Entry(PartEntry, sp.text, sp.bbox)] else []);
    var marks1 := marks + (if IsPartSpan(sp) then [PartMark(sp.text, sp.bbox)] else []);
    var h1 := if IsPartSpan(sp) then sp.text else heading;
    LineEntryOk(es1, marks1, h1, sp, c, w);
  }

  /** The boxes of the entries one span adds are the span's classified boxes. */
  lemma SpanBoxesOk(es: seq<Entry>, h1: string, sp: Span, c: Columns, w: Window)
    requires InWindow(w, sp.bbox.y0)
    ensures var pl := if IsPartSpan(sp) then [Entry(PartEntry, sp.text, sp.bbox)] else [];
      var ll := if IsLineSpan(sp, c) then [Entry(LineEntry, h1, sp.bbox)] else [];
      Boxes(es + pl + ll) == Boxes(es) + SpanBoxes(sp, c, w)
  {
    var pl := if IsPartSpan(sp) then [Entry(PartEntry, sp.text, sp.bbox)] else [];
    var ll := if IsLineSpan(sp, c) then [Entry(LineEntry, h1, sp.bbox)] else [];
    BoxesConcat(es, pl);
    BoxesConcat(es + pl, ll);
    assert Boxes(pl) + Boxes(ll) == SpanBoxes(sp, c, w);
  }

  lemma ScanStepOk(pre: seq<Span>, sp: Span, s: Scan, c: Columns, w: Window)
    requires ScanOk(pre, s, c, w)
    ensures ScanStep(s, sp, Some(c), w).Ok?
    ensures ScanOk(pre + [sp], ScanStep(s, sp, Some(c), w).value, c, w)
  {
    var q := pre + [sp];
    assert q[..|q| - 1] == pre;
    assert ClassifiedBoxes(q, c, w) == ClassifiedBoxes(pre, c, w) + SpanBoxes(sp, c, w);
    ManEndStep(pre, sp, s.manEnd, c, w);
    if InWindow(w, sp.bbox.y0) {
      ScanSpanEntries(s, sp, c);
      SpanEntriesOk(Entries(s.items), s.marks, s.heading, sp, c, w);
      SpanBoxesOk(Entries(s.items), if IsPartSpan(sp) then sp.text else s.heading, sp, c, w);
    }
  }

  lemma ScanLabelsStep(pre: seq<Span>, sp: Span, s: Scan, c: Columns, w: Window)
    requires ScanLabels(pre, s, c, w)
    ensures ScanStep(s, sp, Some(c), w).Ok?
    ensures ScanLabels(pre + [sp], ScanStep(s, sp, Some(c), w).value, c, w)
  {
    var q := pre + [sp];
    assert q[..|q| - 1] == pre && q[|q| - 1] == sp;
    if InWindow(w, sp.bbox.y0) {
      ScanSpanEntries(s, sp, c);
      var pl := if IsPartSpan(sp) then [Entry(PartEntry, sp.text, sp.bbox)] else [];
      var ll := if IsLineSpan(sp, c) then [Entry(LineEntry, if IsPartSpan(sp) then sp.text else s.heading, sp.bbox)] else [];
      assert SpanEntries(sp, s.heading, c, w) == pl + ll;
      assert Entries(s.items) + pl + ll == Entries(s.items) + (pl + ll);
    } else {
      assert SpanEntries(sp, s.heading, c, w) == [];
      assert Entries(s.items) + [] == Entries(s.items);
    }
  }

  lemma {:induction false} ScanFromLabels(spans: seq<Span>, j: nat, s: Scan, c: Columns, w: Window)
    requires j <= |spans| && ScanLabels(spans[..j], s, c, w)
    ensures ScanFrom(spans, j, s, Some(c), w).Ok?
    ensures ScanLabels(spans, ScanFrom(spans, j, s, Some(c), w).value, c, w)
    decreases |spans| - j
  {
    if j < |spans| {
      ScanLabelsStep(spans[..j], spans[j], s, c, w);
      assert spans[..j + 1] == spans[..j] + [spans[j]];
      ScanFromLabels(spans, j + 1, ScanStep(s, spans[j], Some(c), w).value, c, w);
    } else {
      assert spans[..j] == spans;
    }
  }

  lemma ScanStepInv(spans: seq<Span>, j: nat, s: Scan, c: Columns, w: Window)
    requires j < |spans| && ScanInv(spans, j, s, c, w)
    ensures ScanStep(s, spans[j], Some(c), w).Ok?
    ensures ScanInv(spans, j + 1, ScanStep(s, spans[j], Some(c), w).value, c, w)
  {
    ScanStepOk(spans[..j], spans[j], s, c, w);
    assert spans[..j + 1] == spans[..j] + [spans[j]];
  }

  lemma {:induction false} ScanFromInv(spans: seq<Span>, j: nat, s: Scan, c: Columns, w: Window)
    requires j <= |spans| && ScanInv(spans, j, s, c, w)
    ensures ScanFrom(spans, j, s, Some(c), w).Ok?
    ensures ScanInv(spans, |spans|, ScanFrom(spans, j, s, Some(c), w).value, c, w)
    decreases |spans| - j
  {
    if j < |spans| {
      ScanStepInv(spans, j, s, c, w);
      ScanFromInv(spans, j + 1, ScanStep(s, spans[j], Some(c), w).value, c, w);
    }
  }

  /** With the columns known, the span loop never raises. Its entries are exactly the spans
      of the window at the left margin (parts) or inside the "Line" heading (lines), in stream
      order. The part marks are the part entries. Every line carries the heading of the
      nearest part before it. `pos_finnish_man` is the largest right edge at the part-number
      column, or 0. */
  lemma ScanSpec(spans: seq<Span>, c: Columns, w: Window)
    ensures var r := ScanSpans(spans, Some(c), w);
      && r.Ok?
      && Boxes(Entries(r.value.items)) == ClassifiedBoxes(spans, c, w)
      && r.value.marks == MarksOf(Entries(r.value.items))
      && (forall i :: 0 <= i < |r.value.items| ==> InWindow(w, r.value.items[i].entry.bbox.y0))
      && (forall i :: 0 <= i < |r.value.items| ==>
            if r.value.items[i].entry.kind == PartEntry then r.value.items[i].entry.bbox.x0 <= PartColumn
            else c.line.x0 < r.value.items[i].entry.bbox.x0 <= c.line.x1)
      && (forall i :: 0 <= i < |r.value.items| && r.value.items[i].entry.kind == LineEntry ==>
            r.value.items[i].entry.part == HeadingBefore(Entries(r.value.items), i, ""))
      && IsManEnd(r.value.manEnd, spans, c, w)
    ensures ScanLabels(spans, ScanSpans(spans, Some(c), w).value, c, w)
  {
    assert spans[..0] == [];
    ScanFromInv(spans, 0, InitialScan, c, w);
    ScanFromLabels(spans, 0, InitialScan, c, w);
    assert spans[..|spans|] == spans;
  }

  lemma {:induction false} ScanFromNoColumns(spans: seq<Span>, j: nat, w: Window)
    requires j <= |spans|
    ensures ScanFrom(spans, j, InitialScan, None, w).Ok?
      <==> forall k :: j <= k < |spans| ==> !InWindow(w, spans[k].bbox.y0)
    ensures ScanFrom(spans, j, InitialScan, None, w).Ok? ==> ScanFrom(spans, j, InitialScan, None, w).value == InitialScan
    decreases |spans| - j
  {
    if j < |spans| {
      ScanFromNoColumns(spans, j + 1, w);
    }
  }

  /** Without the "Line" heading, the first span of the window raises, and a window without
      spans leaves the loop with no entries. */
  lemma ScanWithoutColumns(spans: seq<Span>, w: Window)
    ensures ScanSpans(spans, None, w).Ok? <==> forall k :: 0 <= k < |spans| ==> !InWindow(w, spans[k].bbox.y0)
    ensures ScanSpans(spans, None, w).Ok? ==> ScanSpans(spans, None, w).value.items == []
  {
    ScanFromNoColumns(spans, 0, w);
  }

  // ---------------------------------------------------------------------------------------
  // Rows
  // ---------------------------------------------------------------------------------------

  /** The bottom of the row of entry `idx`: the extent rule shared with the Mitchell reader,
      overridden by the entry's `next_line_y0` when that is set and non-zero. */
  function ItemBottom(items: seq<Item>, idx: nat, marks: seq<PartMark>, fallback: real): (b: real)
    requires idx < |items|
    ensures items[idx].next.Some? && items[idx].next.value != 0.0 ==> b == items[idx].next.value
    ensures items[idx].next.None? || items[idx].next.value == 0.0 ==>
      b == RowBottom(StartY0s(Entries(items)), idx, NextPartY0(items[idx].entry.part, marks), fallback)
  {
    var b := RowBottom(StartY0s(Entries(items)), idx, NextPartY0(items[idx].entry.part, marks), fallback);
    match items[idx].next
    case Some(y) => if y != 0.0 then y else b
    case None => b
  }

  /** The horizontal band of every field, with `manEnd` the right end of the part numbers. */
  function Bands(c: Columns, manEnd: real, width: real): (bs: seq<(real, real)>)
    ensures |bs| == 10
    ensures bs[3] == (c.des.x0, c.man.x0 - 3.0) && bs[4] == (c.man.x0, manEnd) && bs[5].0 == manEnd
  {
    [ (c.op.x0, c.guide.x0), (c.op.x1 + 3.0, c.mc.x0 - 3.0), (c.mc.x0 - 2.0, c.des.x0 - 2.0),
      (c.des.x0, c.man.x0 - 3.0), (c.man.x0, manEnd), (manEnd, c.prix.x1 + 3.0),
      (c.ajust.x0, c.ajust.x1), (c.ajust.x1, c.heures.x0 - 3.0), (c.heures.x0, c.heures.x1 + 3.0),
      (c.heures.x1 + 5.0, width) ]
  }

  /** The raw text of every band, from 2 below the line's top to 1 above its bottom. */
  function RawFields(page: Page, bs: seq<(real, real)>, top: real, bottom: real): (raw: seq<string>)
    ensures |raw| == |bs|
  {
    seq(|bs|, k requires 0 <= k < |bs| => ReadTextByPos(page, bs[k].0, top + 2.0, bs[k].1, bottom - 1.0))
  }

  /** When the description is a duplicated text every field is de-duplicated; otherwise every
      field loses its newlines and is stripped. */
  function CleanFields(raw: seq<string>): (fs: seq<string>)
    requires |raw| == 10
    ensures |fs| == 10
  {
    if IsDuplicatedText(raw[3]) then seq(10, k requires 0 <= k < 10 => RemoveDuplicatedText(raw[k]))
    else seq(10, k requires 0 <= k < 10 => Strip(DeleteChar(raw[k], '\n')))
  }

  /** No cleaned field holds a newline. */
  lemma CleanFieldsNoNewline(raw: seq<string>)
    requires |raw| == 10
    ensures forall k :: 0 <= k < 10 ==> '\n' !in CleanFields(raw)[k]
  {
    var fs := CleanFields(raw);
    forall k | 0 <= k < 10 ensures '\n' !in fs[k] {
      if IsDuplicatedText(raw[3]) {
        RemoveDuplicatedTextNoNewline(raw[k]);
      } else {
        var d := DeleteChar(raw[k], '\n');
        StripChars(d);
      }
    }
  }

  /** The description gains the entry's wrapped sub-lines, when it has any. */
  function WithSubLines(fs: seq<string>, sub: string): (r: seq<string>)
    requires |fs| == 10
    ensures |r| == 10
  {
    if sub != "" then fs[3 := fs[3] + "\n" + sub] else fs
  }

  /** The record of entry `idx`, if it is a line with some text in its bands. */
  function RowOf(page: Page, c: Columns, s: Scan, idx: nat, fallback: real): Option<Row>
    requires idx < |s.items|
  {
    var it := s.items[idx];
    if it.entry.kind != LineEntry then None
    else
      var bottom := ItemBottom(s.items, idx, s.marks, fallback);
      var raw := RawFields(page, Bands(c, s.manEnd, page.width), it.entry.bbox.y0, bottom);
      AssembleRow(it.entry.part, WithSubLines(CleanFields(raw), it.sub))
  }

  function RowsFrom(page: Page, c: Columns, s: Scan, fallback: real, k: nat, acc: seq<Row>): seq<Row>
    requires k <= |s.items|
    decreases |s.items| - k
  {
    if k == |s.items| then acc
    else RowsFrom(page, c, s, fallback, k + 1, acc + OptionList(RowOf(page, c, s, k, fallback)))
  }

  /** The records of a table, in entry order. */
  function TableRows(page: Page, c: Columns, s: Scan, fallback: real): seq<Row> {
    RowsFrom(page, c, s, fallback, 0, [])
  }

  /** A well-formed Audatex record: ten non-empty fields under the heading of a line entry,
      with newlines only in the description. */
  predicate GoodAudatexRow(row: Row, items: seq<Item>) {
    && GoodRow(row, 10, Entries(items))
    && forall k :: 0 <= k < 10 && k != 3 ==> '\n' !in row.fields[k]
  }

  lemma RowOfGood(page: Page, c: Columns, s: Scan, idx: nat, fallback: real)
    requires idx < |s.items|
    ensures var r := RowOf(page, c, s, idx, fallback);
      r.Some? ==> GoodAudatexRow(r.value, s.items) && s.items[idx].entry.kind == LineEntry
  {
    var r := RowOf(page, c, s, idx, fallback);
    if r.Some? {
      var it := s.items[idx];
      var raw := RawFields(page, Bands(c, s.manEnd, page.width), it.entry.bbox.y0, ItemBottom(s.items, idx, s.marks, fallback));
      CleanFieldsNoNewline(raw);
      var fs := WithSubLines(CleanFields(raw), it.sub);
      assert forall k :: 0 <= k < 10 && k != 3 ==> fs[k] == CleanFields(raw)[k];
      assert Entries(s.items)[idx] == it.entry;
      forall k | 0 <= k < 10 && k != 3 ensures '\n' !in r.value.fields[k] {
        assert r.value.fields[k] == OrNA(fs[k]);
      }
    }
  }

  lemma {:induction false} RowsFromSpec(page: Page, c: Columns, s: Scan, fallback: real, k: nat, acc: seq<Row>)
    requires k <= |s.items|
    ensures var rows := RowsFrom(page, c, s, fallback, k, acc);
      && acc <= rows
      && |rows| <= |acc| + LineEntryCount(Entries(s.items)[k..])
      && forall m :: |acc| <= m < |rows| ==> GoodAudatexRow(rows[m], s.items)
    decreases |s.items| - k
  {
    if k < |s.items| {
      var row := RowOf(page, c, s, k, fallback);
      var acc' := acc + OptionList(row);
      assert row.Some? ==> (Entries(s.items)[k].kind == LineEntry && GoodAudatexRow(acc'[|acc|], s.items)) by {
        RowOfGood(page, c, s, k, fallback);
      }
      RowsFromSpec(page, c, s, fallback, k + 1, acc');
      assert Entries(s.items)[k..][1..] == Entries(s.items)[k + 1..];
    }
  }

  /** At most one record per line entry, each well formed. */
  lemma TableRowsSpec(page: Page, c: Columns, s: Scan, fallback: real)
    ensures var rows := TableRows(page, c, s, fallback);
      && |rows| <= LineEntryCount(Entries(s.items))
      && forall row :: row in rows ==> GoodAudatexRow(row, s.items)
  {
    RowsFromSpec(page, c, s, fallback, 0, []);
    assert Entries(s.items)[0..] == Entries(s.items);
  }

  // ---------------------------------------------------------------------------------------
  // The two readers
  // ---------------------------------------------------------------------------------------

  /** One table: the span loop over the window, then the record loop. */
  function ReadTable(page: Page, cols: Option<Columns>, w: Window, fallback: real): Outcome<seq<Row>> {
    var s :- ScanSpans(Spans(page), cols, w);
    if cols.None? then Ok([]) else Ok(TableRows(page, cols.value, s, fallback))
  }

  /** Whether the page holds a second table: two "Line" and two part-number headings. */
  predicate HasSecondTable(page: Page, lang: Language) {
    |page.search(Words(lang)[0])| > 1 && |page.search(Words(lang)[5])| > 1
  }

  /** `read_text_audatex_second_table`: the table from the second "Line" heading down to the
      page bottom, columns taken from the second heading row. */
  function ReadSecondTable(page: Page, lang: Language): Outcome<seq<Row>> {
    var cols :- TableColumns(page, SecondTable, lang);
    var start :- SearchHit(page, Words(lang)[0], 1);
    ReadTable(page, cols, From(start.y0), page.height)
  }

  /** `read_text_audatex`: the table above the second heading (the whole page when there is
      none), followed by the rows of the second table. */
  function ReadAudatex(page: Page, lang: Language): Outcome<seq<Row>> {
    var cols :- TableColumns(page, FirstTable, lang);
    var two := HasSecondTable(page, lang);
    var ended := if two then page.search(Words(lang)[0])[1].y0 else page.height;
    var second :- if two then ReadSecondTable(page, lang) else Ok([]);
    var first :- ReadTable(page, cols, Above(ended), ended);
    Ok(first + second)
  }

  /** With two tables, the first reader keeps the spans above the second "Line" heading and
      the second reader those from it on, so no span is read by both; the rows of the second
      table follow those of the first. */
  lemma TwoTablesSplit(page: Page, lang: Language)
    requires HasSecondTable(page, lang)
    requires ReadAudatex(page, lang).Ok?
    ensures TableColumns(page, FirstTable, lang).Ok? && ReadSecondTable(page, lang).Ok?
    ensures var y := page.search(Words(lang)[0])[1].y0;
      && ReadTable(page, TableColumns(page, FirstTable, lang).value, Above(y), y).Ok?
      && ReadAudatex(page, lang).value
           == ReadTable(page, TableColumns(page, FirstTable, lang).value, Above(y), y).value
              + ReadSecondTable(page, lang).value
    ensures var y := page.search(Words(lang)[0])[1].y0;
      forall y0: real :: !(InWindow(Above(y), y0) && InWindow(From(y), y0))
  {
  }

  /** With one table, the reader covers the whole page and uses the page height as the last
      line's bottom. */
  lemma OneTable(page: Page, lang: Language)
    requires !HasSecondTable(page, lang)
    ensures ReadAudatex(page, lang) ==
      match TableColumns(page, FirstTable, lang)
      case Crash(e) => Crash(e)
      case Ok(cols) => ReadTable(page, cols, Above(page.height), page.height)
  {
    match TableColumns(page, FirstTable, lang)
    case Crash(e) => {}
    case Ok(cols) => {
      var r := ReadTable(page, cols, Above(page.height), page.height);
      if r.Ok? {
        assert r.value + [] == r.value;
      }
    }
  }

  // ---------------------------------------------------------------------------------------
  // The loops
  // ---------------------------------------------------------------------------------------

  /** A span at the left margin starts a part. */
  method ReadPartSpan(s: Scan, sp: Span) returns (t: Scan)
    ensures t == if IsPartSpan(sp) then AddPart(s, sp) else s
  {
    t := s;
    if sp.bbox.x0 <= PartColumn {
      var heading := sp.text;
      t := t.(heading := heading, marks := t.marks + [PartMark(heading, sp.bbox)],
              items := t.items + [Item(Entry(PartEntry, heading, sp.bbox), "", None)]);
    }
  }

  /** A span inside the "Line" heading closes the previous entry's extent, when still open,
      and starts a line. */
  method ReadLineSpan(s: Scan, sp: Span, c: Columns) returns (t: Scan)
    ensures t == if IsLineSpan(sp, c) then AddLine(s, sp) else s
  {
    t := s;
    if c.line.x0 < sp.bbox.x0 <= c.line.x1 {
      var items := t.items;
      if |items| > 0 && items[|items| - 1].next.None? {
        items := items[|items| - 1 := items[|items| - 1].(next := Some(sp.bbox.y0))];
      }
      items := items + [Item(Entry(LineEntry, t.heading, sp.bbox), "", None)];
      t := t.(items := items);
    }
  }

  /** A span on a new visual line moves `last_line_pos`; in the "Description" column it is
      added to the last entry's `sub_lines`, which also closes that entry's extent. */
  method ReadSubLineSpan(s: Scan, sp: Span, c: Columns) returns (t: Scan)
    ensures t == if Abs(sp.bbox.y1 - s.lastY1) > 2.0 then SubLine(s, sp, c) else s
  {
    t := s;
    if Abs(sp.bbox.y1 - t.lastY1) > 2.0 {
      var items := t.items;
      if Abs(sp.bbox.x0 - c.des.x0) < 1.0 && |items| > 0 {
        var last := items[|items| - 1];
        last := last.(sub := last.sub + "\n" + sp.text);
        if last.next.None? {
          last := last.(next := Some(sp.bbox.y0));
        }
        items := items[|items| - 1 := last];
      }
      t := t.(items := items, lastY1 := sp.bbox.y1);
    }
  }

  /** The body of the span loop for a span inside the window, with the columns known. */
  method ReadSpan(s: Scan, sp: Span, c: Columns) returns (t: Scan)
    ensures t == ScanSpan(s, sp, c)
  {
    t := ReadPartSpan(s, sp);
    t := ReadLineSpan(t, sp, c);
    t := ReadSubLineSpan(t, sp, c);
    if Abs(sp.bbox.x0 - c.man.x0) < 1.0 && t.manEnd < sp.bbox.x1 {
      t := t.(manEnd := sp.bbox.x1);
    }
  }

  /** The span loop of one table. */
  method ScanPage(spans: seq<Span>, cols: Option<Columns>, w: Window) returns (r: Outcome<Scan>)
    ensures r == ScanSpans(spans, cols, w)
  {
    var s := InitialScan;
    var j := 0;
    while j < |spans|
      invariant 0 <= j <= |spans|
      invariant ScanSpans(spans, cols, w) == ScanFrom(spans, j, s, cols, w)
    {
      var sp := spans[j];
      if InWindow(w, sp.bbox.y0) {
        if cols.None? {
          return Crash("AttributeError: 'NoneType' object has no attribute 'x1'");
        }
        s := ReadSpan(s, sp, cols.value);
      }
      j := j + 1;
    }
    r := Ok(s);
  }

  /** The record of one entry: its bottom, its ten bands, the clean-up and the sub-lines. */
  method ItemRecord(page: Page, c: Columns, s: Scan, idx: nat, fallback: real) returns (row: Option<Row>)
    requires idx < |s.items|
    ensures row == RowOf(page, c, s, idx, fallback)
  {
    var it := s.items[idx];
    if it.entry.kind != LineEntry {
      return None;
    }
    var partY0 := GetNextPartPos(it.entry.part, s.marks);
    var bottom := fallback;
    if idx + 1 < |s.items| {
      bottom := s.items[idx + 1].entry.bbox.y0;
      if partY0 != 0.0 && partY0 < bottom {
        bottom := partY0;
      }
    }
    if it.next.Some? && it.next.value != 0.0 {
      bottom := it.next.value;
    }
    assert bottom == ItemBottom(s.items, idx, s.marks, fallback);
    var raw := RawFields(page, Bands(c, s.manEnd, page.width), it.entry.bbox.y0, bottom);
    var fields := CleanFields(raw);
    if it.sub != "" {
      fields := fields[3 := fields[3] + "\n" + it.sub];
    }
    row := AssembleRow(it.entry.part, fields);
  }

  /** The record loop over `line_start_pos`. */
  method TableRecords(page: Page, c: Columns, s: Scan, fallback: real) returns (rows: seq<Row>)
    ensures rows == TableRows(page, c, s, fallback)
  {
    rows := [];
    var k := 0;
    while k < |s.items|
      invariant 0 <= k <= |s.items|
      invariant TableRows(page, c, s, fallback) == RowsFrom(page, c, s, fallback, k, rows)
    {
      var row := ItemRecord(page, c, s, k, fallback);
      rows := rows + OptionList(row);
      k := k + 1;
    }
  }

  method ReadTableOf(page: Page, cols: Option<Columns>, w: Window, fallback: real) returns (r: Outcome<seq<Row>>)
    ensures r == ReadTable(page, cols, w, fallback)
  {
    var scan := ScanPage(Spans(page), cols, w);
    if scan.Crash? {
      return Crash(scan.reason);
    }
    if cols.None? {
      return Ok([]);
    }
    var rows := TableRecords(page, cols.value, scan.value, fallback);
    r := Ok(rows);
  }

  /** `read_text_audatex_second_table`. */
  method ReadTextAudatexSecondTable(page: Page, lang: Language) returns (r: Outcome<seq<Row>>)
    ensures r == ReadSecondTable(page, lang)
  {
    var cols := TableColumns(page, SecondTable, lang);
    if cols.Crash? {
      return Crash(cols.reason);
    }
    var start := SearchHit(page, Words(lang)[0], 1);
    if start.Crash? {
      return Crash(start.reason);
    }
    r := ReadTableOf(page, cols.value, From(start.value.y0), page.height);
  }

  /** `read_text_audatex`. */
  method ReadTextAudatex(page: Page, lang: Language) returns (r: Outcome<seq<Row>>)
    ensures r == ReadAudatex(page, lang)
  {
    var cols := TableColumns(page, FirstTable, lang);
    if cols.Crash? {
      return Crash(cols.reason);
    }
    var ended := page.height;
    var secondRows: seq<Row> := [];
    var headers := page.search(Words(lang)[0]);
    var manHeaders := page.search(Words(lang)[5]);
    if |headers| > 1 && |manHeaders| > 1 {
      ended := headers[1].y0;
      var second := ReadTextAudatexSecondTable(page, lang);
      if second.Crash? {
        return Crash(second.reason);
      }
      secondRows := second.value;
    }
    var first := ReadTableOf(page, cols.value, Above(ended), ended);
    if first.Crash? {
      return Crash(first.reason);
    }
    r := Ok(first.value + secondRows);
  }
}
