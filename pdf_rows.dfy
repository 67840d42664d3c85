/** What the three row segmenters of the estimate parser share: the part marks
    (`line_part_start_pos`), `get_next_part_pos`, the vertical extent of a row and the
    assembly of a row record with "N/A" defaults. */
module PdfRows {
  import opened Wrappers
  import opened PdfDocument

  /** An entry of `line_part_start_pos`: a part heading and where it sits. */
  datatype PartMark = PartMark(part: string, bbox: Rect)

  /** The value `get_next_part_pos` keeps for "no mark found" in `curren_index`. */
  const NotFoundIndex: nat := 999

  /** The index of the first mark carrying `part` from `from` on, `|marks|` if there is none. */
  function FirstMarkIndex(part: string, marks: seq<PartMark>, from: nat): (r: nat)
    requires from <= |marks|
    ensures from <= r <= |marks|
    ensures r < |marks| ==> marks[r].part == part
    ensures forall j :: from <= j < r ==> marks[j].part != part
    decreases |marks| - from
  {
    if from == |marks| then from
    else if marks[from].part == part then from
    else FirstMarkIndex(part, marks, from + 1)
  }

  /** `marks[i]` is the first mark carrying `part`. */
  predicate IsFirstMark(part: string, marks: seq<PartMark>, i: int) {
    0 <= i < |marks| && marks[i].part == part && forall j :: 0 <= j < i ==> marks[j].part != part
  }

  /** What `get_next_part_pos(part, marks)` returns. A first match at index 999 is
      indistinguishable from no match, as in the source. */
  function NextPartY0(part: string, marks: seq<PartMark>): real {
    var i := FirstMarkIndex(part, marks, 0);
    if i < |marks| && i != NotFoundIndex && i + 1 < |marks| then marks[i + 1].bbox.y0 else 0.0
  }

  /** `get_next_part_pos`: the y0 of the mark that follows the first mark of `part`, or 0 when
      `part` has no mark or its first mark is the last one. */
  lemma NextPartY0Spec(part: string, marks: seq<PartMark>)
    ensures (forall j :: 0 <= j < |marks| ==> marks[j].part != part) ==> NextPartY0(part, marks) == 0.0
    ensures forall i | IsFirstMark(part, marks, i) && i != NotFoundIndex && i + 1 < |marks| ::
      NextPartY0(part, marks) == marks[i + 1].bbox.y0
    ensures NextPartY0(part, marks) == 0.0
      || exists i :: 1 <= i < |marks| && marks[i - 1].part == part && NextPartY0(part, marks) == marks[i].bbox.y0
  {
    var k := FirstMarkIndex(part, marks, 0);
    forall i | IsFirstMark(part, marks, i) && i != NotFoundIndex && i + 1 < |marks|
      ensures NextPartY0(part, marks) == marks[i + 1].bbox.y0
    {
      assert k <= i;
      assert k == i;
    }
    if NextPartY0(part, marks) != 0.0 {
      assert marks[k + 1 - 1].part == part;
    }
  }

  /** `get_next_part_pos` as the source writes it: a search loop that stops at the first mark
      carrying `part`. */
  method GetNextPartPos(part: string, marks: seq<PartMark>) returns (y0: real)
    ensures y0 == NextPartY0(part, marks)
  {
    y0 := 0.0;
    var current := NotFoundIndex;
    var index := 0;
    while index < |marks|
      invariant 0 <= index <= |marks|
      invariant forall j :: 0 <= j < index ==> marks[j].part != part
      invariant current == NotFoundIndex
    {
      if part == marks[index].part {
        current := index;
        break;
      }
      index := index + 1;
    }
    assert current != NotFoundIndex ==> current == FirstMarkIndex(part, marks, 0);
    assert current == NotFoundIndex ==> index == |marks| || index == NotFoundIndex;
    if current != NotFoundIndex {
      var next := current + 1;
      if next < |marks| {
        y0 := marks[next].bbox.y0;
      }
    }
  }

  /** The bottom of the row started by entry `idx`, given the start heights `y0s` of all entries
      of the page: the next entry's y0, lowered to `partY0` when that is non-zero and smaller;
      `fallback` for the last entry. */
  function RowBottom(y0s: seq<real>, idx: nat, partY0: real, fallback: real): (b: real)
    requires idx < |y0s|
    ensures idx + 1 == |y0s| ==> b == fallback
    ensures idx + 1 < |y0s| ==> b <= y0s[idx + 1]
    ensures idx + 1 < |y0s| ==> b == y0s[idx + 1] || (b == partY0 && partY0 != 0.0)
    ensures idx + 1 < |y0s| && partY0 != 0.0 ==> b <= partY0
  {
    if idx + 1 < |y0s| then
      var next := y0s[idx + 1];
      if partY0 != 0.0 && partY0 < next then partY0 else next
    else fallback
  }

  /** `value if value else "N/A"`. */
  function OrNA(s: string): (r: string)
    ensures r != ""
    ensures s != "" ==> r == s
  {
    if s == "" then "N/A" else s
  }

  /** A line item record: its part heading and its fields in the order of the record's keys. */
  datatype Row = Row(header: string, fields: seq<string>)

  /** `any(fields)`: some field has text. */
  predicate AnyText(raw: seq<string>) {
    exists k :: 0 <= k < |raw| && raw[k] != ""
  }

  /** A row is emitted only when `any(...)` holds: some field has text. */
  function AssembleRow(header: string, raw: seq<string>): (r: Option<Row>)
    ensures r.Some? <==> AnyText(raw)
    ensures r.Some? ==> r.value.header == header && |r.value.fields| == |raw|
    ensures r.Some? ==> forall k {:trigger r.value.fields[k]} :: 0 <= k < |raw| ==> r.value.fields[k] == OrNA(raw[k])
  {
    if AnyText(raw) then
      Some(Row(header, seq(|raw|, k requires 0 <= k < |raw| => OrNA(raw[k]))))
    else None
  }

  /** The list `lines.append` adds to: the record, or nothing. */
  function OptionList(o: Option<Row>): (rs: seq<Row>)
    ensures o.Some? ==> rs == [o.value]
    ensures o.None? ==> rs == []
  {
    if o.Some? then [o.value] else []
  }

  // Entries

  datatype Kind = PartEntry | LineEntry

  /** An entry of `line_start_pos`: whether it starts a part or a line, the part heading it
      belongs to and its bbox. */
  datatype Entry = Entry(kind: Kind, part: string, bbox: Rect)

  function Boxes(entries: seq<Entry>): (bs: seq<Rect>)
    ensures |bs| == |entries|
  {
    if entries == [] then [] else Boxes(entries[..|entries| - 1]) + [entries[|entries| - 1].bbox]
  }

  lemma {:induction false} BoxesConcat(xs: seq<Entry>, ys: seq<Entry>)
    ensures Boxes(xs + ys) == Boxes(xs) + Boxes(ys)
    decreases |ys|
  {
    if ys != [] {
      var n := |ys|;
      assert (xs + ys)[..|xs + ys| - 1] == xs + ys[..n - 1];
      BoxesConcat(xs, ys[..n - 1]);
    } else {
      assert xs + ys == xs;
    }
  }

  /** The part marks of the part entries, in order. */
  function MarksOf(entries: seq<Entry>): seq<PartMark> {
    if entries == [] then []
    else
      var last := entries[|entries| - 1];
      MarksOf(entries[..|entries| - 1])
        + (if last.kind == PartEntry then [PartMark(last.part, last.bbox)] else [])
  }

  /** The heading in force before entry `i`: that of the nearest part entry before it, or the
      heading `heading0` carried over from earlier pages. */
  function HeadingBefore(entries: seq<Entry>, i: nat, heading0: string): string
    requires i <= |entries|
  {
    if i == 0 then heading0
    else if entries[i - 1].kind == PartEntry then entries[i - 1].part
    else HeadingBefore(entries, i - 1, heading0)
  }

  lemma {:induction false} HeadingBeforeExtend(entries: seq<Entry>, e: Entry, i: nat, heading0: string)
    requires i <= |entries|
    ensures HeadingBefore(entries + [e], i, heading0) == HeadingBefore(entries, i, heading0)
  {
    if i > 0 {
      assert (entries + [e])[i - 1] == entries[i - 1];
      HeadingBeforeExtend(entries, e, i - 1, heading0);
    }
  }

  /** A page without part headings leaves the current heading as it found it. */
  lemma {:induction false} HeadingSticky(entries: seq<Entry>, heading0: string)
    requires forall i :: 0 <= i < |entries| ==> entries[i].kind != PartEntry
    ensures HeadingBefore(entries, |entries|, heading0) == heading0
  {
    var n := |entries|;
    if n > 0 {
      assert entries[..n - 1] + [entries[n - 1]] == entries;
      HeadingBeforeExtend(entries[..n - 1], entries[n - 1], n - 1, heading0);
      HeadingSticky(entries[..n - 1], heading0);
    }
  }

  function StartY0s(entries: seq<Entry>): (ys: seq<real>)
    ensures |ys| == |entries|
    ensures forall i :: 0 <= i < |entries| ==> ys[i] == entries[i].bbox.y0
  {
    seq(|entries|, i requires 0 <= i < |entries| => entries[i].bbox.y0)
  }

  function LineEntryCount(entries: seq<Entry>): nat {
    if entries == [] then 0
    else (if entries[0].kind == LineEntry then 1 else 0) + LineEntryCount(entries[1..])
  }

  /** A well-formed record: one non-empty field per column, under the heading of a line entry. */
  predicate GoodRow(row: Row, width: nat, entries: seq<Entry>) {
    && |row.fields| == width
    && (forall k :: 0 <= k < |row.fields| ==> row.fields[k] != "")
    && exists i :: 0 <= i < |entries| && entries[i].kind == LineEntry && entries[i].part == row.header
  }

}
