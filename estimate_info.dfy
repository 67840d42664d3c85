/** The estimate metadata extractors, `get_estimate_information` (Mitchell) and
    `get_estimate_information_audatex` (parse-pdf-mirroring-3-13/lambda_function.py). Both walk
    the text spans of the first two pages and remember the previous span's text: the span after
    a label holds the label's value. The Mitchell extractor keeps the last value of the owner,
    VIN and odometer and takes the vehicle name from the span before "Parts Profile"; its
    insurer is the first value, and when the label closes a text block the insurer is the
    block's joined line heads. The Audatex extractor keeps the first value of every field. */
module EstimateInfo {
  import opened Wrappers
  import opened PyText
  import opened PdfDocument
  import LabelScan

  /** The record both extractors return. */
  datatype CarData = CarData(owner: string, ins: string, vin: string, odo: string, name: string)

  const NA := "N/A"

  /** Only pages 0 and 1 are read. */
  function FirstPages(pages: seq<Page>): (r: seq<Page>)
    ensures |r| <= 2 && r <= pages
    ensures |pages| >= 2 ==> |r| == 2
  {
    if |pages| <= 2 then pages else pages[..2]
  }

  function SpanTexts(spans: seq<Span>): (ts: seq<string>)
    ensures |ts| == |spans| && forall i :: 0 <= i < |spans| ==> ts[i] == spans[i].text
  {
    seq(|spans|, i requires 0 <= i < |spans| => spans[i].text)
  }

  // ---------------------------------------------------------------------------------------
  // What "the span after a label" means
  // ---------------------------------------------------------------------------------------

  /** `last_text` when span `i` is read: the text of span `i - 1`, "" for the first span. */
  function Prev(ts: seq<string>, i: nat): string
    requires i <= |ts|
  {
    LabelScan.Prev(ts, i, "")
  }

  function Same(s: string): string {
    s
  }

  /** How a previous text is compared with a label: as it is, or after `strip`. */
  function Norm(strip: bool): string -> string {
    if strip then Strip else Same
  }

  /** Whether a previous text is the label. */
  predicate IsLabel(prev: string, w: string, strip: bool) {
    Norm(strip)(prev) == w
  }

  /** `r` is the text of the last span that follows the label `w`, or "N/A" if none does. */
  ghost predicate LastWins(ts: seq<string>, w: string, r: string) {
    LabelScan.LastWins(ts, "", NA, w, r)
  }

  /** `r` is the text of the first span that follows the label `w` and is not "N/A" itself, or
      "N/A" if there is none: a value "N/A" leaves the field open. */
  ghost predicate FirstWins(ts: seq<string>, w: string, strip: bool, r: string) {
    LabelScan.FirstWins(ts, "", NA, w, Norm(strip), r)
  }

  /** `r` is the text of the span before the last span `w`, or "N/A" if no span is `w`. */
  ghost predicate LastBefore(ts: seq<string>, w: string, r: string) {
    LabelScan.LastBefore(ts, "", NA, w, r)
  }

  lemma LastWinsStep(ts: seq<string>, t: string, w: string, r: string)
    requires LastWins(ts, w, r)
    ensures LastWins(ts + [t], w, if Prev(ts, |ts|) == w then t else r)
  {
    LabelScan.LastWinsStep(ts, "", NA, t, w, r);
  }

  lemma FirstWinsStep(ts: seq<string>, t: string, w: string, strip: bool, r: string)
    requires FirstWins(ts, w, strip, r)
    ensures FirstWins(ts + [t], w, strip, if IsLabel(Prev(ts, |ts|), w, strip) && r == NA then t else r)
  {
    LabelScan.FirstWinsStep(ts, "", NA, t, w, Norm(strip), r);
  }

  lemma LastBeforeStep(ts: seq<string>, t: string, w: string, r: string)
    requires LastBefore(ts, w, r)
    ensures LastBefore(ts + [t], w, if t == w then Prev(ts, |ts|) else r)
  {
    LabelScan.LastBeforeStep(ts, "", NA, t, w, r);
  }

  // ---------------------------------------------------------------------------------------
  // Audatex
  // ---------------------------------------------------------------------------------------

  /** The Audatex labels: owner, insurer, VIN, odometer and vehicle. */
  function AudatexLabels(lang: Language): (ws: seq<string>)
    ensures |ws| == 5
  {
    if lang == Fr then ["Propriétaire:", "Compagnie:", "NIV:", "Odomètre:", "Véhicule"]
    else ["Owner:", "Ins. Company:", "VIN:", "Kilometer:", "Vehicle"]
  }

  /** `car_owner`, `car_ins`, `car_vin`, `car_odo`, `car_name` and `last_text`. */
  datatype AudatexState = AudatexState(fields: CarData, last: string)

  function AudatexStep(st: AudatexState, t: string, ws: seq<string>): AudatexState
    requires |ws| == 5
  {
    var f := st.fields;
    var last := st.last;
    AudatexState(CarData(
      if last == ws[0] && f.owner == NA then t else f.owner,
      if last == ws[1] && f.ins == NA then t else f.ins,
      if last == ws[2] && f.vin == NA then t else f.vin,
      if last == ws[3] && f.odo == NA then t else f.odo,
      if Strip(last) == ws[4] && f.name == NA then t else f.name), t)
  }

  function AudatexFrom(ts: seq<string>, j: nat, st: AudatexState, ws: seq<string>): AudatexState
    requires j <= |ts| && |ws| == 5
    decreases |ts| - j
  {
    if j == |ts| then st else AudatexFrom(ts, j + 1, AudatexStep(st, ts[j], ws), ws)
  }

  const Unset := CarData(NA, NA, NA, NA, NA)

  /** The span texts of the first two pages, in block, line and span order. */
  function FirstPagesTexts(pages: seq<Page>): seq<string> {
    var ps := FirstPages(pages);
    if |ps| == 0 then [] else if |ps| == 1 then SpanTexts(Spans(ps[0]))
    else SpanTexts(Spans(ps[0])) + SpanTexts(Spans(ps[1]))
  }

  /** What `get_estimate_information_audatex` returns: every field stripped. */
  function AudatexInfo(pages: seq<Page>, lang: Language): CarData {
    var f := AudatexFrom(FirstPagesTexts(pages), 0, AudatexState(Unset, ""), AudatexLabels(lang)).fields;
    CarData(Strip(f.owner), Strip(f.ins), Strip(f.vin), Strip(f.odo), Strip(f.name))
  }

  /** The value a first-wins field holds after the texts `ts`. */
  function FirstValue(ts: seq<string>, w: string, strip: bool): string {
    if ts == [] then NA
    else
      var r := FirstValue(ts[..|ts| - 1], w, strip);
      if r == NA && IsLabel(Prev(ts, |ts| - 1), w, strip) then ts[|ts| - 1] else r
  }

  lemma {:induction false} FirstValueWins(ts: seq<string>, w: string, strip: bool)
    ensures FirstWins(ts, w, strip, FirstValue(ts, w, strip))
  {
    if ts == [] {
    } else {
      var pre, t := ts[..|ts| - 1], ts[|ts| - 1];
      var r := FirstValue(pre, w, strip);
      FirstValueWins(pre, w, strip);
      FirstWinsStep(pre, t, w, strip, r);
      assert pre + [t] == ts;
      assert Prev(ts, |ts| - 1) == Prev(pre, |pre|);
      assert FirstValue(ts, w, strip) == if r == NA && IsLabel(Prev(pre, |pre|), w, strip) then t else r;
    }
  }

  predicate AudatexInv(pre: seq<string>, st: AudatexState, ws: seq<string>)
    requires |ws| == 5
  {
    && st.last == Prev(pre, |pre|)
    && st.fields.owner == FirstValue(pre, ws[0], false)
    && st.fields.ins == FirstValue(pre, ws[1], false)
    && st.fields.vin == FirstValue(pre, ws[2], false)
    && st.fields.odo == FirstValue(pre, ws[3], false)
    && st.fields.name == FirstValue(pre, ws[4], true)
  }

  lemma AudatexStepInv(pre: seq<string>, t: string, st: AudatexState, ws: seq<string>)
    requires |ws| == 5 && AudatexInv(pre, st, ws)
    ensures AudatexInv(pre + [t], AudatexStep(st, t, ws), ws)
  {
    var q := pre + [t];
    assert q[..|q| - 1] == pre;
    LabelScan.PrevExtend(pre, t, "");
  }

  lemma {:induction false} AudatexFromInv(ts: seq<string>, j: nat, st: AudatexState, ws: seq<string>)
    requires j <= |ts| && |ws| == 5 && AudatexInv(ts[..j], st, ws)
    ensures AudatexInv(ts, AudatexFrom(ts, j, st, ws), ws)
    decreases |ts| - j
  {
    if j == |ts| {
      assert ts[..j] == ts;
    } else {
      AudatexStepInv(ts[..j], ts[j], st, ws);
      assert ts[..j] + [ts[j]] == ts[..j + 1];
      AudatexFromInv(ts, j + 1, AudatexStep(st, ts[j], ws), ws);
    }
  }

  /** Every Audatex field is, stripped, the first span after its label that is not "N/A"
      itself, on the first two pages; the vehicle label is compared after stripping the
      previous text. Fields never found are "N/A". */
  lemma AudatexInfoSpec(pages: seq<Page>, lang: Language)
    ensures var ts, ws := FirstPagesTexts(pages), AudatexLabels(lang);
      exists f: CarData ::
        && FirstWins(ts, ws[0], false, f.owner) && FirstWins(ts, ws[1], false, f.ins)
        && FirstWins(ts, ws[2], false, f.vin) && FirstWins(ts, ws[3], false, f.odo)
        && FirstWins(ts, ws[4], true, f.name)
        && AudatexInfo(pages, lang)
             == CarData(Strip(f.owner), Strip(f.ins), Strip(f.vin), Strip(f.odo), Strip(f.name))
  {
    var ts, ws := FirstPagesTexts(pages), AudatexLabels(lang);
    var st0 := AudatexState(Unset, "");
    assert ts[..0] == [];
    AudatexFromInv(ts, 0, st0, ws);
    var f := AudatexFrom(ts, 0, st0, ws).fields;
    FirstValueWins(ts, ws[0], false);
    FirstValueWins(ts, ws[1], false);
    FirstValueWins(ts, ws[2], false);
    FirstValueWins(ts, ws[3], false);
    FirstValueWins(ts, ws[4], true);
    assert AudatexInfo(pages, lang) == CarData(Strip(f.owner), Strip(f.ins), Strip(f.vin), Strip(f.odo), Strip(f.name));
  }

  /** The Audatex span loop over the span texts of the first two pages. */
  method GetEstimateInformationAudatex(pages: seq<Page>, lang: Language) returns (data: CarData)
    ensures data == AudatexInfo(pages, lang)
  {
    var ws := AudatexLabels(lang);
    var ts := FirstPagesTexts(pages);
    var owner, ins, vin, odo, name := NA, NA, NA, NA, NA;
    var last := "";
    var j := 0;
    while j < |ts|
      invariant 0 <= j <= |ts|
      invariant AudatexFrom(ts, 0, AudatexState(Unset, ""), ws)
        == AudatexFrom(ts, j, AudatexState(CarData(owner, ins, vin, odo, name), last), ws)
    {
      var t := ts[j];
      owner := if last == ws[0] && owner == NA then t else owner;
      ins := if last == ws[1] && ins == NA then t else ins;
      vin := if last == ws[2] && vin == NA then t else vin;
      odo := if last == ws[3] && odo == NA then t else odo;
      name := if Strip(last) == ws[4] && name == NA then t else name;
      last := t;
      j := j + 1;
    }
    data := CarData(Strip(owner), Strip(ins), Strip(vin), Strip(odo), Strip(name));
  }

  // ---------------------------------------------------------------------------------------
  // Mitchell
  // ---------------------------------------------------------------------------------------

  /** The Mitchell labels: owner, insurer, VIN, odometer and the "Parts Profile" span that
      follows the vehicle name. */
  function MitchellLabels(lang: Language): (ws: seq<string>)
    ensures |ws| == 5 && ws[1] != ""
  {
    if lang == Fr then ["Propriétaire", "Assureur", "NIV", "Odomètre", "Profil de pièces"]
    else ["Owner", "Insurance Company", "VIN", "Odometer", "Parts Profile"]
  }

  /** A line of a text block, seen together with all the lines of its block. */
  datatype Visit = Visit(block: seq<Line>, line: Line)

  function LineVisits(block: seq<Line>, lines: seq<Line>): seq<Visit> {
    if lines == [] then [] else [Visit(block, lines[0])] + LineVisits(block, lines[1..])
  }

  function BlockVisits(blocks: seq<Block>): seq<Visit> {
    if blocks == [] then []
    else
      (if blocks[0].TextBlock? then LineVisits(blocks[0].lines, blocks[0].lines) else [])
        + BlockVisits(blocks[1..])
  }

  /** The lines of the first two pages in the order of the block and line loops. */
  function MitchellVisits(pages: seq<Page>): seq<Visit> {
    var ps := FirstPages(pages);
    if |ps| == 0 then [] else if |ps| == 1 then BlockVisits(ps[0].blocks)
    else BlockVisits(ps[0].blocks) + BlockVisits(ps[1].blocks)
  }

  function VisitTexts(vs: seq<Visit>): seq<string> {
    if vs == [] then [] else SpanTexts(vs[0].line.spans) + VisitTexts(vs[1..])
  }

  lemma {:induction false} VisitTextsConcat(a: seq<Visit>, b: seq<Visit>)
    ensures VisitTexts(a + b) == VisitTexts(a) + VisitTexts(b)
  {
    if a != [] {
      assert (a + b)[1..] == a[1..] + b;
      VisitTextsConcat(a[1..], b);
    } else {
      assert a + b == b;
    }
  }

  lemma SpanTextsConcat(a: seq<Span>, b: seq<Span>)
    ensures SpanTexts(a + b) == SpanTexts(a) + SpanTexts(b)
  {
  }

  lemma {:induction false} LineVisitsTexts(block: seq<Line>, lines: seq<Line>)
    ensures VisitTexts(LineVisits(block, lines)) == SpanTexts(LineSpans(lines))
  {
    if lines != [] {
      LineVisitsTexts(block, lines[1..]);
      SpanTextsConcat(lines[0].spans, LineSpans(lines[1..]));
    }
  }

  lemma {:induction false} BlockVisitsTexts(blocks: seq<Block>)
    ensures VisitTexts(BlockVisits(blocks)) == SpanTexts(BlockSpans(blocks))
  {
    if blocks != [] {
      var head := if blocks[0].TextBlock? then LineVisits(blocks[0].lines, blocks[0].lines) else [];
      BlockVisitsTexts(blocks[1..]);
      VisitTextsConcat(head, BlockVisits(blocks[1..]));
      if blocks[0].TextBlock? {
        LineVisitsTexts(blocks[0].lines, blocks[0].lines);
      }
      SpanTextsConcat(if blocks[0].TextBlock? then LineSpans(blocks[0].lines) else [], BlockSpans(blocks[1..]));
    }
  }

  /** The line-by-line walk reads exactly the span texts of the first two pages, in order. */
  lemma MitchellVisitsTexts(pages: seq<Page>)
    ensures VisitTexts(MitchellVisits(pages)) == FirstPagesTexts(pages)
  {
    var ps := FirstPages(pages);
    if |ps| >= 1 { BlockVisitsTexts(ps[0].blocks); }
    if |ps| == 2 {
      BlockVisitsTexts(ps[1].blocks);
      VisitTextsConcat(BlockVisits(ps[0].blocks), BlockVisits(ps[1].blocks));
    }
  }

  /** The insurer when its label closed a block: the first-span texts of the block's lines,
      the label itself left out, joined with blanks; empty texts before the first non-empty
      one add nothing. A line without spans raises an IndexError. */
  function InsurerFrom(lines: seq<Line>, j: nat, acc: string, w: string): Outcome<string>
    requires j <= |lines|
    decreases |lines| - j
  {
    if j == |lines| then Ok(acc)
    else if lines[j].spans == [] then Crash("IndexError: list index out of range")
    else
      var t := lines[j].spans[0].text;
      InsurerFrom(lines, j + 1, if t == w then acc else if acc != "" then acc + " " + t else acc + t, w)
  }

  /** The first-span texts of the lines; an IndexError for a line without spans. */
  function LineHeads(lines: seq<Line>): (r: Outcome<seq<string>>)
    ensures r.Ok? <==> forall j :: 0 <= j < |lines| ==> lines[j].spans != []
    ensures r.Ok? ==> |r.value| == |lines| && forall j :: 0 <= j < |lines| ==> r.value[j] == lines[j].spans[0].text
  {
    if lines == [] then Ok([])
    else if lines[0].spans == [] then Crash("IndexError: list index out of range")
    else
      var rest :- LineHeads(lines[1..]);
      assert forall j :: 1 <= j < |lines| ==> lines[1..][j - 1] == lines[j];
      Ok([lines[0].spans[0].text] + rest)
  }

  function Without(ts: seq<string>, w: string): seq<string> {
    if ts == [] then [] else (if ts[0] == w then [] else [ts[0]]) + Without(ts[1..], w)
  }

  function DropLeadingEmpty(ts: seq<string>): seq<string> {
    if ts != [] && ts[0] == "" then DropLeadingEmpty(ts[1..]) else ts
  }

  /** The join as the source builds it, over texts already filtered. */
  function Glue(acc: string, ts: seq<string>): string
    decreases |ts|
  {
    if ts == [] then acc else Glue(if acc != "" then acc + " " + ts[0] else acc + ts[0], ts[1..])
  }

  lemma {:induction false} GlueNonEmpty(acc: string, ts: seq<string>)
    requires acc != ""
    ensures Glue(acc, ts) == if ts == [] then acc else acc + " " + Join(ts, " ")
    decreases |ts|
  {
    if ts != [] {
      var acc' := acc + " " + ts[0];
      GlueNonEmpty(acc', ts[1..]);
      if ts[1..] != [] {
        assert acc' + " " + Join(ts[1..], " ") == acc + " " + (ts[0] + " " + Join(ts[1..], " "));
      }
    }
  }

  /** Starting from "", the source's join is `" ".join` of the texts from the first non-empty
      one on. */
  lemma {:induction false} GlueFromEmpty(ts: seq<string>)
    ensures Glue("", ts) == Join(DropLeadingEmpty(ts), " ")
    decreases |ts|
  {
    if ts != [] {
      if ts[0] == "" {
        assert "" + ts[0] == "";
        GlueFromEmpty(ts[1..]);
      } else {
        assert "" + ts[0] == ts[0];
        GlueNonEmpty(ts[0], ts[1..]);
      }
    }
  }

  lemma {:induction false} InsurerFromGlue(lines: seq<Line>, j: nat, acc: string, w: string)
    requires j <= |lines|
    ensures var heads := LineHeads(lines[j..]);
      InsurerFrom(lines, j, acc, w) == if heads.Ok? then Ok(Glue(acc, Without(heads.value, w))) else Crash("IndexError: list index out of range")
    decreases |lines| - j
  {
    if j < |lines| {
      assert lines[j..][1..] == lines[j + 1..];
      if lines[j].spans != [] {
        var t := lines[j].spans[0].text;
        var acc' := if t == w then acc else if acc != "" then acc + " " + t else acc + t;
        InsurerFromGlue(lines, j + 1, acc', w);
        var rest := LineHeads(lines[j + 1..]);
        if rest.Ok? {
          assert LineHeads(lines[j..]) == Ok([t] + rest.value);
          assert ([t] + rest.value)[1..] == rest.value;
          var kept := Without(rest.value, w);
          assert Without([t] + rest.value, w) == (if t == w then [] else [t]) + kept;
          if t != w {
            assert ([t] + kept)[0] == t && ([t] + kept)[1..] == kept;
            assert Glue(acc, [t] + kept) == Glue(acc', kept);
          } else {
            assert [] + kept == kept;
          }
        }
      }
    }
  }

  /** The insurer joined from a block: `" ".join` of the line heads other than the label,
      leading empty heads dropped; an IndexError when a line has no span. */
  lemma InsurerSpec(lines: seq<Line>, w: string)
    ensures var heads := LineHeads(lines);
      && (InsurerFrom(lines, 0, "", w).Ok? <==> heads.Ok?)
      && (heads.Ok? ==> InsurerFrom(lines, 0, "", w).value == Join(DropLeadingEmpty(Without(heads.value, w)), " "))
  {
    InsurerFromGlue(lines, 0, "", w);
    assert lines[0..] == lines;
    var heads := LineHeads(lines);
    if heads.Ok? {
      GlueFromEmpty(Without(heads.value, w));
    }
  }

  /** `car_*` and `last_text` of the Mitchell extractor. */
  datatype MitchellState = MitchellState(fields: CarData, last: string)

  function MitchellSpanStep(st: MitchellState, t: string, ws: seq<string>): MitchellState
    requires |ws| == 5
  {
    var f := st.fields;
    var last := st.last;
    MitchellState(CarData(
      if last == ws[0] then t else f.owner,
      if last == ws[1] && f.ins == NA then t else f.ins,
      if last == ws[2] then t else f.vin,
      if last == ws[3] then t else f.odo,
      if t == ws[4] then last else f.name), t)
  }

  function MitchellSpansFrom(ts: seq<string>, j: nat, st: MitchellState, ws: seq<string>): MitchellState
    requires j <= |ts| && |ws| == 5
    decreases |ts| - j
  {
    if j == |ts| then st else MitchellSpansFrom(ts, j + 1, MitchellSpanStep(st, ts[j], ws), ws)
  }

  /** One line: first the insurer join when the label is pending, then its spans. */
  function MitchellVisitStep(st: MitchellState, v: Visit, ws: seq<string>): Outcome<MitchellState>
    requires |ws| == 5
  {
    var st1 :-
      if st.last == ws[1] && st.fields.ins == NA then
        var ins :- InsurerFrom(v.block, 0, "", ws[1]);
        Ok(st.(fields := st.fields.(ins := ins)))
      else Ok(st);
    Ok(MitchellSpansFrom(SpanTexts(v.line.spans), 0, st1, ws))
  }

  function MitchellFrom(vs: seq<Visit>, k: nat, st: MitchellState, ws: seq<string>): Outcome<MitchellState>
    requires k <= |vs| && |ws| == 5
    decreases |vs| - k
  {
    if k == |vs| then Ok(st)
    else
      var next :- MitchellVisitStep(st, vs[k], ws);
      MitchellFrom(vs, k + 1, next, ws)
  }

  /** What `get_estimate_information` returns. */
  function MitchellInfo(pages: seq<Page>, lang: Language): Outcome<CarData> {
    var st :- MitchellFrom(MitchellVisits(pages), 0, MitchellState(Unset, ""), MitchellLabels(lang));
    Ok(st.fields)
  }

  // What the insurer label offers. `car_ins` is taken only while it is still "N/A", so it ends
  // up as the first offer other than "N/A": the first non-"N/A" value wins.

  /** What a block offers when a line of it starts right after the insurer label: `" ".join` of
      the line heads other than the label, leading empty heads dropped. A block whose heads
      raise offers "N/A", since the extractor has raised before any later offer is read. */
  function BlockOffer(block: seq<Line>, w: string): string {
    match LineHeads(block)
    case Ok(heads) => Join(DropLeadingEmpty(Without(heads, w)), " ")
    case Crash(_) => NA
  }

  /** The texts of `ts` whose previous text, `pre` read before them, is the label `w`. */
  function SpanOffers(pre: seq<string>, ts: seq<string>, w: string): seq<string>
    decreases |ts|
  {
    if ts == [] then []
    else (if Prev(pre, |pre|) == w then [ts[0]] else []) + SpanOffers(pre + [ts[0]], ts[1..], w)
  }

  /** The offers of one line, `pre` read before it: the block's join if the previous text is
      the label, then the line's spans that follow the label. */
  function VisitOffers(v: Visit, pre: seq<string>, w: string): seq<string> {
    (if Prev(pre, |pre|) == w then [BlockOffer(v.block, w)] else []) + SpanOffers(pre, SpanTexts(v.line.spans), w)
  }

  /** The offers of the lines `vs`, `pre` read before them, line by line. */
  function Offers(vs: seq<Visit>, pre: seq<string>, w: string): seq<string>
    decreases |vs|
  {
    if vs == [] then []
    else VisitOffers(vs[0], pre, w) + Offers(vs[1..], pre + SpanTexts(vs[0].line.spans), w)
  }

  ghost predicate MitchellInv(pre: seq<string>, st: MitchellState, ws: seq<string>)
    requires |ws| == 5
  {
    && st.last == Prev(pre, |pre|)
    && LastWins(pre, ws[0], st.fields.owner)
    && (st.fields.ins == NA || ws[1] in pre)
    && LastWins(pre, ws[2], st.fields.vin)
    && LastWins(pre, ws[3], st.fields.odo)
    && LastBefore(pre, ws[4], st.fields.name)
  }

  lemma MitchellStepInv(pre: seq<string>, t: string, st: MitchellState, ws: seq<string>)
    requires |ws| == 5 && ws[1] != "" && MitchellInv(pre, st, ws)
    ensures MitchellInv(pre + [t], MitchellSpanStep(st, t, ws), ws)
  {
    LastWinsStep(pre, t, ws[0], st.fields.owner);
    LastWinsStep(pre, t, ws[2], st.fields.vin);
    LastWinsStep(pre, t, ws[3], st.fields.odo);
    LastBeforeStep(pre, t, ws[4], st.fields.name);
    LabelScan.PrevExtend(pre, t, "");
    if st.last == ws[1] {
      assert pre != [] && pre[|pre| - 1] == ws[1];
      assert ws[1] in pre;
    }
    assert ws[1] in pre ==> ws[1] in pre + [t];
  }

  lemma {:induction false} MitchellSpansInv(ts: seq<string>, j: nat, st: MitchellState, ws: seq<string>, pre: seq<string>)
    requires j <= |ts| && |ws| == 5 && ws[1] != "" && MitchellInv(pre, st, ws)
    ensures MitchellInv(pre + ts[j..], MitchellSpansFrom(ts, j, st, ws), ws)
    decreases |ts| - j
  {
    if j == |ts| {
      assert pre + ts[j..] == pre;
    } else {
      var t := ts[j];
      var next := pre + [t];
      assert next + ts[j + 1..] == pre + ts[j..];
      MitchellStepInv(pre, t, st, ws);
      MitchellSpansInv(ts, j + 1, MitchellSpanStep(st, t, ws), ws, next);
    }
  }

  lemma MitchellVisitInv(pre: seq<string>, st: MitchellState, v: Visit, ws: seq<string>)
    requires |ws| == 5 && ws[1] != "" && MitchellInv(pre, st, ws)
    ensures MitchellVisitStep(st, v, ws).Ok? ==> MitchellInv(pre + SpanTexts(v.line.spans), MitchellVisitStep(st, v, ws).value, ws)
  {
    var next := MitchellVisitStep(st, v, ws);
    if next.Ok? {
      var ts := SpanTexts(v.line.spans);
      var st1 := if st.last == ws[1] && st.fields.ins == NA then st.(fields := st.fields.(ins := InsurerFrom(v.block, 0, "", ws[1]).value)) else st;
      if st.last == ws[1] && st.fields.ins == NA {
        assert pre != [] && pre[|pre| - 1] == ws[1];
      }
      assert MitchellInv(pre, st1, ws);
      MitchellSpansInv(ts, 0, st1, ws, pre);
      assert ts[0..] == ts;
    }
  }

  /** After `pre`, the texts from line `k` on are line `k`'s texts and then the rest. */
  lemma VisitTextsStep(vs: seq<Visit>, k: nat, pre: seq<string>)
    requires k < |vs|
    ensures pre + VisitTexts(vs[k..]) == pre + SpanTexts(vs[k].line.spans) + VisitTexts(vs[k + 1..])
  {
    assert vs[k..][0] == vs[k] && vs[k..][1..] == vs[k + 1..];
  }

  lemma {:induction false} MitchellFromInv(vs: seq<Visit>, k: nat, st: MitchellState, ws: seq<string>, pre: seq<string>)
    requires k <= |vs| && |ws| == 5 && ws[1] != "" && MitchellInv(pre, st, ws)
    ensures MitchellFrom(vs, k, st, ws).Ok? ==> MitchellInv(pre + VisitTexts(vs[k..]), MitchellFrom(vs, k, st, ws).value, ws)
    decreases |vs| - k
  {
    if k == |vs| {
      assert pre + VisitTexts(vs[k..]) == pre;
    } else {
      var next := MitchellVisitStep(st, vs[k], ws);
      if next.Ok? {
        var ts := SpanTexts(vs[k].line.spans);
        MitchellVisitInv(pre, st, vs[k], ws);
        MitchellFromInv(vs, k + 1, next.value, ws, pre + ts);
        VisitTextsStep(vs, k, pre);
      }
    }
  }

  /** One offer `x` more: an open field takes it, a set field keeps its value. */
  lemma OfferStep(ins: string, offered: bool, x: string, rest: seq<string>)
    ensures LabelScan.FirstOther([if offered && ins == NA then x else ins] + rest, NA)
      == LabelScan.FirstOther([ins] + ((if offered then [x] else []) + rest), NA)
  {
    var lhs := [if offered && ins == NA then x else ins] + rest;
    var rhs := [ins] + ((if offered then [x] else []) + rest);
    assert lhs[0] == (if offered && ins == NA then x else ins) && lhs[1..] == rest;
    assert rhs[0] == ins;
    if offered {
      assert rhs[1..] == [x] + rest && ([x] + rest)[0] == x && ([x] + rest)[1..] == rest;
    } else {
      assert rhs[1..] == rest;
    }
  }

  /** The span loop of one line leaves the insurer at the first offer other than "N/A". */
  lemma {:induction false} SpansIns(ts: seq<string>, j: nat, st: MitchellState, ws: seq<string>, pre: seq<string>)
    requires j <= |ts| && |ws| == 5 && st.last == Prev(pre, |pre|)
    ensures MitchellSpansFrom(ts, j, st, ws).fields.ins == LabelScan.FirstOther([st.fields.ins] + SpanOffers(pre, ts[j..], ws[1]), NA)
    decreases |ts| - j
  {
    if j == |ts| {
      assert SpanOffers(pre, ts[j..], ws[1]) == [];
      assert [st.fields.ins] + [] == [st.fields.ins];
    } else {
      var t := ts[j];
      var st' := MitchellSpanStep(st, t, ws);
      var rest := SpanOffers(pre + [t], ts[j + 1..], ws[1]);
      assert ts[j..][0] == t && ts[j..][1..] == ts[j + 1..];
      assert SpanOffers(pre, ts[j..], ws[1]) == (if st.last == ws[1] then [t] else []) + rest;
      assert st'.last == Prev(pre + [t], |pre + [t]|);
      assert st'.fields.ins == if st.last == ws[1] && st.fields.ins == NA then t else st.fields.ins;
      SpansIns(ts, j + 1, st', ws, pre + [t]);
      OfferStep(st.fields.ins, st.last == ws[1], t, rest);
    }
  }

  /** The span loop leaves `last_text` at the last text read. */
  lemma {:induction false} SpansLast(ts: seq<string>, j: nat, st: MitchellState, ws: seq<string>, pre: seq<string>)
    requires j <= |ts| && |ws| == 5 && st.last == Prev(pre, |pre|)
    ensures MitchellSpansFrom(ts, j, st, ws).last == Prev(pre + ts[j..], |pre + ts[j..]|)
    decreases |ts| - j
  {
    if j == |ts| {
      assert pre + ts[j..] == pre;
    } else {
      assert pre + [ts[j]] + ts[j + 1..] == pre + ts[j..];
      SpansLast(ts, j + 1, MitchellSpanStep(st, ts[j], ws), ws, pre + [ts[j]]);
    }
  }

  /** The start of a line: an open insurer takes the block's join exactly when it is offered. */
  lemma HeadIns(ins: string, last: string, block: seq<Line>, w: string)
    requires last == w && ins == NA ==> InsurerFrom(block, 0, "", w).Ok?
    ensures (if last == w && ins == NA then InsurerFrom(block, 0, "", w).value else ins)
      == LabelScan.FirstOther([ins] + (if last == w then [BlockOffer(block, w)] else []), NA)
  {
    if last == w && ins == NA {
      InsurerSpec(block, w);
    }
    OfferStep(ins, last == w, BlockOffer(block, w), []);
    assert (if last == w then [BlockOffer(block, w)] else []) + [] == if last == w then [BlockOffer(block, w)] else [];
    assert [if last == w && ins == NA then BlockOffer(block, w) else ins] + [] == [if last == w && ins == NA then BlockOffer(block, w) else ins];
    assert LabelScan.FirstOther([if last == w && ins == NA then BlockOffer(block, w) else ins], NA)
      == if last == w && ins == NA then BlockOffer(block, w) else ins by {
      var y := if last == w && ins == NA then BlockOffer(block, w) else ins;
      assert [y][1..] == [];
    }
  }

  /** One line: the block's join if it is offered and the insurer is open, then the spans. */
  lemma VisitIns(st: MitchellState, v: Visit, ws: seq<string>, pre: seq<string>)
    requires |ws| == 5 && st.last == Prev(pre, |pre|) && MitchellVisitStep(st, v, ws).Ok?
    ensures MitchellVisitStep(st, v, ws).value.fields.ins ==
      LabelScan.FirstOther([st.fields.ins] + VisitOffers(v, pre, ws[1]), NA)
    ensures MitchellVisitStep(st, v, ws).value.last == Prev(pre + SpanTexts(v.line.spans), |pre + SpanTexts(v.line.spans)|)
  {
    var ts := SpanTexts(v.line.spans);
    var h := if st.last == ws[1] then [BlockOffer(v.block, ws[1])] else [];
    var st1 := if st.last == ws[1] && st.fields.ins == NA then st.(fields := st.fields.(ins := InsurerFrom(v.block, 0, "", ws[1]).value)) else st;
    HeadIns(st.fields.ins, st.last, v.block, ws[1]);
    SpansIns(ts, 0, st1, ws, pre);
    SpansLast(ts, 0, st1, ws, pre);
    assert ts[0..] == ts;
    LabelScan.FirstOtherAppend(st.fields.ins, h, SpanOffers(pre, ts, ws[1]), NA);
    assert [st.fields.ins] + (h + SpanOffers(pre, ts, ws[1])) == [st.fields.ins] + h + SpanOffers(pre, ts, ws[1]);
  }

  /** The line loop leaves the insurer at the first offer other than "N/A". */
  lemma {:induction false} MitchellFromIns(vs: seq<Visit>, k: nat, st: MitchellState, ws: seq<string>, pre: seq<string>)
    requires k <= |vs| && |ws| == 5 && st.last == Prev(pre, |pre|)
    ensures MitchellFrom(vs, k, st, ws).Ok? ==>
      MitchellFrom(vs, k, st, ws).value.fields.ins == LabelScan.FirstOther([st.fields.ins] + Offers(vs[k..], pre, ws[1]), NA)
    decreases |vs| - k
  {
    if k == |vs| {
      assert Offers(vs[k..], pre, ws[1]) == [];
      assert [st.fields.ins] + [] == [st.fields.ins];
    } else if MitchellVisitStep(st, vs[k], ws).Ok? {
      var next := MitchellVisitStep(st, vs[k], ws).value;
      var ts := SpanTexts(vs[k].line.spans);
      var x := VisitOffers(vs[k], pre, ws[1]);
      var rest := Offers(vs[k + 1..], pre + ts, ws[1]);
      VisitIns(st, vs[k], ws, pre);
      MitchellFromIns(vs, k + 1, next, ws, pre + ts);
      assert vs[k..][0] == vs[k] && vs[k..][1..] == vs[k + 1..];
      assert Offers(vs[k..], pre, ws[1]) == x + rest;
      LabelScan.FirstOtherAppend(st.fields.ins, x, rest, NA);
      assert [st.fields.ins] + (x + rest) == [st.fields.ins] + x + rest;
    }
  }

  /** On the span texts of the first two pages: the owner, VIN and odometer are the last span
      after their label, the vehicle name the span before the last "Parts Profile", and the
      insurer stays "N/A" unless its label occurs. The insurer is the first value other than
      "N/A" that its label offers, in reading order: at the start of a line right after the
      label, the block's joined line heads; a span right after the label, that span's text. */
  lemma MitchellInfoSpec(pages: seq<Page>, lang: Language)
    ensures var r, ts, ws := MitchellInfo(pages, lang), FirstPagesTexts(pages), MitchellLabels(lang);
      r.Ok? ==>
        && LastWins(ts, ws[0], r.value.owner)
        && (ws[1] !in ts ==> r.value.ins == NA)
        && LastWins(ts, ws[2], r.value.vin)
        && LastWins(ts, ws[3], r.value.odo)
        && LastBefore(ts, ws[4], r.value.name)
    ensures var r, ws := MitchellInfo(pages, lang), MitchellLabels(lang);
      r.Ok? ==> r.value.ins == LabelScan.FirstOther(Offers(MitchellVisits(pages), [], ws[1]), NA)
  {
    var vs, ws := MitchellVisits(pages), MitchellLabels(lang);
    var st0 := MitchellState(Unset, "");
    assert MitchellInv([], st0, ws);
    MitchellFromInv(vs, 0, st0, ws, []);
    assert vs[0..] == vs && [] + VisitTexts(vs) == VisitTexts(vs);
    MitchellVisitsTexts(pages);
    MitchellFromIns(vs, 0, st0, ws, []);
    LabelScan.FirstOtherAppend(NA, [], Offers(vs, [], ws[1]), NA);
    assert [NA] + [] == [NA] && [NA] + [] + Offers(vs, [], ws[1]) == [NA] + Offers(vs, [], ws[1]);
  }

  /** The join loop over the lines of the block. */
  method InsurerText(lines: seq<Line>, w: string) returns (r: Outcome<string>)
    ensures r == InsurerFrom(lines, 0, "", w)
  {
    var acc := "";
    var j := 0;
    while j < |lines|
      invariant 0 <= j <= |lines|
      invariant InsurerFrom(lines, 0, "", w) == InsurerFrom(lines, j, acc, w)
    {
      if lines[j].spans == [] {
        return Crash("IndexError: list index out of range");
      }
      var t := lines[j].spans[0].text;
      if t != w {
        if acc != "" {
          acc := acc + " " + t;
        } else {
          acc := acc + t;
        }
      }
      j := j + 1;
    }
    r := Ok(acc);
  }

  /** The span loop of one line. */
  method MitchellLineSpans(st: MitchellState, spans: seq<Span>, ws: seq<string>) returns (r: MitchellState)
    requires |ws| == 5
    ensures r == MitchellSpansFrom(SpanTexts(spans), 0, st, ws)
  {
    var ts := SpanTexts(spans);
    var owner, ins, vin, odo, name := st.fields.owner, st.fields.ins, st.fields.vin, st.fields.odo, st.fields.name;
    var last := st.last;
    var j := 0;
    while j < |spans|
      invariant 0 <= j <= |spans|
      invariant MitchellSpansFrom(ts, 0, st, ws)
        == MitchellSpansFrom(ts, j, MitchellState(CarData(owner, ins, vin, odo, name), last), ws)
    {
      var t := spans[j].text;
      owner := if last == ws[0] then t else owner;
      ins := if last == ws[1] && ins == NA then t else ins;
      vin := if last == ws[2] then t else vin;
      odo := if last == ws[3] then t else odo;
      name := if t == ws[4] then last else name;
      last := t;
      j := j + 1;
    }
    r := MitchellState(CarData(owner, ins, vin, odo, name), last);
  }

  /** One line: the insurer join when its label is pending, then the line's spans. */
  method MitchellVisit(st: MitchellState, v: Visit, ws: seq<string>) returns (r: Outcome<MitchellState>)
    requires |ws| == 5
    ensures r == MitchellVisitStep(st, v, ws)
  {
    var st1 := st;
    if st.last == ws[1] && st.fields.ins == NA {
      var joined := InsurerText(v.block, ws[1]);
      if joined.Crash? {
        return Crash(joined.reason);
      }
      st1 := st.(fields := st.fields.(ins := joined.value));
    }
    var st2 := MitchellLineSpans(st1, v.line.spans, ws);
    r := Ok(st2);
  }

  /** `get_estimate_information`: the line loop over the first two pages. */
  method GetEstimateInformation(pages: seq<Page>, lang: Language) returns (r: Outcome<CarData>)
    ensures r == MitchellInfo(pages, lang)
  {
    var ws := MitchellLabels(lang);
    var vs := MitchellVisits(pages);
    var st := MitchellState(Unset, "");
    var k := 0;
    while k < |vs|
      invariant 0 <= k <= |vs|
      invariant MitchellFrom(vs, 0, MitchellState(Unset, ""), ws) == MitchellFrom(vs, k, st, ws)
    {
      var next := MitchellVisit(st, vs[k], ws);
      if next.Crash? {
        return Crash(next.reason);
      }
      st := next.value;
      k := k + 1;
    }
    r := Ok(st.fields);
  }
}
