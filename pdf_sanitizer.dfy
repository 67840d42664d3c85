/** The sanitizers of the estimate parser (parse-pdf-mirroring-3-13/lambda_function.py):
    `clean_pdf_mitchell` (297-377) and `clean_pdf_audatex` (140-234) as redaction plans (which
    bands of which page are whited out, in order, and which pages are copied into the cleaned
    document), and `merge_pdf_to_single_page` (258-294) as the layout of the merged page. */
module PdfSanitizer {
  import opened Wrappers
  import opened PyText
  import opened PdfDocument

  /** What a sanitizer does to page `index`: the rectangles it whites out, in order, and
      whether the page still has text afterwards and is therefore copied. */
  datatype PagePlan = PagePlan(index: nat, redactions: seq<Rect>, copied: bool)

  /** The loop state: `started` is `hasTitle` (Mitchell) or `table_start` (Audatex), `ended`
      is `table_end`, and `plans` holds one plan per page processed so far. */
  datatype CleanState = CleanState(started: bool, ended: bool, plans: seq<PagePlan>)

  const Fresh := CleanState(false, false, [])

  /** The first hit of a search, or the IndexError of `search_for(..)[0]`. */
  function FirstHit(hits: seq<Rect>): (r: Outcome<Rect>)
    ensures r.Ok? <==> hits != []
    ensures r.Ok? ==> r.value == hits[0]
  {
    if hits == [] then Crash("IndexError: list index out of range") else Ok(hits[0])
  }

  // ---------------------------------------------------------------------------------------
  // clean_pdf_mitchell
  // ---------------------------------------------------------------------------------------

  datatype MitchellWords = MitchellWords(line: string, footer: string, endTable: string)

  function MitchellWordsFor(lang: Language): MitchellWords {
    if lang == Fr then MitchellWords("Ligne #", "Mitchell Cloud Estimating", "* Point de jugement")
    else MitchellWords("Line #", "Mitchell Cloud Estimating", "* Judgment Item")
  }

  /** The cut from the top of the page to the table heading: at the heading's y0 on the first
      table page and 10 points lower once a heading has been seen. */
  function MitchellTopCut(page: Page, hasTitle: bool, w: MitchellWords): Outcome<seq<Rect>> {
    var pos :- FirstHit(page.search(w.line));
    Ok([Rect(0.0, 0.0, page.width, if hasTitle then pos.y0 + 10.0 else pos.y0)])
  }

  /** The cut from 10 points above the bottom of the end marker to the foot of the page; the
      fallback `find_text_pos` is not defined anywhere, so a marker that the text shows but the
      search misses raises a NameError. */
  function MitchellEndCut(page: Page, done: seq<Rect>, w: MitchellWords): Outcome<seq<Rect>> {
    var hits := page.searchAfter(done, w.endTable);
    if hits == [] then Crash("NameError: name 'find_text_pos' is not defined")
    else Ok(done + [Rect(0.0, hits[0].y1 - 10.0, page.width, page.height)])
  }

  function MitchellFooterCut(page: Page, done: seq<Rect>, w: MitchellWords): seq<Rect> {
    var hits := page.searchAfter(done, w.footer);
    if Contains(page.text, w.footer) && hits != [] then done + [Rect(0.0, hits[0].y1 - 20.0, page.width, page.height)]
    else done
  }

  /** The rectangles whited out on one page, in order. */
  function MitchellCuts(page: Page, hasTitle: bool, w: MitchellWords): Outcome<seq<Rect>> {
    var top :- if Contains(page.text, w.line) then MitchellTopCut(page, hasTitle, w) else Ok([]);
    var ending :- if Contains(page.text, w.endTable) then MitchellEndCut(page, top, w) else Ok(top);
    var footer := MitchellFooterCut(page, ending, w);
    Ok(if Contains(page.text, w.line) then footer else footer + [page.PageRect()])
  }

  function MitchellStep(st: CleanState, page: Page, p: nat, w: MitchellWords): Outcome<CleanState> {
    if st.ended then Ok(st)
    else
      var cuts :- MitchellCuts(page, st.started, w);
      Ok(CleanState(st.started || Contains(page.text, w.line), Contains(page.text, w.endTable),
                    st.plans + [PagePlan(p, cuts, page.remainsAfter(cuts))]))
  }

  function MitchellFrom(pages: seq<Page>, j: nat, st: CleanState, w: MitchellWords): Outcome<CleanState>
    requires j <= |pages|
    decreases |pages| - j
  {
    if j == |pages| then Ok(st)
    else
      var next :- MitchellStep(st, pages[j], j, w);
      MitchellFrom(pages, j + 1, next, w)
  }

  /** `clean_pdf_mitchell(pdf_document, parent_path, language)` as a plan. */
  function CleanMitchell(pages: seq<Page>, lang: Language): Outcome<seq<PagePlan>> {
    var st :- MitchellFrom(pages, 0, Fresh, MitchellWordsFor(lang));
    Ok(st.plans)
  }

  /** Some page before page `i` holds the table heading. */
  ghost predicate HeadingBefore(pages: seq<Page>, i: nat, w: MitchellWords)
    requires i <= |pages|
  {
    exists q :: 0 <= q < i && Contains(pages[q].text, w.line)
  }

  /** What the plan of page `i` promises. */
  ghost predicate MitchellPlanOk(pages: seq<Page>, i: nat, plan: PagePlan, w: MitchellWords)
    requires i < |pages|
  {
    var page := pages[i];
    var rs := plan.redactions;
    plan.index == i &&
    plan.copied == page.remainsAfter(rs) &&
    (Contains(page.text, w.line) ==>
       page.search(w.line) != [] && rs != [] &&
       rs[0] == Rect(0.0, 0.0, page.width, page.search(w.line)[0].y0 + (if HeadingBefore(pages, i, w) then 10.0 else 0.0))) &&
    (!Contains(page.text, w.line) ==> rs != [] && rs[|rs| - 1] == page.PageRect())
  }

  /** One page's cuts: the heading cut first on a table page, the whole page last otherwise. */
  lemma MitchellCutsSpec(page: Page, hasTitle: bool, w: MitchellWords)
    requires MitchellCuts(page, hasTitle, w).Ok?
    ensures var rs := MitchellCuts(page, hasTitle, w).value;
      (Contains(page.text, w.line) ==>
         page.search(w.line) != [] && rs != [] &&
         rs[0] == Rect(0.0, 0.0, page.width, page.search(w.line)[0].y0 + (if hasTitle then 10.0 else 0.0))) &&
      (!Contains(page.text, w.line) ==> rs != [] && rs[|rs| - 1] == page.PageRect())
  {
    var top := if Contains(page.text, w.line) then MitchellTopCut(page, hasTitle, w).value else [];
    var ending := if Contains(page.text, w.endTable) then MitchellEndCut(page, top, w).value else top;
    assert top <= ending;
    assert ending <= MitchellFooterCut(page, ending, w);
  }

  ghost predicate MitchellInv(pages: seq<Page>, j: nat, st: CleanState, w: MitchellWords)
    requires j <= |pages|
  {
    var n := |st.plans|;
    n <= j &&
    (!st.ended ==> n == j) &&
    (st.ended <==> n > 0 && Contains(pages[n - 1].text, w.endTable)) &&
    (forall i :: 0 <= i < n - 1 ==> !Contains(pages[i].text, w.endTable)) &&
    (st.started <==> HeadingBefore(pages, n, w)) &&
    (forall i :: 0 <= i < n ==> MitchellPlanOk(pages, i, st.plans[i], w))
  }

  lemma MitchellStepInv(pages: seq<Page>, j: nat, st: CleanState, w: MitchellWords)
    requires j < |pages| && MitchellInv(pages, j, st, w)
    requires MitchellStep(st, pages[j], j, w).Ok?
    ensures MitchellInv(pages, j + 1, MitchellStep(st, pages[j], j, w).value, w)
  {
    if !st.ended {
      var page := pages[j];
      MitchellCutsSpec(page, st.started, w);
      var next := MitchellStep(st, page, j, w).value;
      assert |next.plans| == j + 1 && next.plans[..j] == st.plans;
      assert MitchellPlanOk(pages, j, next.plans[j], w);
      if Contains(page.text, w.line) {
        assert HeadingBefore(pages, j + 1, w) by { assert 0 <= j < j + 1 && Contains(pages[j].text, w.line); }
      } else if HeadingBefore(pages, j + 1, w) {
        var q :| 0 <= q < j + 1 && Contains(pages[q].text, w.line);
        assert q < j;
      }
      if HeadingBefore(pages, j, w) {
        var q :| 0 <= q < j && Contains(pages[q].text, w.line);
        assert 0 <= q < j + 1;
      }
    }
  }

  lemma {:induction false} MitchellFromInv(pages: seq<Page>, j: nat, st: CleanState, w: MitchellWords)
    requires j <= |pages| && MitchellInv(pages, j, st, w)
    requires MitchellFrom(pages, j, st, w).Ok?
    ensures MitchellInv(pages, |pages|, MitchellFrom(pages, j, st, w).value, w)
    decreases |pages| - j
  {
    if j < |pages| {
      MitchellStepInv(pages, j, st, w);
      MitchellFromInv(pages, j + 1, MitchellStep(st, pages[j], j, w).value, w);
    }
  }

  /** The Mitchell plan: one plan per page up to and including the first page holding the end
      marker and none after it; the heading cut sits at the heading's y0 on the first table page
      and 10 points lower on later ones; a page without the heading is whited out entirely; a
      page is copied exactly when text remains. */
  lemma CleanMitchellSpec(pages: seq<Page>, lang: Language)
    requires CleanMitchell(pages, lang).Ok?
    ensures var plans := CleanMitchell(pages, lang).value; var w := MitchellWordsFor(lang);
      |plans| <= |pages| &&
      (forall i :: 0 <= i < |plans| - 1 ==> !Contains(pages[i].text, w.endTable)) &&
      (|plans| < |pages| ==> |plans| > 0 && Contains(pages[|plans| - 1].text, w.endTable)) &&
      (forall i :: 0 <= i < |plans| ==> MitchellPlanOk(pages, i, plans[i], w))
  {
    MitchellFromInv(pages, 0, Fresh, MitchellWordsFor(lang));
  }

  /** One iteration of the page loop of `clean_pdf_mitchell`, on a page before the table end. */
  method RedactMitchellPage(page: Page, hasTitle: bool, w: MitchellWords) returns (r: Outcome<seq<Rect>>)
    ensures r == MitchellCuts(page, hasTitle, w)
  {
    var rects: seq<Rect> := [];
    var isTablePage := false;
    if Contains(page.text, w.line) {
      var hits := page.search(w.line);
      if hits == [] {
        return Crash("IndexError: list index out of range");
      }
      var top := if hasTitle then hits[0].y0 + 10.0 else hits[0].y0;
      rects := [Rect(0.0, 0.0, page.width, top)];
      isTablePage := true;
    }
    assert Contains(page.text, w.line) ==> MitchellTopCut(page, hasTitle, w) == Ok(rects);
    assert !Contains(page.text, w.line) ==> rects == [];
    if Contains(page.text, w.endTable) {
      var hits := page.searchAfter(rects, w.endTable);
      if hits == [] {
        return Crash("NameError: name 'find_text_pos' is not defined");
      }
      rects := rects + [Rect(0.0, hits[0].y1 - 10.0, page.width, page.height)];
    }
    ghost var ending := rects;
    if Contains(page.text, w.footer) {
      var hits := page.searchAfter(rects, w.footer);
      if hits != [] {
        rects := rects + [Rect(0.0, hits[0].y1 - 20.0, page.width, page.height)];
      }
    }
    assert rects == MitchellFooterCut(page, ending, w);
    if !isTablePage {
      rects := rects + [page.PageRect()];
    }
    return Ok(rects);
  }

  /** `clean_pdf_mitchell` as the page loop it is. */
  method CleanPdfMitchell(pages: seq<Page>, lang: Language) returns (r: Outcome<seq<PagePlan>>)
    ensures r == CleanMitchell(pages, lang)
  {
    var w := MitchellWordsFor(lang);
    var hasTitle, tableEnd := false, false;
    var plans: seq<PagePlan> := [];
    for p := 0 to |pages|
      invariant MitchellFrom(pages, p, CleanState(hasTitle, tableEnd, plans), w) == MitchellFrom(pages, 0, Fresh, w)
    {
      if !tableEnd {
        var page := pages[p];
        var cuts := RedactMitchellPage(page, hasTitle, w);
        if cuts.Crash? {
          return Crash(cuts.reason);
        }
        hasTitle := hasTitle || Contains(page.text, w.line);
        tableEnd := Contains(page.text, w.endTable);
        plans := plans + [PagePlan(p, cuts.value, page.remainsAfter(cuts.value))];
      }
    }
    return Ok(plans);
  }

  // ---------------------------------------------------------------------------------------
  // clean_pdf_audatex
  // ---------------------------------------------------------------------------------------

  datatype AudatexWords = AudatexWords(manufact: string, items: string, endTable: string, damages: string)

  function AudatexWordsFor(lang: Language): AudatexWords {
    if lang == Fr then AudatexWords("# Pièce Manufact.", "Items", "Calcul final & Entrées", "Dommages antérieurs combines")
    else AudatexWords("MFR.Part No.", "Items", "Estimate Total & Entries", "Combined Previous Damages")
  }

  /** Height of the header and footer bands. */
  const Margin := 52.0

  /** The footer band of every page, then the header band of every page but the first. */
  function MarginCuts(page: Page, p: nat): seq<Rect> {
    [Rect(0.0, page.height - Margin, page.width, page.height)] +
    (if p != 0 then [Rect(0.0, 0.0, page.width, Margin)] else [])
  }

  /** On the first page with the parts-table heading: everything above the heading. */
  function StartCut(page: Page, done: seq<Rect>, started: bool, w: AudatexWords): (r: Outcome<seq<Rect>>)
    ensures r.Ok? ==> done <= r.value
  {
    if Contains(page.text, w.manufact) && !started then
      var pos :- FirstHit(page.searchAfter(done, w.manufact));
      Ok(done + [Rect(0.0, 0.0, page.width, pos.y0)])
    else Ok(done)
  }

  /** The band from just above "Items" to the bottom of the combined-damages heading, when the
      latter is lower on the page. */
  function DamagesCut(page: Page, done: seq<Rect>, w: AudatexWords): (r: Outcome<seq<Rect>>)
    ensures r.Ok? ==> done <= r.value
  {
    var dmg :- FirstHit(page.searchAfter(done, w.damages));
    var items :- FirstHit(page.searchAfter(done, w.items));
    Ok(if dmg.y0 > items.y0 then done + [Rect(0.0, items.y0 - 1.0, page.width, dmg.y1)] else done)
  }

  /** The redactions so far and whether `table_end` was set. */
  datatype Cuts = Cuts(rects: seq<Rect>, ended: bool)

  /** When the end marker lies below "Items": everything from just above the bottom of "Items",
      and the table ends. */
  function EndCut(page: Page, done: seq<Rect>, w: AudatexWords): (r: Outcome<Cuts>)
    ensures r.Ok? ==> done <= r.value.rects
  {
    var total :- FirstHit(page.searchAfter(done, w.endTable));
    var items :- FirstHit(page.searchAfter(done, w.items));
    Ok(if total.y0 > items.y0 then Cuts(done + [Rect(0.0, items.y1 - 2.0, page.width, page.height)], true)
       else Cuts(done, false))
  }

  function ItemsCut(page: Page, done: seq<Rect>, w: AudatexWords): (r: Outcome<seq<Rect>>)
    ensures r.Ok? ==> done <= r.value
  {
    var items :- FirstHit(page.searchAfter(done, w.items));
    Ok(done + [Rect(0.0, items.y0 - 2.0, page.width, page.height)])
  }

  /** The cuts made on a page that mentions "Items". */
  function ItemsSection(page: Page, done: seq<Rect>, w: AudatexWords): (r: Outcome<Cuts>)
    ensures r.Ok? ==> done <= r.value.rects
    ensures r.Ok? && r.value.ended ==> Contains(page.text, w.endTable)
  {
    var r4 :- if Contains(page.text, w.damages) then DamagesCut(page, done, w) else Ok(done);
    var c :- if Contains(page.text, w.endTable) then EndCut(page, r4, w) else Ok(Cuts(r4, false));
    var r6 :- if !Contains(page.text, w.damages) && !Contains(page.text, w.endTable) then ItemsCut(page, c.rects, w)
              else Ok(c.rects);
    Ok(Cuts(r6, c.ended))
  }

  /** The rectangles whited out on page `p` of the merged document, in order, up to the
      "Items" section. */
  function HeadCuts(page: Page, p: nat, started: bool, w: AudatexWords): Outcome<seq<Rect>> {
    var r2 :- StartCut(page, MarginCuts(page, p), started, w);
    Ok(if started || Contains(page.text, w.manufact) then r2 else r2 + [page.PageRect()])
  }

  /** The rectangles whited out on page `p` of the merged document, in order. */
  function AudatexCuts(page: Page, p: nat, started: bool, w: AudatexWords): Outcome<Cuts> {
    var r3 :- HeadCuts(page, p, started, w);
    if Contains(page.text, w.items) then ItemsSection(page, r3, w) else Ok(Cuts(r3, false))
  }

  function AudatexStep(st: CleanState, page: Page, p: nat, w: AudatexWords): Outcome<CleanState> {
    if st.ended then Ok(st)
    else
      var cuts :- AudatexCuts(page, p, st.started, w);
      Ok(CleanState(st.started || Contains(page.text, w.manufact), cuts.ended,
                    st.plans + [PagePlan(p, cuts.rects, page.remainsAfter(cuts.rects))]))
  }

  function AudatexFrom(pages: seq<Page>, j: nat, st: CleanState, w: AudatexWords): Outcome<CleanState>
    requires j <= |pages|
    decreases |pages| - j
  {
    if j == |pages| then Ok(st)
    else
      var next :- AudatexStep(st, pages[j], j, w);
      AudatexFrom(pages, j + 1, next, w)
  }

  /** `clean_pdf_audatex` as a plan over the pages of the merged document. */
  function CleanAudatex(merged: seq<Page>, lang: Language): Outcome<seq<PagePlan>> {
    var st :- AudatexFrom(merged, 0, Fresh, AudatexWordsFor(lang));
    Ok(st.plans)
  }

  /** Some page up to page `n` (excluded) holds the parts-table heading. */
  ghost predicate StartedBefore(pages: seq<Page>, n: nat, w: AudatexWords)
    requires n <= |pages|
  {
    exists q :: 0 <= q < n && Contains(pages[q].text, w.manufact)
  }

  /** A page whose cuts set `table_end`: it holds both "Items" and the end marker. */
  predicate EndPage(page: Page, w: AudatexWords) {
    Contains(page.text, w.items) && Contains(page.text, w.endTable)
  }

  ghost predicate AudatexPlanOk(pages: seq<Page>, i: nat, plan: PagePlan, w: AudatexWords)
    requires i < |pages|
  {
    var page := pages[i];
    var rs := plan.redactions;
    plan.index == i &&
    plan.copied == page.remainsAfter(rs) &&
    MarginCuts(page, i) <= rs &&
    (!StartedBefore(pages, i + 1, w) ==> page.PageRect() in rs)
  }

  /** One page's cuts: the margin bands come first, a page before the table heading is whited
      out entirely, and only a page with "Items" and the end marker ends the table. */
  lemma AudatexCutsSpec(page: Page, p: nat, started: bool, w: AudatexWords)
    requires AudatexCuts(page, p, started, w).Ok?
    ensures var c := AudatexCuts(page, p, started, w).value;
      MarginCuts(page, p) <= c.rects &&
      (!started && !Contains(page.text, w.manufact) ==> page.PageRect() in c.rects) &&
      (c.ended ==> EndPage(page, w))
  {
    var r1 := MarginCuts(page, p);
    var r2 := StartCut(page, r1, started, w).value;
    var r3 := HeadCuts(page, p, started, w).value;
    var c := AudatexCuts(page, p, started, w).value;
    assert r1 <= r3 <= c.rects;
    if !started && !Contains(page.text, w.manufact) {
      PrefixIn(r3, c.rects, |r3| - 1);
    }
  }

  lemma PrefixIn(a: seq<Rect>, b: seq<Rect>, k: int)
    requires a <= b && 0 <= k < |a|
    ensures a[k] in b
  {
    assert b[k] == a[k];
  }

  ghost predicate AudatexInv(pages: seq<Page>, j: nat, st: CleanState, w: AudatexWords)
    requires j <= |pages|
  {
    var n := |st.plans|;
    n <= j &&
    (!st.ended ==> n == j) &&
    (st.ended ==> n > 0 && EndPage(pages[n - 1], w)) &&
    (st.started <==> StartedBefore(pages, n, w)) &&
    (forall i :: 0 <= i < n ==> AudatexPlanOk(pages, i, st.plans[i], w))
  }

  lemma AudatexStepInv(pages: seq<Page>, j: nat, st: CleanState, w: AudatexWords)
    requires j < |pages| && AudatexInv(pages, j, st, w)
    requires AudatexStep(st, pages[j], j, w).Ok?
    ensures AudatexInv(pages, j + 1, AudatexStep(st, pages[j], j, w).value, w)
  {
    if !st.ended {
      var page := pages[j];
      AudatexCutsSpec(page, j, st.started, w);
      var next := AudatexStep(st, page, j, w).value;
      assert |next.plans| == j + 1 && next.plans[..j] == st.plans;
      if Contains(page.text, w.manufact) {
        assert StartedBefore(pages, j + 1, w) by { assert 0 <= j < j + 1 && Contains(pages[j].text, w.manufact); }
      } else if StartedBefore(pages, j + 1, w) {
        var q :| 0 <= q < j + 1 && Contains(pages[q].text, w.manufact);
        assert q < j;
      }
      if StartedBefore(pages, j, w) {
        var q :| 0 <= q < j && Contains(pages[q].text, w.manufact);
        assert 0 <= q < j + 1;
      }
      assert AudatexPlanOk(pages, j, next.plans[j], w);
    }
  }

  lemma {:induction false} AudatexFromInv(pages: seq<Page>, j: nat, st: CleanState, w: AudatexWords)
    requires j <= |pages| && AudatexInv(pages, j, st, w)
    requires AudatexFrom(pages, j, st, w).Ok?
    ensures AudatexInv(pages, |pages|, AudatexFrom(pages, j, st, w).value, w)
    decreases |pages| - j
  {
    if j < |pages| {
      AudatexStepInv(pages, j, st, w);
      AudatexFromInv(pages, j + 1, AudatexStep(st, pages[j], j, w).value, w);
    }
  }

  /** The Audatex plan: pages are processed in order until one holding "Items" and the end
      marker ends the table; each plan starts with the footer band (and, past the first page,
      the header band); pages before the first parts-table heading are whited out entirely; a
      page is copied exactly when text remains. */
  lemma CleanAudatexSpec(merged: seq<Page>, lang: Language)
    requires CleanAudatex(merged, lang).Ok?
    ensures var plans := CleanAudatex(merged, lang).value; var w := AudatexWordsFor(lang);
      |plans| <= |merged| &&
      (|plans| < |merged| ==> |plans| > 0 && EndPage(merged[|plans| - 1], w)) &&
      (forall i :: 0 <= i < |plans| ==> AudatexPlanOk(merged, i, plans[i], w))
  {
    AudatexFromInv(merged, 0, Fresh, AudatexWordsFor(lang));
  }

  /** On the merged single page there is no header band: the footer band comes first and, when
      the page lacks the parts-table heading, the whole page right after it. */
  lemma CleanAudatexMergedPage(page: Page, lang: Language)
    requires CleanAudatex([page], lang).Ok?
    ensures var plans := CleanAudatex([page], lang).value;
      |plans| == 1 && |plans[0].redactions| >= 1 &&
      plans[0].redactions[0] == Rect(0.0, page.height - Margin, page.width, page.height) &&
      (!Contains(page.text, AudatexWordsFor(lang).manufact) ==>
         |plans[0].redactions| >= 2 && plans[0].redactions[1] == page.PageRect())
  {
    var w := AudatexWordsFor(lang);
    var st := AudatexStep(Fresh, page, 0, w).value;
    assert AudatexFrom([page], 1, st, w) == Ok(st);
    var r1 := MarginCuts(page, 0);
    var r2 := StartCut(page, r1, false, w).value;
    var r3 := HeadCuts(page, 0, false, w).value;
    var c := AudatexCuts(page, 0, false, w).value;
    assert r3 <= c.rects;
    assert r1 == [Rect(0.0, page.height - Margin, page.width, page.height)];
    assert st.plans == [PagePlan(0, c.rects, page.remainsAfter(c.rects))];
  }

  /** The "Items" branch of the page loop of `clean_pdf_audatex`. */
  method RedactItems(page: Page, done: seq<Rect>, w: AudatexWords) returns (r: Outcome<Cuts>)
    ensures r == ItemsSection(page, done, w)
  {
    var rects := done;
    var ended := false;
    if Contains(page.text, w.damages) {
      var dmgHits := page.searchAfter(rects, w.damages);
      var itemHits := page.searchAfter(rects, w.items);
      if dmgHits == [] || itemHits == [] {
        return Crash("IndexError: list index out of range");
      }
      if dmgHits[0].y0 > itemHits[0].y0 {
        rects := rects + [Rect(0.0, itemHits[0].y0 - 1.0, page.width, dmgHits[0].y1)];
      }
    }
    if Contains(page.text, w.endTable) {
      var totalHits := page.searchAfter(rects, w.endTable);
      var itemHits := page.searchAfter(rects, w.items);
      if totalHits == [] || itemHits == [] {
        return Crash("IndexError: list index out of range");
      }
      if totalHits[0].y0 > itemHits[0].y0 {
        rects := rects + [Rect(0.0, itemHits[0].y1 - 2.0, page.width, page.height)];
        ended := true;
      }
    }
    if !Contains(page.text, w.damages) && !Contains(page.text, w.endTable) {
      var itemHits := page.searchAfter(rects, w.items);
      if itemHits == [] {
        return Crash("IndexError: list index out of range");
      }
      rects := rects + [Rect(0.0, itemHits[0].y0 - 2.0, page.width, page.height)];
    }
    return Ok(Cuts(rects, ended));
  }

  /** One iteration of the page loop of `clean_pdf_audatex`, on a page before the table end. */
  method RedactAudatexPage(page: Page, p: nat, tableStart: bool, w: AudatexWords) returns (r: Outcome<Cuts>)
    ensures r == AudatexCuts(page, p, tableStart, w)
  {
    var rects := [Rect(0.0, page.height - Margin, page.width, page.height)];
    if p != 0 {
      rects := rects + [Rect(0.0, 0.0, page.width, Margin)];
    }
    assert rects == MarginCuts(page, p);
    var started := tableStart;
    if Contains(page.text, w.manufact) && !started {
      started := true;
      var hits := page.searchAfter(rects, w.manufact);
      if hits == [] {
        return Crash("IndexError: list index out of range");
      }
      rects := rects + [Rect(0.0, 0.0, page.width, hits[0].y0)];
    }
    if !started {
      rects := rects + [page.PageRect()];
    }
    assert HeadCuts(page, p, tableStart, w) == Ok(rects);
    if Contains(page.text, w.items) {
      r := RedactItems(page, rects, w);
    } else {
      r := Ok(Cuts(rects, false));
    }
  }

  /** `clean_pdf_audatex` as the page loop it is, on the pages of the merged document. */
  method CleanPdfAudatex(merged: seq<Page>, lang: Language) returns (r: Outcome<seq<PagePlan>>)
    ensures r == CleanAudatex(merged, lang)
  {
    var w := AudatexWordsFor(lang);
    var tableStart, tableEnd := false, false;
    var plans: seq<PagePlan> := [];
    for p := 0 to |merged|
      invariant AudatexFrom(merged, p, CleanState(tableStart, tableEnd, plans), w) == AudatexFrom(merged, 0, Fresh, w)
    {
      if !tableEnd {
        var page := merged[p];
        var cuts := RedactAudatexPage(page, p, tableStart, w);
        if cuts.Crash? {
          return Crash(cuts.reason);
        }
        tableStart := tableStart || Contains(page.text, w.manufact);
        tableEnd := cuts.value.ended;
        plans := plans + [PagePlan(p, cuts.value.rects, page.remainsAfter(cuts.value.rects))];
      }
    }
    return Ok(plans);
  }

  // ---------------------------------------------------------------------------------------
  // merge_pdf_to_single_page
  // ---------------------------------------------------------------------------------------

  /** The merged page: its size and, per input page, the rectangle it is drawn into. */
  datatype Merged = Merged(width: real, height: real, placements: seq<Rect>)

  /** The heights of the first `i` pages added up. */
  function HeightsBefore(pages: seq<Page>, i: nat): real
    requires i <= |pages|
  {
    if i == 0 then 0.0 else HeightsBefore(pages, i - 1) + pages[i - 1].height
  }

  /** Page `i` drawn at the full merged width, from the heights before it downwards. */
  function Placement(pages: seq<Page>, i: nat): Rect
    requires i < |pages|
  {
    Rect(0.0, HeightsBefore(pages, i), pages[0].width, HeightsBefore(pages, i) + pages[i].height)
  }

  /** `merge_pdf_to_single_page`: `pdf_document[0]` raises on an empty document. */
  function MergeLayout(pages: seq<Page>): Outcome<Merged> {
    if pages == [] then Crash("IndexError: page not in document")
    else Ok(Merged(pages[0].width, HeightsBefore(pages, |pages|),
                   seq(|pages|, i requires 0 <= i < |pages| => Placement(pages, i))))
  }

  /** The placements tile the merged page from top to bottom without gaps: the first starts at
      0, each starts where the previous one ends, the last ends at the total height, and all
      span the full width. */
  lemma MergeContiguous(pages: seq<Page>)
    requires MergeLayout(pages).Ok?
    ensures var m := MergeLayout(pages).value; var ps := m.placements;
      |ps| == |pages| && ps[0].y0 == 0.0 && ps[|ps| - 1].y1 == m.height &&
      (forall i :: 0 <= i < |ps| ==> ps[i].x0 == 0.0 && ps[i].x1 == m.width && ps[i].y1 - ps[i].y0 == pages[i].height) &&
      (forall i :: 0 <= i < |ps| - 1 ==> ps[i].y1 == ps[i + 1].y0)
  {
  }

  lemma {:induction false} HeightsBeforeMonotone(pages: seq<Page>, i: nat, k: nat)
    requires i <= k <= |pages|
    requires forall q :: 0 <= q < |pages| ==> pages[q].height >= 0.0
    ensures HeightsBefore(pages, i) <= HeightsBefore(pages, k)
    decreases k - i
  {
    if i < k {
      HeightsBeforeMonotone(pages, i, k - 1);
    }
  }

  /** With non-negative page heights, placements never overlap: page `i` ends at or above
      where any later page starts, and everything lies within the merged height. */
  lemma MergeDisjoint(pages: seq<Page>)
    requires MergeLayout(pages).Ok?
    requires forall q :: 0 <= q < |pages| ==> pages[q].height >= 0.0
    ensures var m := MergeLayout(pages).value; var ps := m.placements;
      (forall i, k :: 0 <= i < k < |ps| ==> ps[i].y1 <= ps[k].y0) &&
      (forall i :: 0 <= i < |ps| ==> 0.0 <= ps[i].y0 <= ps[i].y1 <= m.height)
  {
    var m := MergeLayout(pages).value;
    var ps := m.placements;
    forall i, k | 0 <= i < k < |ps|
      ensures ps[i].y1 <= ps[k].y0
    {
      HeightsBeforeMonotone(pages, i + 1, k);
    }
    forall i | 0 <= i < |ps|
      ensures 0.0 <= ps[i].y0 <= ps[i].y1 <= m.height
    {
      HeightsBeforeMonotone(pages, 0, i);
      HeightsBeforeMonotone(pages, i + 1, |pages|);
    }
  }

  /** `merge_pdf_to_single_page` with its two loops over the pages. */
  method MergePdfToSinglePage(pages: seq<Page>) returns (r: Outcome<Merged>)
    ensures r == MergeLayout(pages)
  {
    if |pages| == 0 {
      return Crash("IndexError: page not in document");
    }
    var pageWidth := pages[0].width;
    var totalHeight := 0.0;
    for i := 0 to |pages|
      invariant totalHeight == HeightsBefore(pages, i)
    {
      totalHeight := totalHeight + pages[i].height;
    }
    var placements: seq<Rect> := [];
    var currentHeight := 0.0;
    for i := 0 to |pages|
      invariant currentHeight == HeightsBefore(pages, i)
      invariant |placements| == i
      invariant forall q :: 0 <= q < i ==> placements[q] == Placement(pages, q)
    {
      placements := placements + [Rect(0.0, currentHeight, pageWidth, currentHeight + pages[i].height)];
      currentHeight := currentHeight + pages[i].height;
    }
    assert placements == seq(|pages|, i requires 0 <= i < |pages| => Placement(pages, i));
    return Ok(Merged(pageWidth, totalHeight, placements));
  }
}
