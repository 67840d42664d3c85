/** The estimate classifier `check_pdf_type_format`
    (parse-pdf-mirroring-3-13/lambda_function.py:1176-1233): one pass over every page that
    tracks the language, whether a table heading has been seen, and the variant tag. */
module PdfClassifier {
  import opened Wrappers
  import opened PyText
  import opened PdfDocument
  import opened PdfText

  /** The seven values `pdf_type` can take. */
  datatype PdfType = UnknownType | MitchellType1(lang: Language) | MitchellType2(lang: Language) | AudatexType(lang: Language)

  /** The string `run` dispatches on and writes into the output record; the Audatex tags are
      `"audatex_" + language`. */
  function Tag(t: PdfType): (r: string)
    ensures r in {"unknow_type", "mitchell_type1_en", "mitchell_type2_en", "mitchell_type1_fr",
                  "mitchell_type2_fr", "audatex_en", "audatex_fr"}
  {
    match t
    case UnknownType => "unknow_type"
    case MitchellType1(l) => if l == En then "mitchell_type1_en" else "mitchell_type1_fr"
    case MitchellType2(l) => if l == En then "mitchell_type2_en" else "mitchell_type2_fr"
    case AudatexType(l) => if l == En then "audatex_en" else "audatex_fr"
  }

  /** Distinct variants have distinct tags, so dispatching on the tag recovers the variant. */
  lemma TagInjective(a: PdfType, b: PdfType)
    requires Tag(a) == Tag(b)
    ensures a == b
  {
  }

  const OwnerLabelFr := "Propriétaire:"
  const LineEn := "Line #"
  const LineFr := "Ligne #"
  const LabourFr := "MAIN-D'ŒUVRE"

  const Type1En := "line#descriptionoperationtypetotalunitstypenumberqtytotalpricetax"
  const Type2En := "line#descriptionoperationtypetotalunitscegtypenumberqtytotalpricetax"
  const Type1Fr := "ligne#descriptionopérationtypeunitéstotalestypenuméroqtéprixtotaltaxe"
  const Type2FrA := "ligne#descriptionopérationtypeunitéstotalescegtypenuméroqtéprixtotaltaxe"
  const Type2FrB := "ligne#descriptionopérationtypeunitéscegtypenuméroqtéprixtotaltaxe"

  predicate OwnerPage(page: Page) {
    Contains(page.text, OwnerLabelFr)
  }

  /** The French heading branch fires on any page with both words; it has no first-time guard. */
  predicate FrTrigger(page: Page) {
    Contains(page.text, LabourFr) && Contains(page.text, LineFr)
  }

  predicate AudatexMarker(page: Page) {
    Contains(page.text, "Audatex North America") || Contains(page.text, "AUDATEX") || Contains(page.text, "Audatex")
  }

  /** A page that sets `first_time_see_line`. */
  predicate HeadingPage(page: Page) {
    Contains(page.text, LineEn) || FrTrigger(page)
  }

  /** The heading line to the right of the first hit of `word`, lower-cased and squeezed;
      an IndexError when the word has no hit. */
  function Heading(page: Page, word: string, lower: char -> char): Outcome<string> {
    var pos :- SearchHit(page, word, 0);
    Ok(LowercaseAndRemoveSpaces(ReadTextByPosMc(page, pos.x0, pos.y0, page.width, pos.y1), lower))
  }

  predicate EnSignature(page: Page, lower: char -> char) {
    Contains(page.text, LineEn) &&
    var h := Heading(page, LineEn, lower);
    h.Ok? && (h.value == Type1En || h.value == Type2En)
  }

  predicate FrSignature(page: Page, lower: char -> char) {
    FrTrigger(page) &&
    var h := Heading(page, LineFr, lower);
    h.Ok? && (h.value == Type1Fr || h.value == Type2FrA || h.value == Type2FrB)
  }

  /** A page that can give the document a tag other than "unknow_type". */
  predicate SignaturePage(page: Page, lower: char -> char) {
    AudatexMarker(page) || EnSignature(page, lower) || FrSignature(page, lower)
  }

  datatype ClassifyState = ClassifyState(pdfType: PdfType, seenLine: bool, lang: Language)

  const Start := ClassifyState(UnknownType, false, En)

  function EnHeadingType(t: PdfType, page: Page, lower: char -> char): Outcome<PdfType> {
    var h :- Heading(page, LineEn, lower);
    Ok(if h == Type1En then MitchellType1(En) else if h == Type2En then MitchellType2(En) else t)
  }

  function FrHeadingType(t: PdfType, page: Page, lower: char -> char): Outcome<PdfType> {
    var h :- Heading(page, LineFr, lower);
    Ok(if h == Type1Fr then MitchellType1(Fr)
       else if h == Type2FrA || h == Type2FrB then MitchellType2(Fr)
       else t)
  }

  /** One iteration of the page loop. */
  function Step(st: ClassifyState, page: Page, lower: char -> char): Outcome<ClassifyState> {
    var lang := if OwnerPage(page) && st.lang == En then Fr else st.lang;
    var t1 :- if Contains(page.text, LineEn) && !st.seenLine then EnHeadingType(st.pdfType, page, lower) else Ok(st.pdfType);
    var t2 :- if FrTrigger(page) then FrHeadingType(t1, page, lower) else Ok(t1);
    var t3 := if AudatexMarker(page) then AudatexType(lang) else t2;
    Ok(ClassifyState(t3, st.seenLine || HeadingPage(page), lang))
  }

  function ClassifyFrom(pages: seq<Page>, j: nat, st: ClassifyState, lower: char -> char): Outcome<ClassifyState>
    requires j <= |pages|
    decreases |pages| - j
  {
    if j == |pages| then Ok(st)
    else
      var next :- Step(st, pages[j], lower);
      ClassifyFrom(pages, j + 1, next, lower)
  }

  /** `check_pdf_type_format(pdf_document)`. */
  function Classify(pages: seq<Page>, lower: char -> char): Outcome<PdfType> {
    var st :- ClassifyFrom(pages, 0, Start, lower);
    Ok(st.pdfType)
  }

  /** What the state after the first `j` pages says about those pages. */
  ghost predicate ClassifyInv(pages: seq<Page>, j: nat, st: ClassifyState, lower: char -> char)
    requires j <= |pages|
  {
    (st.lang == Fr <==> exists p :: 0 <= p < j && OwnerPage(pages[p])) &&
    (st.seenLine <==> exists p :: 0 <= p < j && HeadingPage(pages[p])) &&
    (st.pdfType != UnknownType ==> exists p :: 0 <= p < j && SignaturePage(pages[p], lower))
  }

  /** A page leaves the tag alone or is itself a signature page. */
  lemma StepTag(st: ClassifyState, page: Page, lower: char -> char)
    requires Step(st, page, lower).Ok?
    ensures Step(st, page, lower).value.pdfType == st.pdfType || SignaturePage(page, lower)
  {
  }

  lemma StepInv(pages: seq<Page>, j: nat, st: ClassifyState, lower: char -> char)
    requires j < |pages| && ClassifyInv(pages, j, st, lower)
    requires Step(st, pages[j], lower).Ok?
    ensures ClassifyInv(pages, j + 1, Step(st, pages[j], lower).value, lower)
  {
    var next := Step(st, pages[j], lower).value;
    StepTag(st, pages[j], lower);
    if OwnerPage(pages[j]) {
      assert next.lang == Fr;
    }
    if HeadingPage(pages[j]) {
      assert next.seenLine;
    }
    if next.pdfType != UnknownType && next.pdfType == st.pdfType {
      var p :| 0 <= p < j && SignaturePage(pages[p], lower);
      assert 0 <= p < j + 1;
    }
    if next.lang == Fr && st.lang == Fr {
      var p :| 0 <= p < j && OwnerPage(pages[p]);
      assert 0 <= p < j + 1;
    }
    if next.seenLine && st.seenLine {
      var p :| 0 <= p < j && HeadingPage(pages[p]);
      assert 0 <= p < j + 1;
    }
  }

  lemma {:induction false} ClassifyFromInv(pages: seq<Page>, j: nat, st: ClassifyState, lower: char -> char)
    requires j <= |pages| && ClassifyInv(pages, j, st, lower)
    requires ClassifyFrom(pages, j, st, lower).Ok?
    ensures ClassifyInv(pages, |pages|, ClassifyFrom(pages, j, st, lower).value, lower)
    decreases |pages| - j
  {
    if j < |pages| {
      StepInv(pages, j, st, lower);
      ClassifyFromInv(pages, j + 1, Step(st, pages[j], lower).value, lower);
    }
  }

  /** The tag is "unknow_type" unless some page matches a heading signature or carries an
      Audatex marker. */
  lemma ClassifyUnknownUnlessSignature(pages: seq<Page>, lower: char -> char)
    requires Classify(pages, lower).Ok?
    ensures Classify(pages, lower).value != UnknownType ==> exists p :: 0 <= p < |pages| && SignaturePage(pages[p], lower)
  {
    ClassifyFromInv(pages, 0, Start, lower);
  }

  /** A page with an Audatex marker overwrites the tag set by the heading branches of the same
      iteration with the Audatex tag of the current language. */
  lemma AudatexOverrides(st: ClassifyState, page: Page, lower: char -> char)
    requires Step(st, page, lower).Ok? && AudatexMarker(page)
    ensures Step(st, page, lower).value.pdfType == AudatexType(Step(st, page, lower).value.lang)
  {
  }

  /** Once a heading page has been seen, the English heading is not read again: a page with
      neither the French heading words nor an Audatex marker leaves the tag as it is. */
  lemma EnglishHeadingOnce(st: ClassifyState, page: Page, lower: char -> char)
    requires st.seenLine && !FrTrigger(page) && !AudatexMarker(page)
    ensures Step(st, page, lower).Ok?
    ensures Step(st, page, lower).value.pdfType == st.pdfType
  {
  }

  /** When the last page carries an Audatex marker the tag is Audatex, in French exactly when
      some page holds the French owner label. */
  lemma ClassifyLastAudatex(pages: seq<Page>, lower: char -> char)
    requires |pages| > 0 && AudatexMarker(pages[|pages| - 1])
    requires Classify(pages, lower).Ok?
    ensures Classify(pages, lower).value ==
      AudatexType(if exists p :: 0 <= p < |pages| && OwnerPage(pages[p]) then Fr else En)
  {
    var n := |pages| - 1;
    var st := ClassifyPrefix(pages, n, lower);
    StepInv(pages, n, st, lower);
    ClassifyFromInv(pages, n + 1, Step(st, pages[n], lower).value, lower);
  }

  /** The state before page `n` of a run that does not crash, with its invariant. */
  lemma ClassifyPrefix(pages: seq<Page>, n: nat, lower: char -> char) returns (st: ClassifyState)
    requires n < |pages| && Classify(pages, lower).Ok?
    ensures ClassifyInv(pages, n, st, lower)
    ensures Step(st, pages[n], lower).Ok?
    ensures ClassifyFrom(pages, 0, Start, lower) == ClassifyFrom(pages, n + 1, Step(st, pages[n], lower).value, lower)
  {
    st := Start;
    var j := 0;
    while j < n
      invariant j <= n
      invariant ClassifyInv(pages, j, st, lower)
      invariant ClassifyFrom(pages, 0, Start, lower) == ClassifyFrom(pages, j, st, lower)
    {
      StepInv(pages, j, st, lower);
      st := Step(st, pages[j], lower).value;
      j := j + 1;
    }
  }

  /** `check_pdf_type_format` as the page loop it is. */
  method CheckPdfTypeFormat(pages: seq<Page>, lower: char -> char) returns (r: Outcome<PdfType>)
    ensures r == Classify(pages, lower)
  {
    var st := Start;
    var j := 0;
    while j < |pages|
      invariant j <= |pages|
      invariant ClassifyFrom(pages, 0, Start, lower) == ClassifyFrom(pages, j, st, lower)
    {
      var next := ClassifyPage(st, pages[j], lower);
      if next.Crash? {
        return Crash(next.reason);
      }
      st := next.value;
      j := j + 1;
    }
    return Ok(st.pdfType);
  }

  /** One iteration of the page loop: the language, the English heading on its first sight,
      the French heading on every sight, then the Audatex marker. */
  method ClassifyPage(st: ClassifyState, page: Page, lower: char -> char) returns (r: Outcome<ClassifyState>)
    ensures r == Step(st, page, lower)
  {
    var pdfType, seenLine, lang := st.pdfType, st.seenLine, st.lang;
    if OwnerPage(page) && lang == En {
      lang := Fr;
    }
    if Contains(page.text, LineEn) && !seenLine {
      var t := ReadEnHeading(pdfType, page, lower);
      if t.Crash? {
        return Crash(t.reason);
      }
      seenLine := true;
      pdfType := t.value;
    }
    if FrTrigger(page) {
      var t := ReadFrHeading(pdfType, page, lower);
      if t.Crash? {
        return Crash(t.reason);
      }
      seenLine := true;
      pdfType := t.value;
    }
    if AudatexMarker(page) {
      pdfType := AudatexType(lang);
    }
    return Ok(ClassifyState(pdfType, st.seenLine || HeadingPage(page), lang));
  }

  /** The English heading branch: the heading right of the first "Line #" hit. */
  method ReadEnHeading(t: PdfType, page: Page, lower: char -> char) returns (r: Outcome<PdfType>)
    ensures r == EnHeadingType(t, page, lower)
  {
    var hits := page.search(LineEn);
    if |hits| == 0 {
      return Crash("IndexError: list index out of range");
    }
    var heading := LowercaseAndRemoveSpaces(ReadTextByPosMc(page, hits[0].x0, hits[0].y0, page.width, hits[0].y1), lower);
    if heading == Type1En {
      r := Ok(MitchellType1(En));
    } else if heading == Type2En {
      r := Ok(MitchellType2(En));
    } else {
      r := Ok(t);
    }
  }

  /** The French heading branch: the heading right of the first "Ligne #" hit. */
  method ReadFrHeading(t: PdfType, page: Page, lower: char -> char) returns (r: Outcome<PdfType>)
    ensures r == FrHeadingType(t, page, lower)
  {
    var hits := page.search(LineFr);
    if |hits| == 0 {
      return Crash("IndexError: list index out of range");
    }
    var heading := LowercaseAndRemoveSpaces(ReadTextByPosMc(page, hits[0].x0, hits[0].y0, page.width, hits[0].y1), lower);
    if heading == Type1Fr {
      r := Ok(MitchellType1(Fr));
    } else if heading == Type2FrA || heading == Type2FrB {
      r := Ok(MitchellType2(Fr));
    } else {
      r := Ok(t);
    }
  }
}
