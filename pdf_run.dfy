/** The dispatch of `run` (parse-pdf-mirroring-3-13/lambda_function.py:1261-1300): classify the
    estimate, then run the metadata extractor, the sanitizer and the row reader of its variant
    and assemble the output record. */
module PdfRun {
  import opened Wrappers
  import opened PdfDocument
  import opened PdfClassifier
  import opened PdfSanitizer
  import PdfRows
  import EstimateInfo
  import MitchellRows
  import AudatexRows

  /** The record `run` serialises: the vehicle metadata, the rows and the tag. */
  datatype Output = Output(
    name: string,
    vehicleName: string,
    vin: string,
    odometer: string,
    insuranceCompany: string,
    lines: seq<PdfRows.Row>,
    pdfType: string)

  /** The PyMuPDF drawing `run` relies on: the document holding the copied pages of a plan,
      and the one-page document a merged layout is drawn into. */
  datatype Renderer = Renderer(
    cleaned: (Document, seq<PagePlan>) -> Document,
    merged: (Document, Merged) -> Document)

  function Record(car: EstimateInfo.CarData, lines: seq<PdfRows.Row>, t: PdfType): Output {
    Output(car.owner, car.name, car.vin, car.odo, car.ins, lines, Tag(t))
  }

  /** The Mitchell branches: `get_estimate_information`, `clean_pdf_mitchell` and the type 1 or
      type 2 reader on the cleaned document. */
  function MitchellOutput(doc: Document, v: MitchellRows.Variant, lang: Language, t: PdfType, render: Renderer): Outcome<Output> {
    var car :- EstimateInfo.MitchellInfo(doc, lang);
    var plans :- CleanMitchell(doc, lang);
    var lines :- MitchellRows.ReadMitchell(render.cleaned(doc, plans), v, lang);
    Ok(Record(car, lines, t))
  }

  /** The Audatex branches: `get_estimate_information_audatex`, then the rows. */
  function AudatexOutput(doc: Document, lang: Language, t: PdfType, render: Renderer): Outcome<Output> {
    var lines :- AudatexLines(doc, lang, render);
    Ok(Record(EstimateInfo.AudatexInfo(doc, lang), lines, t))
  }

  /** `clean_pdf_audatex` (which merges the pages first) and `read_text_audatex` on the first
      cleaned page. */
  function AudatexLines(doc: Document, lang: Language, render: Renderer): Outcome<seq<PdfRows.Row>> {
    var layout :- MergeLayout(doc);
    var merged := render.merged(doc, layout);
    var plans :- CleanAudatex(merged, lang);
    var cleaned := render.cleaned(merged, plans);
    var page :- if cleaned == [] then Crash("IndexError: page not in document") else Ok(cleaned[0]);
    AudatexRows.ReadAudatex(page, lang)
  }

  /** `run` after the page clean-up: `None` for an estimate of unknown type. */
  function Run(doc: Document, lower: char -> char, render: Renderer): Outcome<Option<Output>> {
    var t :- Classify(doc, lower);
    match t
    case UnknownType => Ok(None)
    case MitchellType1(lang) =>
      var o :- MitchellOutput(doc, MitchellRows.Type1, lang, t, render); Ok(Some(o))
    case MitchellType2(lang) =>
      var o :- MitchellOutput(doc, MitchellRows.Type2, lang, t, render); Ok(Some(o))
    case AudatexType(lang) =>
      var o :- AudatexOutput(doc, lang, t, render); Ok(Some(o))
  }

  /** The variant family and row reader a tag selects. */
  predicate Dispatched(doc: Document, t: PdfType, render: Renderer, o: Output) {
    match t
    case UnknownType => false
    case MitchellType1(lang) => MitchellOutput(doc, MitchellRows.Type1, lang, t, render) == Ok(o)
    case MitchellType2(lang) => MitchellOutput(doc, MitchellRows.Type2, lang, t, render) == Ok(o)
    case AudatexType(lang) => AudatexOutput(doc, lang, t, render) == Ok(o)
  }

  /** No output exactly when the classifier answers "unknow_type"; otherwise the record's type is
      the classifier's tag and its contents come from the branch of that variant. */
  lemma RunDispatch(doc: Document, lower: char -> char, render: Renderer)
    requires Run(doc, lower, render).Ok?
    ensures Classify(doc, lower).Ok?
    ensures Run(doc, lower, render).value.None? <==> Classify(doc, lower).value == UnknownType
    ensures Run(doc, lower, render).value.Some? ==>
      Run(doc, lower, render).value.value.pdfType == Tag(Classify(doc, lower).value) &&
      Dispatched(doc, Classify(doc, lower).value, render, Run(doc, lower, render).value.value)
  {
    var c := Classify(doc, lower);
    assert c.Ok?;
    var r := Run(doc, lower, render).value;
    match c.value
    case UnknownType =>
      assert r.None?;
    case MitchellType1(lang) =>
      var m := MitchellOutput(doc, MitchellRows.Type1, lang, c.value, render);
      assert r == Some(m.value);
      MitchellTag(doc, MitchellRows.Type1, lang, c.value, render);
    case MitchellType2(lang) =>
      var m := MitchellOutput(doc, MitchellRows.Type2, lang, c.value, render);
      assert r == Some(m.value);
      MitchellTag(doc, MitchellRows.Type2, lang, c.value, render);
    case AudatexType(lang) =>
      var a := AudatexOutput(doc, lang, c.value, render);
      assert r == Some(a.value);
      AudatexTag(doc, lang, c.value, render);
  }

  /** A Mitchell branch that succeeds records its tag and the Mitchell metadata. */
  lemma MitchellTag(doc: Document, v: MitchellRows.Variant, lang: Language, t: PdfType, render: Renderer)
    requires MitchellOutput(doc, v, lang, t, render).Ok?
    ensures EstimateInfo.MitchellInfo(doc, lang).Ok?
    ensures var o, car := MitchellOutput(doc, v, lang, t, render).value, EstimateInfo.MitchellInfo(doc, lang).value;
      o.pdfType == Tag(t) && o.name == car.owner && o.vehicleName == car.name && o.vin == car.vin &&
      o.odometer == car.odo && o.insuranceCompany == car.ins
  {
  }

  /** An Audatex branch that succeeds records its tag and the Audatex metadata. */
  lemma AudatexTag(doc: Document, lang: Language, t: PdfType, render: Renderer)
    requires AudatexOutput(doc, lang, t, render).Ok?
    ensures var o, car := AudatexOutput(doc, lang, t, render).value, EstimateInfo.AudatexInfo(doc, lang);
      o.pdfType == Tag(t) && o.name == car.owner && o.vehicleName == car.name && o.vin == car.vin &&
      o.odometer == car.odo && o.insuranceCompany == car.ins
  {
  }

  /** The record's metadata is the extractor's result of the tag's family, field for field;
      an Audatex record never fails on its metadata. */
  lemma RunMetadata(doc: Document, lower: char -> char, render: Renderer)
    requires Run(doc, lower, render).Ok? && Run(doc, lower, render).value.Some?
    ensures var o := Run(doc, lower, render).value.value; var t := Classify(doc, lower).value;
      var car := if t.AudatexType? then EstimateInfo.AudatexInfo(doc, t.lang) else EstimateInfo.MitchellInfo(doc, t.lang).value;
      (t.MitchellType1? || t.MitchellType2? ==> EstimateInfo.MitchellInfo(doc, t.lang).Ok?) &&
      o.name == car.owner && o.vehicleName == car.name && o.vin == car.vin &&
      o.odometer == car.odo && o.insuranceCompany == car.ins
  {
    RunDispatch(doc, lower, render);
    var t := Classify(doc, lower).value;
    match t
    case UnknownType =>
    case MitchellType1(lang) =>
      MitchellTag(doc, MitchellRows.Type1, lang, t, render);
    case MitchellType2(lang) =>
      MitchellTag(doc, MitchellRows.Type2, lang, t, render);
    case AudatexType(lang) =>
      AudatexTag(doc, lang, t, render);
  }

  /** The type field names one variant only, so the dispatch can be read back from it. */
  lemma RunTypeDetermines(doc: Document, lower: char -> char, render: Renderer, t: PdfType)
    requires Run(doc, lower, render).Ok? && Run(doc, lower, render).value.Some?
    requires Run(doc, lower, render).value.value.pdfType == Tag(t)
    ensures Classify(doc, lower) == Ok(t)
  {
    RunDispatch(doc, lower, render);
    TagInjective(t, Classify(doc, lower).value);
  }
}
