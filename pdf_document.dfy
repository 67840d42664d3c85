/** The view of a PDF page the estimate parser relies on (parse-pdf-mirroring-3-13/lambda_function.py).
    The PyMuPDF calls it makes are fields of a page value:
    `searchAfter(rects, word)` is `page.search_for(word)` (every hit, in order) once the given
    rectangles have been redacted, in order, and `search(word)` is the same on the page as loaded;
    `clip` is
    `page.get_text("text", clip=rect)` and `remainsAfter` says whether `page.get_text("text")`
    is non-empty once the given rectangles have been redacted, in order. */
module PdfDocument {
  import opened Wrappers
  import opened PyText

  /** The two languages an estimate can be written in; they select the heading words. */
  datatype Language = En | Fr

  /** A `fitz.Rect`: `x0, y0` the top-left and `x1, y1` the bottom-right corner. */
  datatype Rect = Rect(x0: real, y0: real, x1: real, y1: real)

  /** A text span of `page.get_text("dict")`: its text and its `bbox`. */
  datatype Span = Span(text: string, bbox: Rect)

  datatype Line = Line(spans: seq<Span>)

  /** A block of the text dictionary: only text blocks have a "lines" entry. */
  datatype Block = TextBlock(lines: seq<Line>) | ImageBlock

  datatype Page = Page(
    width: real,
    height: real,
    text: string,
    blocks: seq<Block>,
    searchAfter: (seq<Rect>, string) -> seq<Rect>,
    clip: Rect -> string,
    remainsAfter: seq<Rect> -> bool)
  {
    /** `page.search_for(word)` on the page as loaded. */
    function search(word: string): seq<Rect> {
      searchAfter([], word)
    }

    /** `page.rect`. */
    function PageRect(): Rect {
      Rect(0.0, 0.0, width, height)
    }
  }

  type Document = seq<Page>

  function LineSpans(lines: seq<Line>): seq<Span> {
    if lines == [] then [] else lines[0].spans + LineSpans(lines[1..])
  }

  function BlockSpans(blocks: seq<Block>): seq<Span> {
    if blocks == [] then []
    else (if blocks[0].TextBlock? then LineSpans(blocks[0].lines) else []) + BlockSpans(blocks[1..])
  }

  /** The spans of a page in the order of the nested block, line and span loops. */
  function Spans(page: Page): seq<Span> {
    BlockSpans(page.blocks)
  }

  /** `page.search_for(word)[k]`, which raises an IndexError when there are not `k + 1` hits. */
  function SearchHit(page: Page, word: string, k: nat): (r: Outcome<Rect>)
    ensures r.Ok? <==> k < |page.search(word)|
    ensures r.Ok? ==> r.value == page.search(word)[k]
  {
    var hits := page.search(word);
    if k < |hits| then Ok(hits[k]) else Crash("IndexError: list index out of range")
  }

  /** `read_text_by_pos`: the raw text inside a rectangle. */
  function ReadTextByPos(page: Page, x0: real, y0: real, x1: real, y1: real): string {
    page.clip(Rect(x0, y0, x1, y1))
  }

  /** `read_text_by_pos_mc`: the text inside a rectangle on one line, newlines turned into
      blanks and surrounding whitespace stripped. */
  function ReadTextByPosMc(page: Page, x0: real, y0: real, x1: real, y1: real): (r: string)
    ensures '\n' !in r
    ensures r == [] || (!IsSpace(r[0]) && !IsSpace(r[|r| - 1]))
    ensures |r| <= |ReadTextByPos(page, x0, y0, x1, y1)|
  {
    var flat := ReplaceChar(ReadTextByPos(page, x0, y0, x1, y1), '\n', ' ');
    StripSpec(flat);
    StripChars(flat);
    Strip(flat)
  }
}
