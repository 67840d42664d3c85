# Collision-estimate parsing and claim-image helpers, modelled in Dafny

This project models the core of a set of serverless functions that process vehicle damage claims.

**The estimate parser.** Its centre is the collision-estimate PDF parser:
- It decides which of seven estimate layouts a PDF uses: Mitchell type 1 or type 2, each in English or French, Audatex in English or French, or unknown.
- It reads the vehicle metadata from the first two pages.
- It whites out everything around the parts table, merging the pages of an Audatex estimate into one tall page first.
- It cuts the remaining text spans into line-item records:
  - Each span is classified as a part heading, a line start or a wrapped description line.
  - Each line gets a vertical extent from the entry that follows it.
  - One field is read per column band, empty fields become "N/A", and rows without any text are dropped.

The PDF library itself is not modelled. A page is a datatype holding:
- its text;
- its text dictionary of blocks, lines and spans;
- the facilities the parser calls as uninterpreted functions: word search after a list of redactions, clipped text, and whether text remains after redactions.

**The smaller helpers:**
- the aggregation of image classifications and validations into points of impact (POIs) and primary damage POIs;
- the pruning of a parts catalogue (PSS) and the text summary of its categories;
- the merging of per-batch POI mappings and the cutting of an image list into batches;
- the batch ranges and the filename reconciliation of the model-call driver;
- the geometry of the image stitcher: resize dimensions, the JPEG quality ladder, the grid layout and the dashed borders.

**How the model is built:**
- **Pure functions** in the source become Dafny functions.
- **Loops that update variables** become methods with loops. Each is proved equal to a specification function, and the properties are proved about those functions as lemmas.
- **The image stitcher's canvas** is a class whose methods record the tiles pasted and the rectangles filled.
- **Crashes** are an `Outcome.Crash` value: an `IndexError` on a missing search hit, an `UnboundLocalError`, a division by zero. They are not preconditions.

## Model

| member | source | states |
|---|---|---|
| PdfDocument.SearchHit | parse-pdf-mirroring-3-13/lambda_function.py:320 | `search_for(word)[k]` is the k-th hit when there are more than k hits and an IndexError otherwise |
| PdfDocument.ReadTextByPosMc | parse-pdf-mirroring-3-13/lambda_function.py:387-392 | the clipped text comes back with no newline and no surrounding whitespace |
| PdfText.RemoveDuplicatesSpec | parse-pdf-mirroring-3-13/lambda_function.py:1160-1167 | `remove_duplicates` returns a prefix of its input. When it shortens s to r, s starts with r+r and no shorter prefix is doubled. Otherwise s has no doubled prefix and is returned unchanged |
| PdfText.RemoveDuplicatesFrom | parse-pdf-mirroring-3-13/lambda_function.py:1162-1167 | the scan from candidate length i returns a prefix of s, which is a doubled prefix's first half whenever it is shorter than s |
| PdfText.RemoveDuplicatesNoSquare | parse-pdf-mirroring-3-13/lambda_function.py:1160-1167 | the result of `remove_duplicates` has no doubled prefix |
| PdfText.RemoveDuplicatesIdempotent | parse-pdf-mirroring-3-13/lambda_function.py:1160-1167 | applying `remove_duplicates` twice gives what applying it once gives |
| PdfText.Lowercase | parse-pdf-mirroring-3-13/lambda_function.py:1171 | lower-casing keeps the length and maps each character through the case map |
| PdfText.LowercaseAndRemoveSpaces | parse-pdf-mirroring-3-13/lambda_function.py:1170-1173 | the result holds no blank and is a prefix of the lower-cased text without blanks and without "laborpart" |
| PdfText.Repeat | parse-pdf-mirroring-3-13/lambda_function.py:240 | `g * n` has length n·\|g\| |
| PdfText.RepeatIsCopies | parse-pdf-mirroring-3-13/lambda_function.py:240 | n ≥ 1 copies of a non-empty block are back-to-back copies of it |
| PdfText.CopiesAreRepeat | parse-pdf-mirroring-3-13/lambda_function.py:240 | back-to-back copies of a block are `g * n` for some n ≥ 1 |
| PdfText.TwoOrMoreCopies | parse-pdf-mirroring-3-13/lambda_function.py:240 | a string with period k that is at least 2k long is two or more copies of its first k characters |
| PdfText.ShortestBlockFrom | parse-pdf-mirroring-3-13/lambda_function.py:240-241 | the block length found is at least k and at most half the text, the text is copies of that block, and no shorter block from k on works |
| PdfText.RepetitionBlock | parse-pdf-mirroring-3-13/lambda_function.py:240 | a block of which u is two or more copies is a prefix of u at most half as long |
| PdfText.ShortestBlockIffRepetition | parse-pdf-mirroring-3-13/lambda_function.py:240-242 | the lazy group finds a block exactly when the text is two or more copies of one non-empty block |
| PdfText.IsDuplicatedTextSpec | parse-pdf-mirroring-3-13/lambda_function.py:237-244 | `is_duplicated_text` is false for "". Otherwise it holds exactly when the newline-free text is empty or is two or more copies of one non-empty block |
| PdfText.LeftmostRepetitionFrom | parse-pdf-mirroring-3-13/lambda_function.py:250-252 | a match found by the search starts at or after p, before the end, and its tail is two or more copies of the block found; no earlier position from p starts a match, and None means no position from p matches |
| PdfText.RemoveDuplicatedTextNoNewline | parse-pdf-mirroring-3-13/lambda_function.py:247-255 | a non-empty text loses every newline |
| PdfText.RemoveDuplicatedTextCollapses | parse-pdf-mirroring-3-13/lambda_function.py:247-255 | a text that is two or more copies of a block becomes its shortest block ("ABCABC" becomes "ABC") |
| PdfText.EmptyTextUnchanged | parse-pdf-mirroring-3-13/lambda_function.py:238-255 | the empty text is returned unchanged and is not a duplicate |
| PdfText.CopiesArePeriodic | parse-pdf-mirroring-3-13/lambda_function.py:240 | copies of g repeat with period \|g\| |
| PdfText.NotCopiesOfBlock | parse-pdf-mirroring-3-13/lambda_function.py:240 | a character that breaks the period of a block rules that block out |
| PdfText.RemoveDuplicatedTextSearches | parse-pdf-mirroring-3-13/lambda_function.py:250-252 | `re.sub` searches: "200.00" becomes "200.0" |
| PdfText.RemoveDuplicatedTextNotIdempotent | parse-pdf-mirroring-3-13/lambda_function.py:247-255 | "abbabb" becomes "abb", which becomes "ab", so the function is not idempotent |
| PdfRows.FirstMarkIndex | parse-pdf-mirroring-3-13/lambda_function.py:395-408 | the index found is the first mark carrying the part from the start on, or the length when no mark does |
| PdfRows.NextPartY0Spec | parse-pdf-mirroring-3-13/lambda_function.py:395-408 | `get_next_part_pos` gives the y0 of the mark after the first mark of the part, or 0 when the part has no mark or its first mark is the last |
| PdfRows.GetNextPartPos | parse-pdf-mirroring-3-13/lambda_function.py:395-408 | the search loop returns what the specification function gives |
| PdfRows.RowBottom | parse-pdf-mirroring-3-13/lambda_function.py:477-484 | the bottom is the next entry's y0, lowered to the part position when that is non-zero and smaller; the last entry uses the fallback (the page height) |
| PdfRows.OrNA | parse-pdf-mirroring-3-13/lambda_function.py:532-541 | an empty field becomes "N/A", a non-empty one is kept; the result is never empty |
| PdfRows.AssembleRow | parse-pdf-mirroring-3-13/lambda_function.py:515-543 | a record exists exactly when some field has text; it carries the header and one non-empty field per raw field, "N/A" for the empty ones |
| PdfRows.OptionList | parse-pdf-mirroring-3-13/lambda_function.py:529 | an emitted record is appended once, a dropped one adds nothing |
| PdfRows.Boxes | parse-pdf-mirroring-3-13/lambda_function.py:464-473 | the boxes of the entries, one per entry, in order |
| PdfRows.BoxesConcat | parse-pdf-mirroring-3-13/lambda_function.py:464-473 | appending entries appends their boxes |
| PdfRows.HeadingBeforeExtend | parse-pdf-mirroring-3-13/lambda_function.py:462-463 | appending an entry does not change the heading in force before any existing entry |
| PdfRows.HeadingSticky | parse-pdf-mirroring-3-13/lambda_function.py:438-463 | a page without part headings keeps the heading carried over from the previous pages |
| PdfRows.StartY0s | parse-pdf-mirroring-3-13/lambda_function.py:480 | the start heights are the entries' y0s, one per entry |
| PdfClassifier.Tag | parse-pdf-mirroring-3-13/lambda_function.py:1178-1231 | the tag is one of the seven strings "unknow_type", "mitchell_type1_en", "mitchell_type1_fr", "mitchell_type2_en", "mitchell_type2_fr", "audatex_en", "audatex_fr" |
| PdfClassifier.TagInjective | parse-pdf-mirroring-3-13/lambda_function.py:1263-1289 | distinct variants have distinct tags, so the dispatch on the tag recovers the variant |
| PdfClassifier.StepTag | parse-pdf-mirroring-3-13/lambda_function.py:1183-1231 | a page either leaves the tag alone or is itself a signature page |
| PdfClassifier.ClassifyPage | parse-pdf-mirroring-3-13/lambda_function.py:1183-1231 | one loop iteration gives the specified step |
| PdfClassifier.ReadEnHeading | parse-pdf-mirroring-3-13/lambda_function.py:1191-1208 | the English heading branch gives the specified tag or crash |
| PdfClassifier.ReadFrHeading | parse-pdf-mirroring-3-13/lambda_function.py:1210-1228 | the French heading branch gives the specified tag or crash |
| PdfClassifier.ClassifyUnknownUnlessSignature | parse-pdf-mirroring-3-13/lambda_function.py:1176-1233 | the result is "unknow_type" unless some page matches a heading signature or carries an Audatex marker |
| PdfClassifier.AudatexOverrides | parse-pdf-mirroring-3-13/lambda_function.py:1230-1231 | an Audatex marker overwrites any Mitchell tag set in the same iteration with "audatex_" + the current language |
| PdfClassifier.EnglishHeadingOnce | parse-pdf-mirroring-3-13/lambda_function.py:1191-1194 | the English heading is read only on the first page with "Line #": later pages without French heading words or an Audatex marker leave the tag alone |
| PdfClassifier.ClassifyLastAudatex | parse-pdf-mirroring-3-13/lambda_function.py:1187-1231 | a last page with an Audatex marker gives an Audatex tag, French exactly when some page holds "Propriétaire:" |
| PdfClassifier.ClassifyPrefix | parse-pdf-mirroring-3-13/lambda_function.py:1183-1231 | a run that does not crash passes through a state before every page that satisfies the loop invariant |
| PdfClassifier.CheckPdfTypeFormat | parse-pdf-mirroring-3-13/lambda_function.py:1176-1233 | the page loop returns the classifier's result |
| EstimateInfo.FirstPages | parse-pdf-mirroring-3-13/lambda_function.py:34-35 | only pages 0 and 1 are read (also lines 105-106) |
| EstimateInfo.SpanTexts | parse-pdf-mirroring-3-13/lambda_function.py:66-70 | one text per span, in order |
| EstimateInfo.AudatexLabels | parse-pdf-mirroring-3-13/lambda_function.py:91-101 | five labels for each language |
| EstimateInfo.FirstValueWins | parse-pdf-mirroring-3-13/lambda_function.py:116-127 | a first-wins field holds the first span after its label that is not "N/A", or "N/A" |
| EstimateInfo.AudatexInfoSpec | parse-pdf-mirroring-3-13/lambda_function.py:90-137 | on the spans of pages 0 and 1, each field is the first span after its label that is not "N/A" itself, stripped; the vehicle label is compared after strip; missing fields are "N/A" |
| EstimateInfo.GetEstimateInformationAudatex | parse-pdf-mirroring-3-13/lambda_function.py:90-137 | the span loop returns the specified record |
| EstimateInfo.MitchellLabels | parse-pdf-mirroring-3-13/lambda_function.py:18-29 | five labels for each language, the insurer label non-empty |
| EstimateInfo.MitchellVisitsTexts | parse-pdf-mirroring-3-13/lambda_function.py:51-77 | the line-by-line walk reads exactly the span texts of pages 0 and 1, in order |
| EstimateInfo.LineHeads | parse-pdf-mirroring-3-13/lambda_function.py:56-60 | the first-span text of every line, or an IndexError exactly when some line has no span |
| EstimateInfo.GlueFromEmpty | parse-pdf-mirroring-3-13/lambda_function.py:56-63 | joining from "" equals `" ".join` of the texts from the first non-empty one on |
| EstimateInfo.InsurerSpec | parse-pdf-mirroring-3-13/lambda_function.py:54-64 | the insurer joined from a block is `" ".join` of the line heads other than the label, leading empty heads dropped, or an IndexError |
| EstimateInfo.MitchellInfoSpec | parse-pdf-mirroring-3-13/lambda_function.py:17-87 | the owner, VIN and odometer are the last span after their label, the vehicle name is the span before the last "Parts Profile", and the insurer stays "N/A" unless its label occurs. The insurer is the first value other than "N/A" that its label offers, in reading order: at the start of a line right after the label, the `" ".join` of the block's line heads without the label; a span right after the label, that span's text |
| EstimateInfo.MitchellFromIns | parse-pdf-mirroring-3-13/lambda_function.py:51-77 | the line loop leaves the insurer at the first of the remaining offers other than "N/A", or as it was when already set |
| EstimateInfo.VisitIns | parse-pdf-mirroring-3-13/lambda_function.py:54-70 | one line offers the block's join first and then its spans; an open insurer takes the first offer other than "N/A" |
| EstimateInfo.InsurerText | parse-pdf-mirroring-3-13/lambda_function.py:54-64 | the join loop returns the specified insurer |
| EstimateInfo.MitchellLineSpans | parse-pdf-mirroring-3-13/lambda_function.py:66-77 | the span loop of a line gives the specified state |
| EstimateInfo.MitchellVisit | parse-pdf-mirroring-3-13/lambda_function.py:51-77 | one line gives the specified state, the insurer join first |
| EstimateInfo.GetEstimateInformation | parse-pdf-mirroring-3-13/lambda_function.py:17-87 | the line loop returns the specified record or crash |
| PdfSanitizer.FirstHit | parse-pdf-mirroring-3-13/lambda_function.py:181 | the first hit, or an IndexError when there is none (also lines 320) |
| PdfSanitizer.MitchellCutsSpec | parse-pdf-mirroring-3-13/lambda_function.py:318-364 | on a table page the heading cut comes first; a page without the heading ends with the whole-page cut |
| PdfSanitizer.CleanMitchellSpec | parse-pdf-mirroring-3-13/lambda_function.py:297-377 | one plan per page up to and including the first page with the end marker, none after it. The top cut is at the heading's y0 on the first table page and 10 lower later. A page without the heading is whited out entirely. A page is copied exactly when text remains |
| PdfSanitizer.RedactMitchellPage | parse-pdf-mirroring-3-13/lambda_function.py:313-364 | one iteration gives the specified cuts of the page |
| PdfSanitizer.CleanPdfMitchell | parse-pdf-mirroring-3-13/lambda_function.py:297-377 | the page loop gives the specified plan |
| PdfSanitizer.StartCut | parse-pdf-mirroring-3-13/lambda_function.py:179-186 | keeps the page's earlier cuts in front and only appends |
| PdfSanitizer.DamagesCut | parse-pdf-mirroring-3-13/lambda_function.py:193-202 | keeps the page's earlier cuts in front and only appends |
| PdfSanitizer.EndCut | parse-pdf-mirroring-3-13/lambda_function.py:203-213 | keeps the page's earlier cuts in front and only appends |
| PdfSanitizer.ItemsCut | parse-pdf-mirroring-3-13/lambda_function.py:215-222 | keeps the page's earlier cuts in front and only appends |
| PdfSanitizer.ItemsSection | parse-pdf-mirroring-3-13/lambda_function.py:192-222 | appends to the cuts made so far; the table ends only on a page holding the end marker |
| PdfSanitizer.AudatexCutsSpec | parse-pdf-mirroring-3-13/lambda_function.py:166-222 | the margin bands come first, a page before the parts heading is whited out entirely, and only a page with "Items" and the end marker ends the table |
| PdfSanitizer.CleanAudatexSpec | parse-pdf-mirroring-3-13/lambda_function.py:140-234 | pages are processed in order until one with "Items" and the end marker ends the table. Each plan starts with the footer band, plus the header band after the first page. Pages before the parts heading are whited out. A page is copied exactly when text remains |
| PdfSanitizer.CleanAudatexMergedPage | parse-pdf-mirroring-3-13/lambda_function.py:141-190 | on the merged single page there is no header band: the footer band comes first, then the whole page when it lacks the parts heading |
| PdfSanitizer.RedactItems | parse-pdf-mirroring-3-13/lambda_function.py:192-222 | the "Items" branch gives the specified cuts |
| PdfSanitizer.RedactAudatexPage | parse-pdf-mirroring-3-13/lambda_function.py:162-222 | one iteration gives the specified cuts |
| PdfSanitizer.CleanPdfAudatex | parse-pdf-mirroring-3-13/lambda_function.py:140-234 | the page loop gives the specified plan |
| PdfSanitizer.MergeContiguous | parse-pdf-mirroring-3-13/lambda_function.py:258-294 | the placements tile the merged page without gaps: the first starts at 0, each starts where the previous ends, the last ends at the total height, all at full width |
| PdfSanitizer.HeightsBeforeMonotone | parse-pdf-mirroring-3-13/lambda_function.py:271-287 | with non-negative heights the running offset never decreases |
| PdfSanitizer.MergeDisjoint | parse-pdf-mirroring-3-13/lambda_function.py:258-294 | with non-negative heights no two placements overlap and all lie within the merged height |
| PdfSanitizer.MergePdfToSinglePage | parse-pdf-mirroring-3-13/lambda_function.py:258-294 | the two page loops give the specified layout; an empty document raises |
| MitchellRows.Headings | parse-pdf-mirroring-3-13/lambda_function.py:413-432 | one heading word per column of the variant (also lines 444-454, 549-570, 582-593) |
| MitchellRows.FieldKeys | parse-pdf-mirroring-3-13/lambda_function.py:530-541 | one record key per column of the variant (also lines 674-686) |
| MitchellRows.HeadingColumns | parse-pdf-mirroring-3-13/lambda_function.py:444-454 | one x0 per heading word, or an IndexError when a word has too few hits (also lines 582-593) |
| MitchellRows.InitialColumns | parse-pdf-mirroring-3-13/lambda_function.py:436 | one column position per column of the variant (also lines 574) |
| MitchellRows.UpdateColumns | parse-pdf-mirroring-3-13/lambda_function.py:444-454 | a page with "Line #" resets and binds every column; any other page keeps the previous columns (also lines 582-593) |
| MitchellRows.SegmentSpec | parse-pdf-mirroring-3-13/lambda_function.py:456-474 | the span loop keeps exactly the spans at x0 == xLine (parts) and those left of xDes, not at xLine (lines), in order. The entries equal those read off the spans alone (`ClassifiedEntries`): a part entry is labelled with its own span's text, and a line entry with the text of the last part span before it. The marks are the part entries. The heading left for the next page is the last part text, or the incoming one when the page has none (also lines 595-613) |
| MitchellRows.Bands | parse-pdf-mirroring-3-13/lambda_function.py:485-514 | one band per column: the reference from xLine+25 to xDes−3, each later column to 3 left of the next, "Tax" 40 wide (also lines 625-657) |
| MitchellRows.BandsDisjoint | parse-pdf-mirroring-3-13/lambda_function.py:485-514 | neighbouring bands do not overlap |
| MitchellRows.RawFields | parse-pdf-mirroring-3-13/lambda_function.py:485-514 | one field per band |
| MitchellRows.RowsFromSpec | parse-pdf-mirroring-3-13/lambda_function.py:475-543 | the record loop appends at most one well-formed record per line entry |
| MitchellRows.PageRowsSpec | parse-pdf-mirroring-3-13/lambda_function.py:475-543 | at most one record per line entry, each with one non-empty field per column and the heading of one of the page's line entries (also lines 615-688) |
| MitchellRows.PageStep | parse-pdf-mirroring-3-13/lambda_function.py:439-543 | a page keeps the column count and only appends to the records |
| MitchellRows.ReadFromExtends | parse-pdf-mirroring-3-13/lambda_function.py:437 | pages only append: the earlier records head the result (also lines 529) |
| MitchellRows.ReadFromStep | parse-pdf-mirroring-3-13/lambda_function.py:439-543 | the page loop from a page is that page's step, then the loop from the next page; a crash on the page is the crash of the whole loop |
| MitchellRows.Type2NeedsHeading | parse-pdf-mirroring-3-13/lambda_function.py:574-641 | a one-page type 2 read of a page without the heading row that holds a line entry raises `UnboundLocalError` for `xCEG` |
| MitchellRows.SegmentSpans | parse-pdf-mirroring-3-13/lambda_function.py:457-474 | the span loop gives the specified segmentation |
| MitchellRows.EntryRecord | parse-pdf-mirroring-3-13/lambda_function.py:476-543 | the record of one entry is the specified one |
| MitchellRows.PageRecords | parse-pdf-mirroring-3-13/lambda_function.py:475-543 | the record loop gives the specified records |
| MitchellRows.FindLineEntry | parse-pdf-mirroring-3-13/lambda_function.py:475-476 | the scan finds a line entry exactly when one exists |
| MitchellRows.ReadPage | parse-pdf-mirroring-3-13/lambda_function.py:439-543 | one page gives the specified state or crash |
| MitchellRows.ReadTextMitchell | parse-pdf-mirroring-3-13/lambda_function.py:411-690 | the page loop gives the specified records or crash, for both variants |
| AudatexRows.Words | parse-pdf-mirroring-3-13/lambda_function.py:695-718 | the eleven heading words of each language |
| AudatexRows.Hits | parse-pdf-mirroring-3-13/lambda_function.py:736-746 | the chosen hit of every word from the k-th on, or an IndexError exactly when one word has too few hits (also lines 973-984) |
| AudatexRows.TableColumns | parse-pdf-mirroring-3-13/lambda_function.py:721-746 | no columns without "Line" in the text; otherwise all columns or an IndexError |
| AudatexRows.Entries | parse-pdf-mirroring-3-13/lambda_function.py:730 | one entry per item, in order |
| AudatexRows.SetNextIfUnset | parse-pdf-mirroring-3-13/lambda_function.py:780-805 | the entries' kind, heading and box stay the same |
| AudatexRows.AddPart | parse-pdf-mirroring-3-13/lambda_function.py:763-777 | a part span adds a part entry and a mark and becomes the heading |
| AudatexRows.AddLine | parse-pdf-mirroring-3-13/lambda_function.py:779-794 | appends a line entry under the current heading; the marks, the heading, `last_line_pos` and the part-number end are unchanged |
| AudatexRows.SubLine | parse-pdf-mirroring-3-13/lambda_function.py:796-807 | the entries, the marks, the heading and the part-number end are unchanged; `last_line_pos` becomes the span's bottom |
| AudatexRows.ScanSpec | parse-pdf-mirroring-3-13/lambda_function.py:755-811 | with columns known the span loop does not raise. Its entries are the window's spans at the left margin (parts) or inside "Line" (lines), in order. The entries equal those read off the spans alone (`ClassifiedEntries`): a part entry is labelled with its own span's text. A span that is both gives the part entry first and then a line entry carrying its text, and other lines carry the text of the last part span before them. The marks are the part entries. `pos_finnish_man` is the largest right edge in the part-number column |
| AudatexRows.ScanWithoutColumns | parse-pdf-mirroring-3-13/lambda_function.py:721-723 | without the "Line" heading the first span in the window raises, and an empty window gives no entries (also lines 779) |
| AudatexRows.ItemBottom | parse-pdf-mirroring-3-13/lambda_function.py:813-826 | the extent rule shared with Mitchell, overridden by a set, non-zero `next_line_y0` |
| AudatexRows.Bands | parse-pdf-mirroring-3-13/lambda_function.py:828-865 | ten bands; the description band ends 3 left of the part-number column, the part-number band runs from that column to `pos_finnish_man`, and the price band starts there |
| AudatexRows.RawFields | parse-pdf-mirroring-3-13/lambda_function.py:828-865 | one raw text per band |
| AudatexRows.CleanFields | parse-pdf-mirroring-3-13/lambda_function.py:867-888 | ten cleaned fields |
| AudatexRows.CleanFieldsNoNewline | parse-pdf-mirroring-3-13/lambda_function.py:867-888 | no cleaned field holds a newline |
| AudatexRows.WithSubLines | parse-pdf-mirroring-3-13/lambda_function.py:890-892 | keeps ten fields |
| AudatexRows.RowOfGood | parse-pdf-mirroring-3-13/lambda_function.py:813-922 | a record of an entry is well formed and comes from a line entry |
| AudatexRows.RowsFromSpec | parse-pdf-mirroring-3-13/lambda_function.py:813-922 | the record loop appends at most one well-formed record per line entry |
| AudatexRows.TableRowsSpec | parse-pdf-mirroring-3-13/lambda_function.py:813-922 | at most one record per line entry: ten non-empty fields under a line entry's heading, newlines only in the description |
| AudatexRows.TwoTablesSplit | parse-pdf-mirroring-3-13/lambda_function.py:748-753 | with two tables, the first reader takes the spans above the second heading and the second reader those from it on; the second table's rows follow the first's (also lines 925-926, 986-988) |
| AudatexRows.OneTable | parse-pdf-mirroring-3-13/lambda_function.py:748-753 | with one table the reader covers the whole page and ends the last line at the page height |
| AudatexRows.ReadPartSpan | parse-pdf-mirroring-3-13/lambda_function.py:763-777 | the part branch gives the specified state |
| AudatexRows.ReadLineSpan | parse-pdf-mirroring-3-13/lambda_function.py:779-794 | the line branch, with its in-place update of the last entry, gives the specified state |
| AudatexRows.ReadSubLineSpan | parse-pdf-mirroring-3-13/lambda_function.py:796-807 | the sub-line branch, with its in-place updates, gives the specified state |
| AudatexRows.ReadSpan | parse-pdf-mirroring-3-13/lambda_function.py:762-811 | the body of the span loop gives the specified state |
| AudatexRows.ScanPage | parse-pdf-mirroring-3-13/lambda_function.py:755-811 | the span loop gives the specified state or crash |
| AudatexRows.ItemRecord | parse-pdf-mirroring-3-13/lambda_function.py:814-922 | one entry gives the specified record |
| AudatexRows.TableRecords | parse-pdf-mirroring-3-13/lambda_function.py:813-922 | the record loop gives the specified records |
| AudatexRows.ReadTextAudatexSecondTable | parse-pdf-mirroring-3-13/lambda_function.py:931-1157 | the second reader gives the specified rows or crash |
| AudatexRows.ReadTextAudatex | parse-pdf-mirroring-3-13/lambda_function.py:693-928 | the first reader gives the specified rows or crash, the second table's rows appended |
| PdfRun.RunDispatch | parse-pdf-mirroring-3-13/lambda_function.py:1261-1300 | no output exactly for "unknow_type"; otherwise the record's type is the classifier's tag and its contents come from the branch of that variant |
| PdfRun.RunMetadata | parse-pdf-mirroring-3-13/lambda_function.py:1266-1297 | the record's metadata is the extractor's result for the tag's family, field by field; an Audatex record never fails on its metadata |
| PdfRun.MitchellTag | parse-pdf-mirroring-3-13/lambda_function.py:1266-1299 | a Mitchell branch that succeeds records its tag and the Mitchell metadata, field by field |
| PdfRun.AudatexTag | parse-pdf-mirroring-3-13/lambda_function.py:1282-1299 | an Audatex branch that succeeds records its tag and the Audatex metadata, field by field |
| PdfRun.RunTypeDetermines | parse-pdf-mirroring-3-13/lambda_function.py:1263-1299 | the type field names one variant only, so the branch taken can be read back from it |
| PoiCalculation.MapPositionToLabelsSpec | poi-calculation/lambda_function.py:75-84 | one or two labels, each among Front, Left, Right and Rear and a key of POI_MAPPING, distinct when there are two; a prediction outside the eight known ones gives ["Front"] (also lines 138-140) |
| PoiCalculation.CaseInsensitiveMatch | poi-calculation/lambda_function.py:456-459 | a match found is one of the candidates and equal to the input up to case; none is found only when no candidate matches |
| PoiCalculation.MapPoiToStandardFormatSpec | poi-calculation/lambda_function.py:416-462 | the stripped input is split when combined, kept when valid, dropped for "Roof", replaced by its case-insensitive valid spelling, or dropped; every output is a valid POI |
| PoiCalculation.CombinedPoisValid | poi-calculation/lambda_function.py:429-440 | each of the four combined POIs splits into two valid POIs and is not itself valid |
| PoiCalculation.StandardPoiValid | poi-calculation/lambda_function.py:416-462 | at most two POIs come back and each of them is one of the nine valid POIs |
| PoiCalculation.StandardPoiKept | poi-calculation/lambda_function.py:447-448 | a valid POI comes back alone and unchanged |
| PoiCalculation.StandardPoiCaseless | poi-calculation/lambda_function.py:456-462 | for an input that is neither combined, valid nor "Roof", nothing comes back exactly when no valid POI equals it up to case; otherwise the one POI returned equals it up to case |
| PoiCalculation.RecordsMember | poi-calculation/lambda_function.py:480-495 | a record is collected exactly when it belongs to a region of a damaged result |
| PoiCalculation.RegionRecordsMember | poi-calculation/lambda_function.py:486-495 | a record is collected from a result exactly when it is the record of one of that result's regions |
| PoiCalculation.WithPoiMember | poi-calculation/lambda_function.py:487-488 | a record survives exactly when its stripped POI is non-empty |
| PoiCalculation.PrimaryPoisMember | poi-calculation/lambda_function.py:505-524 | a POI is collected exactly when some kept record of type primary carries it |
| PoiCalculation.DamagePoisSpec | poi-calculation/lambda_function.py:464-527 | the damage POIs are sorted and distinct. They are exactly the stripped non-empty POIs of primary regions (the default type) of damaged results. Anything but a list gives [] |
| PoiCalculation.CollectRegionRecords | poi-calculation/lambda_function.py:486-495 | the inner loop gives the records of the regions with a non-empty POI |
| PoiCalculation.CollectDamageRegions | poi-calculation/lambda_function.py:479-495 | the first pass gives the specified records |
| PoiCalculation.FilterPrimary | poi-calculation/lambda_function.py:505-517 | both severity branches keep exactly the primary records, in order |
| PoiCalculation.HasMajorPrimary | poi-calculation/lambda_function.py:501-504 | true exactly when some record is both major and primary |
| PoiCalculation.PrimaryPoisFiltered | poi-calculation/lambda_function.py:505-524 | keeping only the primary records first changes none of the collected POIs, and every kept record is primary |
| PoiCalculation.UniquePois | poi-calculation/lambda_function.py:520-527 | the set loop gives the sorted distinct POIs of the kept records |
| PoiCalculation.ConvertToDamagePoiFormat | poi-calculation/lambda_function.py:464-527 | the loops give the specified damage POIs |
| PoiCalculation.AddAllSpec | poi-calculation/lambda_function.py:549-562 | the dictionary keeps distinct keys with non-empty lists, and f is listed under n exactly when some append put it there |
| PoiCalculation.AddSpec | poi-calculation/lambda_function.py:560-562 | one append keeps the keys distinct and the lists non-empty, and lists exactly one more image under one name |
| PoiCalculation.NamePairsMember | poi-calculation/lambda_function.py:558-562 | the innermost loop appends the image under each stripped name |
| PoiCalculation.LabelPairsMember | poi-calculation/lambda_function.py:556-562 | the label loop appends the image under each stripped name of each label's mapping |
| PoiCalculation.ItemPairsMember | poi-calculation/lambda_function.py:551-562 | an append happens exactly when an item's label maps to that stripped name |
| PoiCalculation.ItemPairsLabelled | poi-calculation/lambda_function.py:551-562 | with every filename present, the image f is appended under n exactly when one of that image's labels maps to the stripped name n |
| PoiCalculation.EntriesOfPairs | poi-calculation/lambda_function.py:549-570 | after any sequence of appends the output has distinct POIs and no empty image set, and lists an image under a POI exactly when some append put it there |
| PoiCalculation.PoiFormatSpec | poi-calculation/lambda_function.py:529-572 | every item needs a filename. The POIs are then distinct and none has an empty image set. An image is listed under a POI exactly when one of its labels maps to that stripped name |
| PoiCalculation.AddNames | poi-calculation/lambda_function.py:558-562 | the innermost loop gives the specified dictionary |
| PoiCalculation.AddLabels | poi-calculation/lambda_function.py:556-562 | the label loop gives the specified dictionary |
| PoiCalculation.AddItems | poi-calculation/lambda_function.py:549-562 | the item loop succeeds exactly when every item has a filename and then gives the dictionary of all the appends; otherwise it raises KeyError: 'filename' |
| PoiCalculation.EntriesOf | poi-calculation/lambda_function.py:565-570 | one output entry per key, in insertion order |
| PoiCalculation.ConvertToPoiFormat | poi-calculation/lambda_function.py:529-572 | the loops give the specified output or crash |
| PoiCalculation.FindValidation | poi-calculation/lambda_function.py:363-367 | the validation found is the first with the same filename; none is found only when no validation has it |
| PoiCalculation.UpdateItemSpec | poi-calculation/lambda_function.py:360-379 | the labels change only for a confirmed image (first matching validation, confidence ≥ 0.6), to the validated labels when given. The filename never changes. A missing filename, a missing confidence, or missing labels on a confirmed item raise |
| PoiCalculation.UpdateItemsSpec | poi-calculation/lambda_function.py:358-379 | one updated item per item, in order, or the first failure |
| PoiCalculation.ItemPairsReadsLabels | poi-calculation/lambda_function.py:551-553 | `convert_to_poi_format` reads only an item's filename and labels |
| PoiCalculation.CombineSpec | poi-calculation/lambda_function.py:346-413 | without a non-empty validation list, the final results are the POI format of the model's labels and there are no damage POIs or regions. With one, the damage POIs are the validation's and the regions are every region of a damaged result |
| PoiCalculation.CombineUnconfirmed | poi-calculation/lambda_function.py:357-384 | when no image is confirmed, the final results are those of the model's own labels |
| PoiCalculation.RegionRecordsOf | poi-calculation/lambda_function.py:396-403 | one record per region, POI stripped, defaults filled |
| PoiCalculation.AllDamagedRegions | poi-calculation/lambda_function.py:389-405 | the region loop gives the records of every region of a damaged result |
| PoiCalculation.UpdateAll | poi-calculation/lambda_function.py:358-379 | the item loop gives the specified items or crash |
| PoiCalculation.CombineOnnxOpenaiResults | poi-calculation/lambda_function.py:346-413 | the loops give the specified result or crash |
| PssData.OperationNameSpec | est-v2-get-required-json-data-from-s3/utils.py:7-19 | a name is found exactly for the ids 1 to 10 and 16, and every name is non-empty (also lines 114) |
| PssData.OperationsOfSpec | est-v2-get-required-json-data-from-s3/utils.py:112-115 | the names of the known operations, in order, and nothing else |
| PssData.AvailableOperationsOf | est-v2-get-required-json-data-from-s3/utils.py:112-115 | the operation loop gives the specified names |
| PssData.CopyCallouts | est-v2-get-required-json-data-from-s3/utils.py:175-181 | every callout's number and part id, in order |
| PssData.ExtractImages | est-v2-get-required-json-data-from-s3/utils.py:159-201 | nothing for a false or non-container value, one image per list element in order, one image for a dict |
| PssData.PruneKeptIff | est-v2-get-required-json-data-from-s3/utils.py:84-125 | a part is kept exactly when it is not an R&I part and has a detail; a subcategory exactly when one of its parts is kept; a category exactly when one of its subcategories is |
| PssData.SubCategoryKeptIff | est-v2-get-required-json-data-from-s3/utils.py:118-122 | a subcategory is kept exactly when one of its parts is kept |
| PssData.CategoryKeptIff | est-v2-get-required-json-data-from-s3/utils.py:121-125 | a category is kept exactly when one of its subcategories is kept |
| PssData.PrunedSubCategoryOk | est-v2-get-required-json-data-from-s3/utils.py:74-122 | a kept subcategory has a part, and every part it keeps has a detail and is not an R&I part |
| PssData.PrunedCategoryOk | est-v2-get-required-json-data-from-s3/utils.py:66-125 | a kept category has a subcategory, and every subcategory it keeps is well formed in the same sense |
| PssData.RequiredPssDataShape | est-v2-get-required-json-data-from-s3/utils.py:60-127 | no container of the result is empty and no R&I part survives |
| PssData.RequiredPssDataOrder | est-v2-get-required-json-data-from-s3/utils.py:66-125 | each level of the result is an order-preserving selection of the level above it in the input |
| PssData.PruneDetails | est-v2-get-required-json-data-from-s3/utils.py:95-116 | the detail loop gives one pruned detail per detail, in order |
| PssData.PrunePartOf | est-v2-get-required-json-data-from-s3/utils.py:83-119 | the part loop body gives the specified part or skip |
| PssData.PruneSubCategoryOf | est-v2-get-required-json-data-from-s3/utils.py:74-122 | the subcategory loop body gives the specified subcategory or skip |
| PssData.PruneCategoryOf | est-v2-get-required-json-data-from-s3/utils.py:66-125 | the category loop body gives the specified category or skip |
| PssData.ExtractRequiredPssData | est-v2-get-required-json-data-from-s3/utils.py:60-127 | the loops give the specified catalogue |
| PssData.ExtractCarBioData | est-v2-get-required-json-data-from-s3/utils.py:129-156 | exactly the eight keys, each holding the result's value when present and None otherwise |
| PssCatalogue.SuperNamesSpec | est-v2-get-required-json-data-from-s3/lambda_function.py:56-59 | the descriptions of the supercategories listing the category, in order, or a KeyError when one of those has no description |
| PssCatalogue.CategoryBlockSpec | est-v2-get-required-json-data-from-s3/lambda_function.py:56-75 | a block starts with "- Id: …, Name: …"; without supercategory names it is that line followed by the subcategory part alone, and a category no supercategory lists and without subcategories gives that line alone. The supercategory line is left out exactly when the names found are none or a single empty description |
| PssCatalogue.SuperPartEmpty | est-v2-get-required-json-data-from-s3/lambda_function.py:60-65 | the supercategory line is left out exactly when the ", " join is empty: no names, or one empty name |
| PssCatalogue.SupercategoryNames | est-v2-get-required-json-data-from-s3/lambda_function.py:56-59 | the supercategory loop gives the specified names or crash |
| PssCatalogue.AppendSubCategoryLines | est-v2-get-required-json-data-from-s3/lambda_function.py:72-73 | the loop appends one line per subcategory |
| PssCatalogue.BuildCategoryBlock | est-v2-get-required-json-data-from-s3/lambda_function.py:54-75 | the loop body gives the specified block or crash |
| PssCatalogue.SuperNamesCrash | est-v2-get-required-json-data-from-s3/lambda_function.py:57-59 | a failure on a prefix of the supercategories is the failure of the whole loop |
| PssCatalogue.BlocksSpec | est-v2-get-required-json-data-from-s3/lambda_function.py:54-75 | one block per category, in order, or the first failure |
| PssCatalogue.BuildBlocks | est-v2-get-required-json-data-from-s3/lambda_function.py:54-75 | the category loop gives the specified blocks, or the first failure |
| PssCatalogue.CategoryListSpec | est-v2-get-required-json-data-from-s3/lambda_function.py:80-81 | the list joins, in category order, every non-empty description and nothing else |
| PssCatalogue.BuildCategoryList | est-v2-get-required-json-data-from-s3/lambda_function.py:80-81 | the description loop gives the specified list |
| PssCatalogue.HandlerSpec | est-v2-get-required-json-data-from-s3/lambda_function.py:7-94 | a missing or empty folder name gives status 400. Otherwise the catalogue is the pruned one without supercategories, the text joins one block per category in order, and the list joins their non-empty descriptions |
| PssCatalogue.LambdaHandler | est-v2-get-required-json-data-from-s3/lambda_function.py:7-94 | the handler's loops give the specified response or crash |
| PoiBatches.MergeAllSpec | est-v2-get-pois-from-description-images/utils.py:48-55 | after the updates the keys are distinct and are exactly the updated POIs, each holding exactly the images given for it |
| PoiBatches.UpdateSpec | est-v2-get-pois-from-description-images/utils.py:51-54 | one update keeps the keys distinct and adds exactly the POI and the images of one entry |
| PoiBatches.ItemsMember | est-v2-get-pois-from-description-images/utils.py:50-51 | an item is visited exactly when some mapping holds it |
| PoiBatches.MergePoiMappingsSpec | est-v2-get-pois-from-description-images/utils.py:48-55 | the keys are distinct and exactly the keys of the mappings; each key holds exactly the images listed under it in any mapping; no mappings give {} |
| PoiBatches.MergeMapping | est-v2-get-pois-from-description-images/utils.py:51-54 | the loop over one mapping gives the specified dictionary |
| PoiBatches.MergeMappings | est-v2-get-pois-from-description-images/utils.py:48-55 | the loops give the specified dictionary |
| PoiBatches.BatchesFromCut | est-v2-get-pois-from-description-images/utils.py:65-66 | the batches are non-empty, all but the last hold exactly batch_size paths, and they concatenate to the rest of the paths |
| PoiBatches.BatchesFromCount | est-v2-get-pois-from-description-images/utils.py:65-71 | there are ceil((len − start) / batch_size) batches |
| PoiBatches.BatchesSpec | est-v2-get-pois-from-description-images/utils.py:65-71 | consecutive slices concatenating to the input, all of batch_size but the last, (len + batch_size − 1) // batch_size of them; a zero step raises and a negative one gives none |
| PoiBatches.ResultsSpec | est-v2-get-pois-from-description-images/utils.py:73-74 | one call per batch, in order |
| PoiBatches.ResultsItemsMember | est-v2-get-pois-from-description-images/utils.py:50-74 | an item is merged exactly when some batch's answer lists it |
| PoiBatches.ProcessImagesSpec | est-v2-get-pois-from-description-images/utils.py:59-75 | a POI is listed exactly when some batch's answer lists it, with the images every batch listed under it |
| PoiBatches.ProcessImagesWithUserDescription | est-v2-get-pois-from-description-images/utils.py:59-75 | the batch loop gives the specified dictionary or crash |
| PoiBatches.MergeAll | est-v2-get-pois-from-description-images/utils.py:75 | the final merge gives the specified dictionary |
| OpenaiBatches.WithOriginalFilenamesSpec | poi-calculation/openai_executions.py:8-14 | the length is kept. The answer at an index the images reach gets that image's filename, or `image_<index>`, and nothing else of it changes. Answers past the last image are untouched |
| OpenaiBatches.UpdateOpenaiResultsWithOriginalFilename | poi-calculation/openai_executions.py:8-14 | the loop overwrites the answers in place as specified and returns the list it was given |
| OpenaiBatches.BatchSize | poi-calculation/openai_executions.py:23-27 | 10 for more than 50 inputs, the given size otherwise |
| OpenaiBatches.BatchRangeNonEmpty | poi-calculation/openai_executions.py:43-44 | each of the first ceil(total / bs) ranges is non-empty and at most bs long |
| OpenaiBatches.BatchRangesOrdered | poi-calculation/openai_executions.py:43-44 | an earlier range ends at or before a later one starts |
| OpenaiBatches.BatchRangeCovers | poi-calculation/openai_executions.py:36-44 | every index below the total lies in some range |
| OpenaiBatches.BatchRangesPartition | poi-calculation/openai_executions.py:36-47 | for a positive batch size the ceil(total / bs) ranges are non-empty, ordered without overlap, and cover 0 .. total − 1 |
| OpenaiBatches.BatchPlanSpec | poi-calculation/openai_executions.py:26-47 | a zero batch size divides by zero and a negative worker count is refused when there is a batch. Zero inputs, a negative size or zero workers submit nothing. Otherwise every batch range is submitted, in order (also lines 107-115) |
| OpenaiBatches.Slice | poi-calculation/openai_executions.py:46-47 | Python slicing: the elements from start up to the clamped end |
| OpenaiBatches.PromptNames | poi-calculation/openai_executions.py:51-57 | one prompt name per item of the batch: its filename when it has one, otherwise `image_<start + i>`, its place in the whole input |
| OpenaiBatches.GetPoisForBatchSpec | poi-calculation/openai_executions.py:19-127 | without inputs the result is []. Otherwise every result is an answer of one batch, renamed from that batch's slice, and every such answer is among the results |
| OpenaiBatches.LocalFallbackNameClash | poi-calculation/openai_executions.py:13 | as written, a nameless image of the second batch is called `image_5` in the prompt but renamed `image_0`, the name a nameless image of the first batch also gets (also lines 54, 96) |
| OpenaiBatches.WithOriginalFilenamesFromSpec | poi-calculation/openai_executions.py:8-14 | with the batch offset, each answer carries exactly the name its prompt listed and is otherwise unchanged (also lines 54) |
| OpenaiBatches.RenamedFromSpec | poi-calculation/openai_executions.py:11-13 | one answer at an index the images reach gets the name the prompt listed there, and nothing else of it changes; one past them is unchanged |
| OpenaiBatches.BatchResultCorrectedNames | poi-calculation/openai_executions.py:51-96 | corrected: the answer at place k of batch range (s, e) is named after item s + k, so batches no longer share fallback names |
| ImageStitch.ScaledSide | est-v2-image-stiching/utils.py:49-54 | the shorter side scaled by max/longer and rounded down neither grows nor exceeds the maximum |
| ImageStitch.ResizeDimsSpec | est-v2-image-stiching/utils.py:47-55 | dimensions within the maximum are kept. Otherwise the longer side becomes the maximum and the other floor(other·max/longer), which neither exceeds the maximum nor grows |
| ImageStitch.QualitiesSpec | est-v2-image-stiching/utils.py:65-81 | `range(top, 20, -5)` for a multiple of five is top, top − 5, …, 25 |
| ImageStitch.FirstFitSpec | est-v2-image-stiching/utils.py:65-74 | a found quality fits and every one tried before it does not; nothing is found only when none fits |
| ImageStitch.LadderFit | est-v2-image-stiching/utils.py:65-88 | the first fit on a ladder is the highest fitting quality; there is none exactly when no quality of the ladder fits |
| ImageStitch.CompressSpec | est-v2-image-stiching/utils.py:37-94 | the highest quality from 95 down to 25 that fits the resized image; else the highest from 85 down on the image shrunk by a fifth; else quality 30 on the shrunk image. The size is that encoding's |
| ImageStitch.FirstFitting | est-v2-image-stiching/utils.py:65-74 | the quality loop stops at the first fit, as specified |
| ImageStitch.CompressImageForDamageDetection | est-v2-image-stiching/utils.py:37-94 | the compressor gives the specified encoding |
| ImageStitch.ImagePathsSpec | est-v2-image-stiching/utils.py:144-148 | a path is stitched exactly when it is given and its lower-cased form ends with .png, .jpg, .jpeg, gif or webp |
| ImageStitch.SuffixWithoutDot | est-v2-image-stiching/utils.py:147 | "notes.notgif" passes the suffix test |
| ImageStitch.GridFromSpec | est-v2-image-stiching/utils.py:152 | the search from `from` finds the least g ≥ from with g·g ≥ n |
| ImageStitch.GridPositive | est-v2-image-stiching/utils.py:152-155 | the grid is positive for a picture |
| ImageStitch.GridSizeSpec | est-v2-image-stiching/utils.py:152 | the grid is the least g with g·g ≥ n, 0 only without pictures |
| ImageStitch.TileInside | est-v2-image-stiching/utils.py:155-170 | every tile lies within the canvas |
| ImageStitch.TilesApart | est-v2-image-stiching/utils.py:161-170 | tiles of different pictures never overlap |
| ImageStitch.LayoutSpec | est-v2-image-stiching/utils.py:144-170 | no picture raises a division by zero. Otherwise picture idx is tile idx at ((idx % g)·w, (idx // g)·h) for the least square grid g, inside the canvas and apart from every other tile |
| ImageStitch.DashesSpec | est-v2-image-stiching/utils.py:224-235 | k dashes, dash i the i-th along the line |
| ImageStitch.DashInside | est-v2-image-stiching/utils.py:221-235 | each of the floor(length / period) dashes stays inside the segment along its axis |
| ImageStitch.DashedLineSpec | est-v2-image-stiching/utils.py:207-235 | a zero period divides by zero. Otherwise the line is vertical exactly when x1 == x2 and gets floor(length / (dash + gap)) dashes, none for a negative period. Dash i spans dash from i·(dash + gap) past the smaller end, width // 2 to each side |
| ImageStitch.BorderBoxesApart | est-v2-image-stiching/utils.py:178-185 | a border spans the tile's first to last pixel on each axis, so borders of different tiles never touch and all lie on the canvas |
| ImageStitch.StitchSpec | est-v2-image-stiching/utils.py:142-185 | the stitch succeeds exactly when some path is a picture |
| ImageStitch.BordersOk | est-v2-image-stiching/utils.py:173-185 | the border style 3/10/5 never divides by zero |
| ImageStitch.Canvas.constructor | est-v2-image-stiching/utils.py:158-159 | a blank canvas of the output size, nothing pasted or drawn |
| ImageStitch.Canvas.Paste | est-v2-image-stiching/utils.py:170 | the tile is appended to those pasted, nothing else changes |
| ImageStitch.Canvas.Rectangle | est-v2-image-stiching/utils.py:231-235 | the rectangle is appended to those filled, nothing else changes |
| ImageStitch.DrawDashedLine | est-v2-image-stiching/utils.py:207-235 | the dashes of the line are appended, in order |
| ImageStitch.DrawDashedRectangle | est-v2-image-stiching/utils.py:193-204 | the dashes of the top, bottom, left and right sides are appended, in order |
| ImageStitch.BordersSnoc | est-v2-image-stiching/utils.py:161-185 | the borders of one tile more are those before it, then its own |
| ImageStitch.PasteWithBorder | est-v2-image-stiching/utils.py:163-185 | one iteration pastes the tile and appends its border's dashes |
| ImageStitch.StitchImages | est-v2-image-stiching/utils.py:142-185 | the canvas holds exactly the specified tiles and border rectangles, or the division by zero |

## Findings

| source | as written | input that shows it | evidently intended | confidence | as-written member | corrected member |
|---|---|---|---|---|---|---|
| poi-calculation/openai_executions.py:13,54,96 | Inside a batch, the answers are renamed with the batch's own slice. A nameless image falls back to `image_<index in the batch>`, while the prompt named it `image_<start + index>` | six images without a filename, batch size 5: the prompt of batch 1 names the sixth image `image_5`, but its answer is renamed `image_0`, the name the first image's answer also carries | the fallback name of the answer matches the name in the prompt: `image_<start + index>` | not executed | OpenaiBatches.LocalFallbackNameClash | OpenaiBatches.BatchResultCorrectedNames |

The model's main result `GetPoisForBatch` keeps the behaviour as written, because the driver really does rename with the local index. The corrected renaming (`BatchResultCorrected`) is stated and proved next to it.

## Left out

- PDF rendering and redaction are not modelled. Opening, saving and closing documents, `add_redact_annot`, `apply_redactions` and `show_pdf_page` are outside the model. A sanitizer yields a plan: the rectangles per page and whether the page is copied. The documents built from plans are the uninterpreted functions of `PdfRun.Renderer`.
- `run`'s `clean_contents` loop, which drops pages the library cannot clean, is left out. It depends on library exceptions, so the model starts from the cleaned document.
- `lambda_handler` is left out: it downloads a file and builds an HTTP reply. So are `create_unique_folder` and the temporary file paths.
- The footer redaction inside `get_estimate_information` is a library side effect; the span stream is taken as already redacted.
- Bounding boxes are exact reals; the floating-point rounding of coordinates is not modelled.
- Unicode lower-casing is an abstract character map. Substring tests (`in`) are contiguous substring containment, with no normalisation.
- Python's float arithmetic is written as integer arithmetic:
  - `ceil(total / batch_size)` is `(total + bs − 1) / bs`;
  - `int(x * 0.8)` is `4x / 5` rounded down;
  - `ceil(sqrt(n))` is the least g with g·g ≥ n.
- Dictionary and set orders that Python leaves open are modelled as sets: `list(set(images))` and the merged mappings' image lists.
- The text fields `reasons`, `is_onnx_correct` and `openai_confidence` are not modelled. Only the labels, the source and the filename of an item are.
- PoiCalculation.CombineOnnxOpenaiResults: the in-place update of the item dictionaries is modelled on values. Aliasing between the returned items and the caller's is not captured.
- OpenaiBatches.UpdateOpenaiResultsWithOriginalFilename works on an array of answer values. A dictionary shared between two list slots would be renamed twice in Python; the model does not capture that aliasing.
- JSON values of unexpected types are not modelled: nulls where a list is expected, and answers that are not dictionaries (a TypeError in Python).
- ONNX model loading and inference, the OpenAI prompt text and `validate_onnx_with_openai` are foreign calls, left out.
- S3, HTTP requests and the thread pool are left out. The model's answer is a function parameter (`Ask`, or the batch call in `PoiBatches`).
- The results of `get_pois_for_batch` are listed in batch order. The source gathers them with `as_completed`, in an order that depends on timing; the model proves membership both ways, not order.
- `OPENAI_PARALLEL_WORKERS` is given as an integer. Parsing that environment variable is not modelled.
- The pixels are not modelled:
  - the PIL image data, EXIF transposition, mode conversion, resampling and colours;
  - the JPEG bytes: the encoder is an abstract size function of the dimensions and quality;
  - base64 encoding and `encode_image_from_url_to_buffer`.
- The S3 reads of the catalogue handler, the mitchell.json fallback, `get_s3_file` and `get_damage_description_v2` are I/O, left out. The handler's other returned fields are passed through unmodelled.
- Console output (`print`) is left out.
