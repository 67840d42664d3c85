/** The batch arithmetic and filename reconciliation of poi-calculation/openai_executions.py:
    the images are cut into consecutive batches, each batch is described to the model by
    filename, and the filenames of its answers are overwritten with the images' own. */
module OpenaiBatches {
  import opened Wrappers
  import opened Arith
  import opened Sequences
  import PyText

  // ---------------------------------------------------------------------------------------
  // update_openai_results_with_original_filename (8-14)
  // ---------------------------------------------------------------------------------------

  /** One decoded answer object: its `filename` key, if present, and its other keys. */
  datatype AiResponse = AiResponse(filename: Option<string>, other: map<string, string>)

  /** The fallback name of the image at `index`: `image_<index>`. */
  function DefaultName(index: nat): string {
    "image_" + PyText.NatToString(index)
  }

  /** The filename the image at `index` supplies, when there is one at that index. */
  function OriginalName(images: seq<Option<string>>, index: nat): string
    requires index < |images|
  {
    images[index].GetOr(DefaultName(index))
  }

  /** The answer at `index` after the loop body has visited it. */
  function Renamed(r: AiResponse, images: seq<Option<string>>, index: nat): AiResponse {
    if index < |images| then r.(filename := Some(OriginalName(images, index))) else r
  }

  /** The answers after the whole loop, visiting them in order. */
  function WithOriginalFilenames(rs: seq<AiResponse>, images: seq<Option<string>>): seq<AiResponse> {
    if rs == [] then []
    else WithOriginalFilenames(rs[..|rs| - 1], images) + [Renamed(rs[|rs| - 1], images, |rs| - 1)]
  }

  /** The list keeps its length. The answer at an index the images reach gets that image's
      filename (or `image_<index>`), and nothing else of it changes. Answers past the last
      image are untouched. */
  lemma {:induction false} WithOriginalFilenamesSpec(rs: seq<AiResponse>, images: seq<Option<string>>)
    ensures var out := WithOriginalFilenames(rs, images);
      |out| == |rs| &&
      (forall i :: 0 <= i < |rs| ==>
        out[i].other == rs[i].other &&
        (i < |images| ==> out[i].filename == Some(OriginalName(images, i))) &&
        (i >= |images| ==> out[i] == rs[i]))
  {
    if rs != [] {
      var n := |rs| - 1;
      WithOriginalFilenamesSpec(rs[..n], images);
      assert forall i :: 0 <= i < n ==> rs[..n][i] == rs[i];
    }
  }

  /** One more answer visited: the renamed prefix grows by that answer, renamed. */
  lemma RenameStep(orig: seq<AiResponse>, images: seq<Option<string>>, index: nat, before: seq<AiResponse>, after: seq<AiResponse>)
    requires index < |orig|
    requires before == WithOriginalFilenames(orig[..index], images)
    requires |after| == index + 1 && after[..index] == before && after[index] == Renamed(orig[index], images, index)
    ensures after == WithOriginalFilenames(orig[..index + 1], images)
  {
    assert orig[..index + 1][..index] == orig[..index];
    assert after == before + [after[index]];
  }

  /** The loop itself, overwriting the answers in place; the list it returns is the one it
      was given. */
  method UpdateOpenaiResultsWithOriginalFilename(responses: array<AiResponse>, images: seq<Option<string>>)
    returns (r: array<AiResponse>)
    modifies responses
    ensures r == responses
    ensures responses[..] == WithOriginalFilenames(old(responses[..]), images)
  {
    ghost var orig := responses[..];
    var totalImages := |images|;
    var index := 0;
    while index < responses.Length
      invariant 0 <= index <= responses.Length
      invariant responses[..index] == WithOriginalFilenames(orig[..index], images)
      invariant forall j :: index <= j < responses.Length ==> responses[j] == orig[j]
    {
      ghost var before := responses[..index];
      if index < totalImages {
        responses[index] := responses[index].(filename := Some(images[index].GetOr(DefaultName(index))));
      }
      assert responses[index] == Renamed(orig[index], images, index);
      RenameStep(orig, images, index, before, responses[..index + 1]);
      index := index + 1;
    }
    assert responses[..] == responses[..index];
    assert orig[..index] == orig;
    r := responses;
  }

  // ---------------------------------------------------------------------------------------
  // Batch size and ranges in get_pois_for_batch (19-47, 107-112)
  // ---------------------------------------------------------------------------------------

  /** The `batch_size` parameter's default. */
  const DefaultBatchSize := 5

  /** The batch size used: 10 once there are more than 50 inputs, the given size otherwise. */
  function BatchSize(inputCount: nat, batchSize: int): (bs: int)
    ensures inputCount <= 50 ==> bs == batchSize
    ensures inputCount > 50 ==> bs == 10
  {
    if inputCount > 50 then 10 else batchSize
  }

  /** `start` and `end` of batch `i`: `i * bs` and `min(start + bs, total)`. */
  function BatchRange(i: nat, bs: nat, total: nat): (nat, nat) {
    (i * bs, if i * bs + bs < total then i * bs + bs else total)
  }

  /** The ranges of the batches submitted to the pool. A zero batch size divides by zero; a
      negative one gives no batch; `max_workers` is 0 when there is no batch (or the configured
      worker count is 0), and then nothing is submitted; a negative worker count is refused by
      the pool. */
  function BatchPlan(inputCount: nat, batchSize: int, workers: int): Outcome<seq<(nat, nat)>> {
    var bs := BatchSize(inputCount, batchSize);
    if bs == 0 then Crash("ZeroDivisionError: division by zero")
    else if bs < 0 then Ok([])
    else
      var totalBatches := CeilDiv(inputCount, bs);
      var maxWorkers := if totalBatches > 0 then Min(workers, totalBatches) else 0;
      if maxWorkers == 0 then Ok([])
      else if maxWorkers < 0 then Crash("ValueError: max_workers must be greater than 0")
      else Ok(seq(totalBatches, i requires 0 <= i < totalBatches => BatchRange(i, bs, inputCount)))
  }

  /** Some batch of the first `ceil(total / bs)` holds index `x`. */
  ghost predicate Covered(total: nat, bs: nat, x: nat)
    requires bs > 0
  {
    exists i :: 0 <= i < CeilDiv(total, bs) && BatchRange(i, bs, total).0 <= x < BatchRange(i, bs, total).1
  }

  lemma BatchRangeNonEmpty(total: nat, bs: nat, i: nat)
    requires bs > 0 && i < CeilDiv(total, bs)
    ensures BatchRange(i, bs, total).0 < BatchRange(i, bs, total).1
    ensures BatchRange(i, bs, total).1 - BatchRange(i, bs, total).0 <= bs
  {
    CeilDivSpec(total, bs);
    MulMonotone(i, CeilDiv(total, bs) - 1, bs);
  }

  lemma BatchRangesOrdered(total: nat, bs: nat, i: nat, j: nat)
    requires bs > 0 && i < j
    ensures BatchRange(i, bs, total).1 <= BatchRange(j, bs, total).0
  {
    MulMonotone(i + 1, j, bs);
  }

  lemma BatchRangeCovers(total: nat, bs: nat, x: nat)
    requires bs > 0 && x < total
    ensures Covered(total, bs, x)
  {
    var tb := CeilDiv(total, bs);
    CeilDivSpec(total, bs);
    var q := x / bs;
    DivBounds(x, bs);
    if q >= tb {
      MulMonotone(tb, q, bs);
    }
    assert BatchRange(q, bs, total).0 <= x < BatchRange(q, bs, total).1;
  }

  /** For a positive batch size the `ceil(total / bs)` ranges are non-empty, at most `bs`
      long, in increasing order without overlap, and together cover `0 .. total - 1`. */
  lemma BatchRangesPartition(total: nat, bs: nat)
    requires bs > 0
    ensures forall i :: 0 <= i < CeilDiv(total, bs) ==>
      BatchRange(i, bs, total).0 < BatchRange(i, bs, total).1 &&
      BatchRange(i, bs, total).1 - BatchRange(i, bs, total).0 <= bs
    ensures forall i, j :: 0 <= i < j < CeilDiv(total, bs) ==>
      BatchRange(i, bs, total).1 <= BatchRange(j, bs, total).0
    ensures forall x :: 0 <= x < total ==> Covered(total, bs, x)
  {
    forall i | 0 <= i < CeilDiv(total, bs)
      ensures BatchRange(i, bs, total).0 < BatchRange(i, bs, total).1
      ensures BatchRange(i, bs, total).1 - BatchRange(i, bs, total).0 <= bs
    {
      BatchRangeNonEmpty(total, bs, i);
    }
    forall i, j | 0 <= i < j < CeilDiv(total, bs)
      ensures BatchRange(i, bs, total).1 <= BatchRange(j, bs, total).0
    {
      BatchRangesOrdered(total, bs, i, j);
    }
    forall x | 0 <= x < total
      ensures Covered(total, bs, x)
    {
      BatchRangeCovers(total, bs, x);
    }
  }

  /** The plan divides by zero exactly for a zero batch size, and the pool refuses it exactly
      when there is a batch and the worker count is negative. Zero inputs, a negative batch
      size or zero workers submit nothing; otherwise every one of the `ceil(total / bs)`
      batches is submitted. */
  lemma BatchPlanSpec(inputCount: nat, batchSize: int, workers: int)
    ensures var bs := BatchSize(inputCount, batchSize);
      var p := BatchPlan(inputCount, batchSize, workers);
      (p.Crash? <==> bs == 0 || (bs > 0 && inputCount > 0 && workers < 0)) &&
      (p.Ok? && (inputCount == 0 || bs < 0 || workers == 0) ==> p.value == []) &&
      (p.Ok? && bs > 0 && inputCount > 0 && workers > 0 ==>
        |p.value| == CeilDiv(inputCount, bs) > 0 &&
        forall i :: 0 <= i < |p.value| ==> p.value[i] == BatchRange(i, bs, inputCount))
  {
    var bs := BatchSize(inputCount, batchSize);
    if bs > 0 {
      CeilDivSpec(inputCount, bs);
    }
  }

  // ---------------------------------------------------------------------------------------
  // process_single_batch and the collection of results (42-127)
  // ---------------------------------------------------------------------------------------

  /** Python's `xs[start:end]` for non-negative bounds. */
  function Slice<T>(xs: seq<T>, start: nat, end: nat): (r: seq<T>)
    ensures start <= end <= |xs| ==> r == xs[start..end]
    ensures |r| <= |xs|
  {
    var e := if end < |xs| then end else |xs|;
    if start >= e then [] else xs[start..e]
  }

  /** The filenames listed in a batch's prompt: `item.get('filename', f'image_{start + i}')`,
      numbered from the batch's start in the whole input. */
  function PromptNames(items: seq<Option<string>>, start: nat): (names: seq<string>)
    ensures |names| == |items|
    ensures forall i :: 0 <= i < |items| && items[i].Some? ==> names[i] == items[i].value
    ensures forall i :: 0 <= i < |items| && items[i].None? ==> names[i] == DefaultName(start + i)
  {
    seq(|items|, i requires 0 <= i < |items| => items[i].GetOr(DefaultName(start + i)))
  }

  /** The model's decoded answer list for a prompt naming these files and these images; the
      request, the reply's JSON and every failure (which yields `[]`) are folded into it. */
  type Ask<!I> = (seq<string>, seq<I>) -> seq<AiResponse>

  /** `process_single_batch`: the answers for one range, renamed with the batch's own slice of
      the filename items. */
  function BatchResult<I>(items: seq<Option<string>>, inputs: seq<I>, range: (nat, nat), ask: Ask<I>): seq<AiResponse> {
    var local := Slice(items, range.0, range.1);
    var answers := ask(PromptNames(local, range.0), Slice(inputs, range.0, range.1));
    WithOriginalFilenames(answers, local)
  }

  /** `get_pois_for_batch`: the results of all batches, listed in batch order. */
  function GetPoisForBatch<I>(items: seq<Option<string>>, inputs: seq<I>, batchSize: int, workers: int, ask: Ask<I>): Outcome<seq<AiResponse>> {
    var ranges :- BatchPlan(|inputs|, batchSize, workers);
    Ok(Concat(seq(|ranges|, i requires 0 <= i < |ranges| => BatchResult(items, inputs, ranges[i], ask))))
  }

  /** Without inputs nothing is asked and the result is `[]` (unless the batch size is zero).
      Otherwise every result is an answer of one batch range, renamed from that batch's slice,
      and every such answer is among the results. */
  lemma GetPoisForBatchSpec<I>(items: seq<Option<string>>, inputs: seq<I>, batchSize: int, workers: int, ask: Ask<I>, x: AiResponse)
    requires GetPoisForBatch(items, inputs, batchSize, workers, ask).Ok?
    ensures BatchPlan(|inputs|, batchSize, workers).Ok?
    ensures inputs == [] ==> GetPoisForBatch(items, inputs, batchSize, workers, ask).value == []
    ensures var ranges := BatchPlan(|inputs|, batchSize, workers).value;
      x in GetPoisForBatch(items, inputs, batchSize, workers, ask).value <==>
      exists i :: 0 <= i < |ranges| && x in BatchResult(items, inputs, ranges[i], ask)
  {
    var ranges := BatchPlan(|inputs|, batchSize, workers).value;
    BatchPlanSpec(|inputs|, batchSize, workers);
    var results := seq(|ranges|, i requires 0 <= i < |ranges| => BatchResult(items, inputs, ranges[i], ask));
    ConcatMember(results, x);
    if exists i :: 0 <= i < |ranges| && x in BatchResult(items, inputs, ranges[i], ask) {
      var i :| 0 <= i < |ranges| && x in BatchResult(items, inputs, ranges[i], ask);
      assert x in results[i];
    }
    if exists i :: 0 <= i < |results| && x in results[i] {
      var i :| 0 <= i < |results| && x in results[i];
      assert x in BatchResult(items, inputs, ranges[i], ask);
    }
  }

  // ---------------------------------------------------------------------------------------
  // The batch-local fallback name (54 against 96)
  // ---------------------------------------------------------------------------------------

  /** The prompt numbers a nameless image of the second batch `image_5` (its place in the whole
      input), but the renaming numbers the same image `image_0` (its place in the batch), the
      name a nameless image of the first batch also gets. */
  lemma LocalFallbackNameClash()
    ensures var items: seq<Option<string>> := [None, None, None, None, None, None];
      var inputs := [0, 1, 2, 3, 4, 5];
      var one: Ask<int> := (names: seq<string>, imgs: seq<int>) => [AiResponse(None, map[])];
      var ranges := BatchPlan(6, DefaultBatchSize, 10).value;
      |ranges| == 2 && ranges[0] == (0, 5) && ranges[1] == (5, 6) &&
      PromptNames(Slice(items, 5, 6), 5) == ["image_5"] &&
      BatchResult(items, inputs, ranges[1], one) == [AiResponse(Some("image_0"), map[])] &&
      BatchResult(items, inputs, ranges[0], one) == [AiResponse(Some("image_0"), map[])]
  {
    var items: seq<Option<string>> := [None, None, None, None, None, None];
    var inputs := [0, 1, 2, 3, 4, 5];
    var one: Ask<int> := (names: seq<string>, imgs: seq<int>) => [AiResponse(None, map[])];
    assert CeilDiv(6, 5) == 2;
    assert DefaultName(5) == "image_5";
    assert DefaultName(0) == "image_0";
    assert Slice(items, 5, 6) == [None];
    assert PromptNames([None], 5) == ["image_5"];
    var answer := [AiResponse(None, map[])];
    assert WithOriginalFilenames(answer, [None]) == [AiResponse(Some("image_0"), map[])] by {
      assert answer[..0] == [];
    }
    assert WithOriginalFilenames(answer, Slice(items, 0, 5)) == [AiResponse(Some("image_0"), map[])] by {
      assert answer[..0] == [];
    }
  }

  /** The renaming with the batch's offset: the image at place `index` of the batch falls back
      to its name in the whole input. */
  function RenamedFrom(r: AiResponse, images: seq<Option<string>>, start: nat, index: nat): AiResponse {
    if index < |images| then r.(filename := Some(images[index].GetOr(DefaultName(start + index)))) else r
  }

  function WithOriginalFilenamesFrom(rs: seq<AiResponse>, images: seq<Option<string>>, start: nat): seq<AiResponse> {
    if rs == [] then []
    else WithOriginalFilenamesFrom(rs[..|rs| - 1], images, start) + [RenamedFrom(rs[|rs| - 1], images, start, |rs| - 1)]
  }

  /** The batch's answers renamed with the names its prompt listed. */
  function BatchResultCorrected<I>(items: seq<Option<string>>, inputs: seq<I>, range: (nat, nat), ask: Ask<I>): seq<AiResponse> {
    var local := Slice(items, range.0, range.1);
    var answers := ask(PromptNames(local, range.0), Slice(inputs, range.0, range.1));
    WithOriginalFilenamesFrom(answers, local, range.0)
  }

  /** With the offset, the answer at each place of a batch carries exactly the filename the
      prompt listed for that place, and the rest of it is unchanged. */
  lemma {:induction false} WithOriginalFilenamesFromSpec(rs: seq<AiResponse>, images: seq<Option<string>>, start: nat)
    ensures var out := WithOriginalFilenamesFrom(rs, images, start);
      |out| == |rs| &&
      (forall i :: 0 <= i < |rs| ==>
        out[i].other == rs[i].other &&
        (i < |images| ==> out[i].filename == Some(PromptNames(images, start)[i])) &&
        (i >= |images| ==> out[i] == rs[i]))
  {
    if rs != [] {
      var n := |rs| - 1;
      WithOriginalFilenamesFromSpec(rs[..n], images, start);
      RenamedFromSpec(rs[n], images, start, n);
      assert forall i :: 0 <= i < n ==> rs[..n][i] == rs[i];
    }
  }

  /** One answer renamed: the filename the prompt listed at its place, the rest unchanged. */
  lemma RenamedFromSpec(r: AiResponse, images: seq<Option<string>>, start: nat, index: nat)
    ensures RenamedFrom(r, images, start, index).other == r.other
    ensures index < |images| ==> RenamedFrom(r, images, start, index).filename == Some(PromptNames(images, start)[index])
    ensures index >= |images| ==> RenamedFrom(r, images, start, index) == r
  {
  }

  /** Nameless images of different batches no longer share a name: in the corrected batch
      result, the answer at place `k` of batch range `(s, e)` is named after item `s + k`. */
  lemma BatchResultCorrectedNames<I>(items: seq<Option<string>>, inputs: seq<I>, range: (nat, nat), ask: Ask<I>, k: nat)
    requires range.0 <= range.1 <= |items|
    requires k < range.1 - range.0
    requires k < |BatchResultCorrected(items, inputs, range, ask)|
    ensures BatchResultCorrected(items, inputs, range, ask)[k].filename ==
      Some(items[range.0 + k].GetOr(DefaultName(range.0 + k)))
  {
    var local := Slice(items, range.0, range.1);
    var answers := ask(PromptNames(local, range.0), Slice(inputs, range.0, range.1));
    WithOriginalFilenamesFromSpec(answers, local, range.0);
  }
}
