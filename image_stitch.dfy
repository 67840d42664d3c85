/** The geometry of est-v2-image-stiching/utils.py: the resize rule and quality ladder of the
    JPEG compressor, the grid in which `stitch_images` pastes the pictures, and the dashed
    borders it draws around them. Pixels, JPEG bytes and PIL itself are not modelled: the
    encoder is a size function and the canvas records what is pasted and filled. */
module ImageStitch {
  import opened Wrappers
  import opened Arith
  import opened Sequences
  import PyText
  import PdfText

  // ---------------------------------------------------------------------------------------
  // compress_image_for_damage_detection (37-97)
  // ---------------------------------------------------------------------------------------

  datatype Dims = Dims(width: nat, height: nat)

  /** The defaults of `max_size_kb` and `max_dimension`. */
  const MaxSizeKb := 500
  const MaxDimension := 1200

  /** The dimensions after the first resize: a longer side above `maxDim` becomes `maxDim` and
      the other side is scaled by the same factor, rounded down. */
  function ResizeDims(d: Dims, maxDim: nat): Dims {
    if d.width <= maxDim && d.height <= maxDim then d
    else if d.width > d.height then Dims(maxDim, Scaled(d.height, maxDim, d.width))
    else Dims(Scaled(d.width, maxDim, d.height), maxDim)
  }

  /** `int(side * ratio)` with `ratio = maxDim / longer`, rounded down. */
  function Scaled(side: nat, maxDim: nat, longer: nat): nat
    requires longer > 0
  {
    side * maxDim / longer
  }

  /** `a / b <= c` whenever `a <= b * c`. */
  lemma DivAtMost(a: nat, b: nat, c: nat)
    requires b > 0 && a <= b * c
    ensures a / b <= c
  {
    DivBounds(a, b);
    if a / b > c {
      MulMonotone(c + 1, a / b, b);
    }
  }

  /** The shorter side scaled by `maxDim / longer` and rounded down: it neither grows nor
      exceeds `maxDim`. */
  lemma ScaledSide(longer: nat, shorter: nat, maxDim: nat)
    requires shorter <= longer && maxDim < longer
    ensures var r := shorter * maxDim / longer;
      r <= shorter && r <= maxDim && r * longer <= shorter * maxDim < (r + 1) * longer
  {
    var a := shorter * maxDim;
    DivBounds(a, longer);
    MulMonotone(maxDim, longer, shorter);
    DivAtMost(a, longer, shorter);
    MulMonotone(shorter, longer, maxDim);
    DivAtMost(a, longer, maxDim);
  }

  /** Dimensions within `maxDim` are kept. Otherwise the longer side becomes `maxDim` and the
      shorter one is `floor(shorter * maxDim / longer)`, which neither exceeds `maxDim` nor
      grows. */
  lemma ResizeDimsSpec(d: Dims, maxDim: nat)
    ensures var r := ResizeDims(d, maxDim);
      (d.width <= maxDim && d.height <= maxDim ==> r == d) &&
      (d.width > maxDim && d.width > d.height ==>
        r.width == maxDim && r.height <= d.height && r.height <= maxDim &&
        r.height * d.width <= d.height * maxDim < (r.height + 1) * d.width) &&
      (d.height > maxDim && d.width <= d.height ==>
        r.height == maxDim && r.width <= d.width && r.width <= maxDim &&
        r.width * d.height <= d.width * maxDim < (r.width + 1) * d.height)
  {
    if d.width > maxDim && d.width > d.height {
      ScaledSide(d.width, d.height, maxDim);
    } else if d.height > maxDim && d.width <= d.height {
      ScaledSide(d.height, d.width, maxDim);
    }
  }

  /** `int(side * 0.8)` on both sides. */
  function Shrunk(d: Dims): Dims {
    Dims(d.width * 4 / 5, d.height * 4 / 5)
  }

  /** `range(top, 20, -5)`. */
  function Qualities(top: int): seq<int>
    decreases top
  {
    if top <= 20 then [] else [top] + Qualities(top - 5)
  }

  /** For a multiple of five from 20 up, the ladder is `top, top - 5, ..., 25`. */
  lemma {:induction false} QualitiesSpec(top: int)
    requires top >= 20 && top % 5 == 0
    ensures |Qualities(top)| == (top - 20) / 5
    ensures forall k :: 0 <= k < |Qualities(top)| ==> Qualities(top)[k] == top - 5 * k
    decreases top
  {
    if top > 20 {
      QualitiesSpec(top - 5);
    }
  }

  /** The JPEG encoder: the byte size of the image at these dimensions saved at this quality. */
  type Encoder = (Dims, int) -> nat

  /** What the compressor returns: the dimensions and quality of the saved image, and its size. */
  datatype Encoding = Encoding(dims: Dims, quality: int, size: nat)

  /** The first quality of `qs` whose encoding fits in `limit` bytes. */
  function FirstFit(qs: seq<int>, d: Dims, size: Encoder, limit: int): Option<int> {
    if qs == [] then None
    else if size(d, qs[0]) <= limit then Some(qs[0])
    else FirstFit(qs[1..], d, size, limit)
  }

  /** A found quality fits and every quality tried before it does not; nothing is found only
      when no quality fits. */
  lemma {:induction false} FirstFitSpec(qs: seq<int>, d: Dims, size: Encoder, limit: int)
    ensures FirstFit(qs, d, size, limit).Some? ==>
      exists k :: 0 <= k < |qs| && qs[k] == FirstFit(qs, d, size, limit).value &&
        size(d, qs[k]) <= limit && forall j :: 0 <= j < k ==> size(d, qs[j]) > limit
    ensures FirstFit(qs, d, size, limit).None? <==> forall j :: 0 <= j < |qs| ==> size(d, qs[j]) > limit
  {
    if qs != [] {
      FirstFitSpec(qs[1..], d, size, limit);
      if size(d, qs[0]) > limit && FirstFit(qs, d, size, limit).Some? {
        var k :| 0 <= k < |qs[1..]| && qs[1..][k] == FirstFit(qs, d, size, limit).value &&
          size(d, qs[1..][k]) <= limit && forall j :: 0 <= j < k ==> size(d, qs[1..][j]) > limit;
        assert qs[k + 1] == qs[1..][k];
        forall j | 0 <= j < k + 1
          ensures size(d, qs[j]) > limit
        {
          if j > 0 {
            assert qs[j] == qs[1..][j - 1];
          }
        }
      }
      if size(d, qs[0]) > limit && FirstFit(qs, d, size, limit).None? {
        forall j | 0 <= j < |qs|
          ensures size(d, qs[j]) > limit
        {
          if j > 0 {
            assert qs[j] == qs[1..][j - 1];
          }
        }
      }
    }
  }

  /** The compressor on an image of dimensions `d0`. */
  function Compress(d0: Dims, maxSizeKb: int, maxDim: nat, size: Encoder): Encoding {
    var d := ResizeDims(d0, maxDim);
    var limit := maxSizeKb * 1024;
    match FirstFit(Qualities(95), d, size, limit)
    case Some(q) => Encoding(d, q, size(d, q))
    case None =>
      var s := Shrunk(d);
      match FirstFit(Qualities(85), s, size, limit)
      case Some(q) => Encoding(s, q, size(s, q))
      case None => Encoding(s, 30, size(s, 30))
  }

  /** Rung `k` of the ladder from `top` is quality `top - 5 * k`. */
  function Rung(top: int, k: int): int {
    top - 5 * k
  }

  /** The number of rungs of the ladder from `top`: they run down to 25. */
  function Rungs(top: int): int {
    if top <= 20 then 0 else (top - 20) / 5
  }

  /** `q` is the highest quality from `top` down to 25, in steps of five, whose encoding fits. */
  ghost predicate HighestFit(top: int, d: Dims, size: Encoder, limit: int, q: int) {
    exists k :: 0 <= k < Rungs(top) && q == Rung(top, k) && size(d, q) <= limit &&
      forall j :: 0 <= j < k ==> size(d, Rung(top, j)) > limit
  }

  /** No quality from `top` down to 25 fits. */
  ghost predicate NoneFits(top: int, d: Dims, size: Encoder, limit: int) {
    forall k :: 0 <= k < Rungs(top) ==> size(d, Rung(top, k)) > limit
  }

  /** The first fit on a ladder is the highest fitting quality; there is none exactly when no
      quality of the ladder fits. */
  lemma LadderFit(top: int, d: Dims, size: Encoder, limit: int)
    requires top >= 20 && top % 5 == 0
    ensures var r := FirstFit(Qualities(top), d, size, limit);
      (r.None? <==> NoneFits(top, d, size, limit)) &&
      (r.Some? ==> HighestFit(top, d, size, limit, r.value))
  {
    if FirstFit(Qualities(top), d, size, limit).Some? {
      LadderFitSome(top, d, size, limit);
    } else {
      LadderFitNone(top, d, size, limit);
    }
  }

  /** A quality found is the highest fitting one, so some quality fits. */
  lemma LadderFitSome(top: int, d: Dims, size: Encoder, limit: int)
    requires top >= 20 && top % 5 == 0
    requires FirstFit(Qualities(top), d, size, limit).Some?
    ensures HighestFit(top, d, size, limit, FirstFit(Qualities(top), d, size, limit).value)
    ensures !NoneFits(top, d, size, limit)
  {
    var qs := Qualities(top);
    var q := FirstFit(qs, d, size, limit).value;
    FirstFitSpec(qs, d, size, limit);
    var k :| 0 <= k < |qs| && qs[k] == q && size(d, qs[k]) <= limit &&
      forall j :: 0 <= j < k ==> size(d, qs[j]) > limit;
    QualityAt(top, k);
    forall j | 0 <= j < k
      ensures size(d, Rung(top, j)) > limit
    {
      QualityAt(top, j);
    }
    assert 0 <= k < Rungs(top) && q == Rung(top, k) && size(d, q) <= limit;
  }

  /** Rung `k` of the ladder holds quality `top - 5 * k`. */
  lemma QualityAt(top: int, k: int)
    requires top >= 20 && top % 5 == 0
    requires 0 <= k < |Qualities(top)|
    ensures k < Rungs(top) && Qualities(top)[k] == Rung(top, k)
  {
    QualitiesRungs(top);
  }

  /** Nothing is found only when no quality fits. */
  lemma LadderFitNone(top: int, d: Dims, size: Encoder, limit: int)
    requires top >= 20 && top % 5 == 0
    requires FirstFit(Qualities(top), d, size, limit).None?
    ensures NoneFits(top, d, size, limit)
  {
    var qs := Qualities(top);
    QualitiesRungs(top);
    FirstFitSpec(qs, d, size, limit);
    forall k | 0 <= k < Rungs(top)
      ensures size(d, Rung(top, k)) > limit
    {
      assert qs[k] == Rung(top, k);
    }
  }

  /** The ladder from `top` has one quality per rung, rung `k` holding `top - 5 * k`. */
  lemma QualitiesRungs(top: int)
    requires top >= 20 && top % 5 == 0
    ensures |Qualities(top)| == Rungs(top)
    ensures forall k :: 0 <= k < Rungs(top) ==> Qualities(top)[k] == Rung(top, k)
  {
    QualitiesSpec(top);
    if top == 20 {
      assert (top - 20) / 5 == 0;
    }
  }

  /** The highest quality from 95 down to 25 that fits the resized image, if any; else the
      highest from 85 down to 25 that fits the image shrunk by a fifth, if any; else quality
      30 on the shrunk image, whatever its size. The size returned is that encoding's. */
  lemma CompressSpec(d0: Dims, maxSizeKb: int, maxDim: nat, size: Encoder)
    ensures var r := Compress(d0, maxSizeKb, maxDim, size);
      var d := ResizeDims(d0, maxDim);
      var limit := maxSizeKb * 1024;
      r.size == size(r.dims, r.quality) &&
      (!NoneFits(95, d, size, limit) ==> r.dims == d && HighestFit(95, d, size, limit, r.quality)) &&
      (NoneFits(95, d, size, limit) && !NoneFits(85, Shrunk(d), size, limit) ==>
        r.dims == Shrunk(d) && HighestFit(85, Shrunk(d), size, limit, r.quality)) &&
      (NoneFits(95, d, size, limit) && NoneFits(85, Shrunk(d), size, limit) ==>
        r.dims == Shrunk(d) && r.quality == 30)
  {
    var d := ResizeDims(d0, maxDim);
    var limit := maxSizeKb * 1024;
    LadderFit(95, d, size, limit);
    LadderFit(85, Shrunk(d), size, limit);
  }

  /** One quality loop: save at `top`, `top - 5`, ... down to 25 and stop at the first that fits. */
  method FirstFitting(top: int, d: Dims, size: Encoder, limit: int) returns (found: Option<int>)
    requires top >= 20 && top % 5 == 0
    ensures found == FirstFit(Qualities(top), d, size, limit)
  {
    var quality := top;
    while quality > 20
      invariant 20 <= quality <= top && quality % 5 == 0
      invariant FirstFit(Qualities(top), d, size, limit) == FirstFit(Qualities(quality), d, size, limit)
      decreases quality
    {
      var bufferSize := size(d, quality);
      if bufferSize <= limit {
        return Some(quality);
      }
      quality := quality - 5;
    }
    found := None;
  }

  /** `compress_image_for_damage_detection` on an image of dimensions `d0`. */
  method CompressImageForDamageDetection(d0: Dims, maxSizeKb: int, maxDim: nat, size: Encoder) returns (r: Encoding)
    ensures r == Compress(d0, maxSizeKb, maxDim, size)
  {
    var img := ResizeDims(d0, maxDim);
    var maxSizeBytes := maxSizeKb * 1024;
    var first := FirstFitting(95, img, size, maxSizeBytes);
    if first.Some? {
      return Encoding(img, first.value, size(img, first.value));
    }
    img := Shrunk(img);
    var second := FirstFitting(85, img, size, maxSizeBytes);
    if second.Some? {
      return Encoding(img, second.value, size(img, second.value));
    }
    r := Encoding(img, 30, size(img, 30));
  }

  // ---------------------------------------------------------------------------------------
  // The picture filter and the grid of stitch_images (142-170)
  // ---------------------------------------------------------------------------------------

  /** The suffix test on the lower-cased path; "gif" and "webp" carry no dot. */
  predicate IsImagePath(path: string, lower: char -> char) {
    var p := PdfText.Lowercase(path, lower);
    PyText.EndsWith(p, ".png") || PyText.EndsWith(p, ".jpg") || PyText.EndsWith(p, ".jpeg") ||
    PyText.EndsWith(p, "gif") || PyText.EndsWith(p, "webp")
  }

  function ImageRule(lower: char -> char): string -> Option<string> {
    path => if IsImagePath(path, lower) then Some(path) else None
  }

  /** The paths that are opened, in their order. */
  function ImagePaths(paths: seq<string>, lower: char -> char): seq<string> {
    FilterMap(paths, ImageRule(lower))
  }

  /** A path is stitched exactly when it is given and passes the suffix test. */
  lemma ImagePathsSpec(paths: seq<string>, lower: char -> char, p: string)
    ensures p in ImagePaths(paths, lower) <==> p in paths && IsImagePath(p, lower)
    ensures |ImagePaths(paths, lower)| <= |paths|
  {
    FilterMapKeeps(paths, ImageRule(lower));
    if p in ImagePaths(paths, lower) {
      FilterMapMember(paths, ImageRule(lower), p);
    }
    if p in paths && IsImagePath(p, lower) {
      var i :| 0 <= i < |paths| && paths[i] == p;
      assert ImageRule(lower)(paths[i]) == Some(p);
    }
  }

  /** Without the dot, a path merely ending in the letters "gif" is taken for a picture. */
  lemma SuffixWithoutDot()
    ensures IsImagePath("notes.notgif", c => c)
  {
    var p := PdfText.Lowercase("notes.notgif", c => c);
    assert p == "notes.notgif";
    assert p[|p| - 3..] == "gif";
  }

  /** The least `g >= from` with `g * g >= n`. */
  function GridFrom(n: nat, from: nat): nat
    decreases n - from
  {
    if from * from >= n then from
    else
      SquareAtLeast(from);
      GridFrom(n, from + 1)
  }

  lemma SquareAtLeast(x: nat)
    ensures x <= x * x
  {
    if x > 0 {
      MulMonotone(1, x, x);
    }
  }

  /** `ceil(sqrt(n))`: the least `g` with `g * g >= n`. */
  function GridSize(n: nat): nat {
    GridFrom(n, 0)
  }

  lemma {:induction false} GridFromSpec(n: nat, from: nat)
    requires from == 0 || (from - 1) * (from - 1) < n
    ensures var g := GridFrom(n, from);
      g * g >= n && (g == 0 || (g - 1) * (g - 1) < n) && g >= from
    decreases n - from
  {
    if from * from < n {
      SquareAtLeast(from);
      GridFromSpec(n, from + 1);
    }
  }

  lemma GridPositive(n: nat)
    requires n > 0
    ensures GridSize(n) > 0
  {
    GridSizeSpec(n);
  }

  /** The grid is the least square holding `n` pictures; it is empty only for no picture. */
  lemma GridSizeSpec(n: nat)
    ensures var g := GridSize(n);
      g * g >= n && (g == 0 || (g - 1) * (g - 1) < n) && (g == 0 <==> n == 0)
  {
    GridFromSpec(n, 0);
  }

  /** A pasted picture: its path, its top-left corner and its resized size. */
  datatype Tile = Tile(path: string, x: int, y: int, width: int, height: int)

  /** The tile of picture `idx` in a grid of `g` columns of `w` by `h` tiles. */
  function Place(path: string, idx: nat, g: nat, w: nat, h: nat): Tile
    requires g > 0
  {
    Tile(path, (idx % g) * w, (idx / g) * h, w, h)
  }

  /** The tiles of `images` on an `outW` by `outH` canvas: picture `idx` goes to column
      `idx % g` and row `idx // g` of tiles `outW // g` by `outH // g`. No picture leaves the
      grid empty and the tile size divides by zero. */
  function Layout(images: seq<string>, outW: nat, outH: nat): Outcome<seq<Tile>> {
    var g := GridSize(|images|);
    if g == 0 then Crash("ZeroDivisionError: integer division or modulo by zero")
    else Ok(seq(|images|, idx requires 0 <= idx < |images| => Place(images[idx], idx, g, outW / g, outH / g)))
  }

  /** Cell `c` of `g` cells of size `w` ends within `g * w`. */
  lemma CellInside(c: nat, g: nat, w: nat)
    requires c < g
    ensures c * w + w <= g * w
  {
    MulMonotone(c + 1, g, w);
  }

  /** Cells `a < b` of size `w` do not overlap. */
  lemma CellsOrdered(a: nat, b: nat, w: nat)
    requires a < b
    ensures a * w + w <= b * w
  {
    MulMonotone(a + 1, b, w);
  }

  /** Fewer than `g * g` pictures fill fewer than `g` rows. */
  lemma RowInside(idx: nat, n: nat, g: nat)
    requires 0 < g && idx < n <= g * g
    ensures idx / g < g
  {
    DivBounds(idx, g);
    if idx / g >= g {
      MulMonotone(g, idx / g, g);
    }
  }

  /** Different pictures differ in column or row. */
  lemma CellsDiffer(i: nat, j: nat, g: nat)
    requires 0 < g && i != j
    ensures i % g != j % g || i / g != j / g
  {
    DivBounds(i, g);
    DivBounds(j, g);
  }

  /** Distinct cells of a grid of `w` by `h` tiles do not overlap. */
  lemma CellsApart(ci: nat, ri: nat, cj: nat, rj: nat, w: nat, h: nat)
    requires ci != cj || ri != rj
    ensures ci * w + w <= cj * w || cj * w + w <= ci * w || ri * h + h <= rj * h || rj * h + h <= ri * h
  {
    if ci < cj {
      CellsOrdered(ci, cj, w);
    } else if cj < ci {
      CellsOrdered(cj, ci, w);
    } else if ri < rj {
      CellsOrdered(ri, rj, h);
    } else {
      CellsOrdered(rj, ri, h);
    }
  }

  /** The tile of picture `idx` lies within the canvas. */
  lemma TileInside(n: nat, idx: nat, outW: nat, outH: nat)
    requires idx < n
    ensures GridSize(n) > 0
    ensures var t := Place("", idx, GridSize(n), outW / GridSize(n), outH / GridSize(n));
      0 <= t.x && t.x + t.width <= outW && 0 <= t.y && t.y + t.height <= outH
  {
    var g := GridSize(n);
    GridSizeSpec(n);
    var w := outW / g;
    var h := outH / g;
    DivBounds(outW, g);
    DivBounds(outH, g);
    CellInside(idx % g, g, w);
    RowInside(idx, n, g);
    CellInside(idx / g, g, h);
  }

  /** Two pictures never overlap. */
  lemma TilesApart(n: nat, i: nat, j: nat, outW: nat, outH: nat)
    requires i < n && j < n && i != j
    ensures GridSize(n) > 0
    ensures var g := GridSize(n);
      var s := Place("", i, g, outW / g, outH / g);
      var t := Place("", j, g, outW / g, outH / g);
      s.x + s.width <= t.x || t.x + t.width <= s.x || s.y + s.height <= t.y || t.y + t.height <= s.y
  {
    var g := GridSize(n);
    GridPositive(n);
    CellsDiffer(i, j, g);
    var w, h := outW / g, outH / g;
    CellsApart(i % g, i / g, j % g, j / g, w, h);
    assert Place("", i, g, w, h).x == (i % g) * w && Place("", j, g, w, h).x == (j % g) * w;
  }

  /** Without a picture the layout fails; otherwise picture `idx` is tile `idx`, placed at
      `((idx % g) * w, (idx // g) * h)` for the least square grid `g`, inside the canvas, and
      apart from every other tile. */
  lemma LayoutSpec(images: seq<string>, outW: nat, outH: nat)
    ensures Layout(images, outW, outH).Crash? <==> images == []
    ensures var r := Layout(images, outW, outH);
      var g := GridSize(|images|);
      r.Ok? ==>
        g * g >= |images| > (g - 1) * (g - 1) &&
        |r.value| == |images| &&
        (forall idx :: 0 <= idx < |images| ==>
          r.value[idx] == Place(images[idx], idx, g, outW / g, outH / g) &&
          0 <= r.value[idx].x && r.value[idx].x + r.value[idx].width <= outW &&
          0 <= r.value[idx].y && r.value[idx].y + r.value[idx].height <= outH) &&
        (forall i, j :: 0 <= i < |images| && 0 <= j < |images| && i != j ==>
          r.value[i].x + r.value[i].width <= r.value[j].x || r.value[j].x + r.value[j].width <= r.value[i].x ||
          r.value[i].y + r.value[i].height <= r.value[j].y || r.value[j].y + r.value[j].height <= r.value[i].y)
  {
    GridSizeSpec(|images|);
    var r := Layout(images, outW, outH);
    if r.Ok? {
      forall idx | 0 <= idx < |images|
        ensures 0 <= r.value[idx].x && r.value[idx].x + r.value[idx].width <= outW
        ensures 0 <= r.value[idx].y && r.value[idx].y + r.value[idx].height <= outH
      {
        TileInside(|images|, idx, outW, outH);
      }
      forall i, j | 0 <= i < |images| && 0 <= j < |images| && i != j
        ensures r.value[i].x + r.value[i].width <= r.value[j].x || r.value[j].x + r.value[j].width <= r.value[i].x ||
          r.value[i].y + r.value[i].height <= r.value[j].y || r.value[j].y + r.value[j].height <= r.value[i].y
      {
        TilesApart(|images|, i, j, outW, outH);
      }
    }
  }

  // ---------------------------------------------------------------------------------------
  // _draw_dashed_line and _draw_dashed_rectangle (172-235)
  // ---------------------------------------------------------------------------------------

  /** A filled rectangle, corners included, as PIL's `draw.rectangle` takes it. */
  datatype Rect = Rect(x0: int, y0: int, x1: int, y1: int)

  /** Line width, dash length and gap length. */
  datatype Style = Style(width: int, dash: int, gap: int)

  /** The borders `stitch_images` draws: width 3, dashes of 10, gaps of 5. */
  const BorderStyle := Style(3, 10, 5)

  datatype Line = Line(x1: int, y1: int, x2: int, y2: int)

  function Abs(a: int): nat {
    if a < 0 then -a else a
  }

  predicate Vertical(l: Line) {
    l.x1 == l.x2
  }

  /** The extent measured along the line's axis. */
  function Length(l: Line): nat {
    if Vertical(l) then Abs(l.y2 - l.y1) else Abs(l.x2 - l.x1)
  }

  /** `int(total / (dash + gap))`: a negative quotient truncates to no dash at all. */
  function DashCount(total: nat, period: int): nat
    requires period != 0
  {
    if period < 0 then 0 else total / period
  }

  /** Dash `i`, from `i * (dash + gap)` to `dash` further along the line, `width // 2` to each
      side of it. */
  function Dash(l: Line, st: Style, i: nat): Rect {
    var start := i * (st.dash + st.gap);
    var end := start + st.dash;
    if Vertical(l) then Rect(l.x1 - st.width / 2, Min(l.y1, l.y2) + start, l.x1 + st.width / 2, Min(l.y1, l.y2) + end)
    else Rect(Min(l.x1, l.x2) + start, l.y1 - st.width / 2, Min(l.x1, l.x2) + end, l.y1 + st.width / 2)
  }

  /** The first `k` dashes, in drawing order. */
  function Dashes(l: Line, st: Style, k: nat): seq<Rect> {
    if k == 0 then [] else Dashes(l, st, k - 1) + [Dash(l, st, k - 1)]
  }

  /** The rectangles `_draw_dashed_line` fills. */
  function DashedLine(l: Line, st: Style): Outcome<seq<Rect>> {
    var period := st.dash + st.gap;
    if period == 0 then Crash("ZeroDivisionError: division by zero")
    else Ok(Dashes(l, st, DashCount(Length(l), period)))
  }

  lemma {:induction false} DashesSpec(l: Line, st: Style, k: nat)
    ensures |Dashes(l, st, k)| == k
    ensures forall i :: 0 <= i < k ==> Dashes(l, st, k)[i] == Dash(l, st, i)
  {
    if k > 0 {
      DashesSpec(l, st, k - 1);
    }
  }

  /** Dash `i` of `n = floor(length / period)` dashes stays inside the segment. */
  lemma DashInside(l: Line, st: Style, i: nat)
    requires st.dash >= 0 && st.gap >= 0 && st.dash + st.gap > 0
    requires i < DashCount(Length(l), st.dash + st.gap)
    ensures var r := Dash(l, st, i);
      if Vertical(l) then Min(l.y1, l.y2) <= r.y0 <= r.y1 <= Min(l.y1, l.y2) + Length(l)
      else Min(l.x1, l.x2) <= r.x0 <= r.x1 <= Min(l.x1, l.x2) + Length(l)
  {
    SlotInside(Length(l), st.dash + st.gap, st.dash, i);
  }

  /** A zero period divides by zero. Otherwise the line is vertical exactly when `x1 == x2`,
      it gets `floor(length / (dash + gap))` dashes (none for a negative period), and dash `i`
      spans `dash` from `i * (dash + gap)` past the smaller end, `width // 2` to either side of
      the line; with non-negative lengths every dash stays inside the segment. */
  lemma DashedLineSpec(l: Line, st: Style)
    ensures DashedLine(l, st).Crash? <==> st.dash + st.gap == 0
    ensures var period := st.dash + st.gap;
      var r := DashedLine(l, st);
      r.Ok? ==>
        |r.value| == (if period < 0 then 0 else Length(l) / period) &&
        (forall i :: 0 <= i < |r.value| ==>
          var lo := if Vertical(l) then Min(l.y1, l.y2) else Min(l.x1, l.x2);
          var a := if Vertical(l) then r.value[i].y0 else r.value[i].x0;
          var b := if Vertical(l) then r.value[i].y1 else r.value[i].x1;
          a == lo + i * period && b == a + st.dash &&
          (Vertical(l) ==> r.value[i].x0 == l.x1 - st.width / 2 && r.value[i].x1 == l.x1 + st.width / 2) &&
          (!Vertical(l) ==> r.value[i].y0 == l.y1 - st.width / 2 && r.value[i].y1 == l.y1 + st.width / 2) &&
          (st.dash >= 0 && st.gap >= 0 ==> lo <= a <= b <= lo + Length(l)))
  {
    var period := st.dash + st.gap;
    if period != 0 {
      var n := DashCount(Length(l), period);
      DashesSpec(l, st, n);
      forall i | 0 <= i < n && st.dash >= 0 && st.gap >= 0
        ensures var r := Dash(l, st, i);
          if Vertical(l) then Min(l.y1, l.y2) <= r.y0 <= r.y1 <= Min(l.y1, l.y2) + Length(l)
          else Min(l.x1, l.x2) <= r.x0 <= r.x1 <= Min(l.x1, l.x2) + Length(l)
      {
        DashInside(l, st, i);
      }
    }
  }

  /** The four sides of `_draw_dashed_rectangle`: top, bottom, left, right. */
  function DashedRectangle(box: Rect, st: Style): Outcome<seq<Rect>> {
    var top :- DashedLine(Line(box.x0, box.y0, box.x1, box.y0), st);
    var bottom :- DashedLine(Line(box.x0, box.y1, box.x1, box.y1), st);
    var left :- DashedLine(Line(box.x0, box.y0, box.x0, box.y1), st);
    var right :- DashedLine(Line(box.x1, box.y0, box.x1, box.y1), st);
    Ok(top + bottom + left + right)
  }

  /** The border of a tile: from its corner to `size - 1` further on both axes. */
  function BorderBox(t: Tile): Rect {
    Rect(t.x, t.y, t.x + t.width - 1, t.y + t.height - 1)
  }

  /** The dashed borders of `tiles`, in drawing order. */
  function Borders(tiles: seq<Tile>, st: Style): Outcome<seq<Rect>> {
    if tiles == [] then Ok([])
    else
      var before :- Borders(tiles[..|tiles| - 1], st);
      var last :- DashedRectangle(BorderBox(tiles[|tiles| - 1]), st);
      Ok(before + last)
  }

  /** `stitch_images` without the pixels: the tiles pasted and the rectangles filled. */
  function Stitch(paths: seq<string>, lower: char -> char, outW: nat, outH: nat): Outcome<(seq<Tile>, seq<Rect>)> {
    var tiles :- Layout(ImagePaths(paths, lower), outW, outH);
    var rects :- Borders(tiles, BorderStyle);
    Ok((tiles, rects))
  }

  /** A non-empty tile's border box is the tile's own first and last pixel on each axis, so
      the borders of different tiles never touch and all lie on the canvas. */
  lemma BorderBoxesApart(images: seq<string>, outW: nat, outH: nat, i: nat, j: nat)
    requires Layout(images, outW, outH).Ok?
    requires i < |images| && j < |images|
    requires outW >= GridSize(|images|) && outH >= GridSize(|images|)
    ensures var tiles := Layout(images, outW, outH).value;
      var b := BorderBox(tiles[i]);
      0 <= b.x0 <= b.x1 < outW && 0 <= b.y0 <= b.y1 < outH &&
      (i != j ==> var c := BorderBox(tiles[j]);
        b.x1 < c.x0 || c.x1 < b.x0 || b.y1 < c.y0 || c.y1 < b.y0)
  {
    LayoutSpec(images, outW, outH);
    var g := GridSize(|images|);
    DivAtLeastOne(outW, g);
    DivAtLeastOne(outH, g);
  }

  lemma DivAtLeastOne(a: nat, b: nat)
    requires 0 < b <= a
    ensures a / b >= 1
  {
    DivBounds(a, b);
  }

  /** Every stitch with a picture succeeds, and only those. */
  lemma StitchSpec(paths: seq<string>, lower: char -> char, outW: nat, outH: nat)
    ensures Stitch(paths, lower, outW, outH).Ok? <==> ImagePaths(paths, lower) != []
    ensures Stitch(paths, lower, outW, outH).Ok? ==>
      Stitch(paths, lower, outW, outH).value.0 == Layout(ImagePaths(paths, lower), outW, outH).value
  {
    LayoutSpec(ImagePaths(paths, lower), outW, outH);
    var r := Layout(ImagePaths(paths, lower), outW, outH);
    if r.Ok? {
      BordersOk(r.value);
    }
  }

  /** The border style never divides by zero. */
  lemma {:induction false} BordersOk(tiles: seq<Tile>)
    ensures Borders(tiles, BorderStyle).Ok?
  {
    if tiles != [] {
      BordersOk(tiles[..|tiles| - 1]);
    }
  }

  // ---------------------------------------------------------------------------------------
  // The canvas the loops paint on (158-235)
  // ---------------------------------------------------------------------------------------

  /** The stitched image and its drawing context: what has been pasted and filled, in order. */
  class Canvas {
    const width: nat
    const height: nat
    var tiles: seq<Tile>
    var rects: seq<Rect>

    /** `Image.new('RGB', output_size, (255, 255, 255))`: a blank white canvas. */
    constructor (w: nat, h: nat)
      ensures width == w && height == h && tiles == [] && rects == []
    {
      width := w;
      height := h;
      tiles := [];
      rects := [];
    }

    /** `stitched_image.paste(resized_img, (x_offset, y_offset))`. */
    method Paste(t: Tile)
      modifies this
      ensures tiles == old(tiles) + [t] && rects == old(rects)
    {
      tiles := tiles + [t];
    }

    /** `draw.rectangle(box, fill=color)`. */
    method Rectangle(box: Rect)
      modifies this
      ensures rects == old(rects) + [box] && tiles == old(tiles)
    {
      rects := rects + [box];
    }
  }

  /** `_draw_dashed_line`: fill each dash of the line in turn. */
  method DrawDashedLine(draw: Canvas, l: Line, st: Style)
    requires st.dash + st.gap != 0
    modifies draw
    ensures DashedLine(l, st).Ok?
    ensures draw.rects == old(draw.rects) + DashedLine(l, st).value && draw.tiles == old(draw.tiles)
  {
    var totalLength: nat;
    var isVertical: bool;
    if l.x1 == l.x2 {
      totalLength := Abs(l.y2 - l.y1);
      isVertical := true;
    } else {
      totalLength := Abs(l.x2 - l.x1);
      isVertical := false;
    }
    var dashGapLength := st.dash + st.gap;
    var numDashes := DashCount(totalLength, dashGapLength);
    var i := 0;
    while i < numDashes
      invariant 0 <= i <= numDashes
      invariant draw.rects == old(draw.rects) + Dashes(l, st, i) && draw.tiles == old(draw.tiles)
    {
      var startOffset := i * dashGapLength;
      var endOffset := startOffset + st.dash;
      if isVertical {
        var startY := Min(l.y1, l.y2) + startOffset;
        var endY := Min(l.y1, l.y2) + endOffset;
        draw.Rectangle(Rect(l.x1 - st.width / 2, startY, l.x1 + st.width / 2, endY));
      } else {
        var startX := Min(l.x1, l.x2) + startOffset;
        var endX := Min(l.x1, l.x2) + endOffset;
        draw.Rectangle(Rect(startX, l.y1 - st.width / 2, endX, l.y1 + st.width / 2));
      }
      i := i + 1;
    }
  }

  /** `_draw_dashed_rectangle`: the four sides in turn. */
  method DrawDashedRectangle(draw: Canvas, box: Rect, st: Style)
    requires st.dash + st.gap != 0
    modifies draw
    ensures DashedRectangle(box, st).Ok?
    ensures draw.rects == old(draw.rects) + DashedRectangle(box, st).value && draw.tiles == old(draw.tiles)
  {
    DrawDashedLine(draw, Line(box.x0, box.y0, box.x1, box.y0), st);
    DrawDashedLine(draw, Line(box.x0, box.y1, box.x1, box.y1), st);
    DrawDashedLine(draw, Line(box.x0, box.y0, box.x0, box.y1), st);
    DrawDashedLine(draw, Line(box.x1, box.y0, box.x1, box.y1), st);
  }

  /** The borders of one tile more: those before it, then its own. */
  lemma BordersSnoc(tiles: seq<Tile>, i: nat)
    requires i < |tiles|
    ensures Borders(tiles[..i + 1], BorderStyle).Ok? && Borders(tiles[..i], BorderStyle).Ok?
    ensures Borders(tiles[..i + 1], BorderStyle).value ==
      Borders(tiles[..i], BorderStyle).value + DashedRectangle(BorderBox(tiles[i]), BorderStyle).value
  {
    BordersOk(tiles[..i]);
    BordersOk(tiles[..i + 1]);
    assert tiles[..i + 1][..i] == tiles[..i];
  }

  /** One iteration of the paste loop: the picture, then its dashed border. */
  method PasteWithBorder(stitched: Canvas, t: Tile)
    modifies stitched
    ensures DashedRectangle(BorderBox(t), BorderStyle).Ok?
    ensures stitched.tiles == old(stitched.tiles) + [t]
    ensures stitched.rects == old(stitched.rects) + DashedRectangle(BorderBox(t), BorderStyle).value
  {
    stitched.Paste(t);
    var borderWidth := 3;
    var dashLength := 10;
    var gapLength := 5;
    var left := t.x;
    var top := t.y;
    var right := t.x + t.width - 1;
    var bottom := t.y + t.height - 1;
    DrawDashedRectangle(stitched, Rect(left, top, right, bottom), Style(borderWidth, dashLength, gapLength));
  }

  /** `stitch_images`: paste every picture into its cell and draw its dashed border. */
  method StitchImages(imagePaths: seq<string>, lower: char -> char, outW: nat, outH: nat) returns (r: Outcome<Canvas>)
    ensures r.Ok? <==> Stitch(imagePaths, lower, outW, outH).Ok?
    ensures r.Ok? ==>
      fresh(r.value) && r.value.width == outW && r.value.height == outH &&
      (r.value.tiles, r.value.rects) == Stitch(imagePaths, lower, outW, outH).value
  {
    var images := ImagePaths(imagePaths, lower);
    StitchSpec(imagePaths, lower, outW, outH);
    LayoutSpec(images, outW, outH);
    var gridSize := GridSize(|images|);
    if gridSize == 0 {
      return Crash("ZeroDivisionError: integer division or modulo by zero");
    }
    ghost var tiles := Layout(images, outW, outH).value;
    var w := outW / gridSize;
    var h := outH / gridSize;
    var stitched := new Canvas(outW, outH);
    var idx := 0;
    while idx < |images|
      invariant 0 <= idx <= |images|
      invariant fresh(stitched) && stitched.width == outW && stitched.height == outH
      invariant stitched.tiles == tiles[..idx]
      invariant Borders(tiles[..idx], BorderStyle) == Ok(stitched.rects)
    {
      var xOffset := (idx % gridSize) * w;
      var yOffset := (idx / gridSize) * h;
      assert Tile(images[idx], xOffset, yOffset, w, h) == tiles[idx];
      BordersSnoc(tiles, idx);
      PasteWithBorder(stitched, Tile(images[idx], xOffset, yOffset, w, h));
      assert tiles[..idx + 1] == tiles[..idx] + [tiles[idx]];
      idx := idx + 1;
    }
    assert tiles[..|images|] == tiles;
    r := Ok(stitched);
  }
}
