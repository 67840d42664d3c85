/** The parts-catalogue (PSS) pruning of est-v2-get-required-json-data-from-s3/utils.py: the
    labour operation names, the per-level pruning of categories, subcategories, parts and part
    details, the image projection and the vehicle "bio" projection. */
module PssData {
  import opened Wrappers
  import opened PyText
  import opened PdfText
  import opened Sequences

  // ---------------------------------------------------------------------------------------
  // The catalogue as read (keys the code reads; a missing list is the empty list)
  // ---------------------------------------------------------------------------------------

  /** A JSON scalar used as an identifier; `Null` is also what `.get` gives for a missing key. */
  datatype Scalar = Null | Int(i: int) | Str(s: string)

  datatype Callout = Callout(calloutNumber: Scalar, partId: Scalar)

  /** An image as `extract_images` keeps it: its location and callouts. */
  datatype Image = Image(location: Option<string>, callouts: seq<Callout>)

  /** The `Images` value of a subcategory: anything false (missing, null, empty), a truthy value
      that is neither list nor dict, a list of image objects, or a non-empty dict. */
  datatype ImagesIn = Falsy | NotAContainer | ImageList(images: seq<Image>) | ImageDict(image: Image)

  /** A part detail: its id and text, `Part.Description`, `Part.Price.CurrentPrice` and the ids
      of its labour operations (`None` is a missing or non-integer id). */
  datatype DetailIn = DetailIn(
    id: Scalar,
    fullDescription: Option<string>,
    partDescription: Option<string>,
    currentPrice: Option<real>,
    laborOperationIds: seq<Option<int>>)

  datatype PartIn = PartIn(id: Scalar, description: Option<string>, details: seq<DetailIn>)

  datatype SubCategoryIn = SubCategoryIn(id: Scalar, description: Option<string>, images: ImagesIn, parts: seq<PartIn>)

  datatype CategoryIn = CategoryIn(id: Scalar, description: Option<string>, subCategories: seq<SubCategoryIn>)

  /** A supercategory: `None` is a missing `Description`. */
  datatype SuperCategory = SuperCategory(description: Option<string>, categoryIds: seq<Scalar>)

  datatype PssIn = PssIn(categories: seq<CategoryIn>, superCategories: seq<SuperCategory>)

  // ---------------------------------------------------------------------------------------
  // The optimised catalogue
  // ---------------------------------------------------------------------------------------

  datatype Detail = Detail(
    id: Scalar,
    fullDescription: Option<string>,
    partDescription: Option<string>,
    currentPrice: real,
    availableOperations: seq<string>)

  datatype Part = Part(id: Scalar, description: Option<string>, details: seq<Detail>)

  datatype SubCategory = SubCategory(id: Scalar, description: Option<string>, parts: seq<Part>, images: seq<Image>)

  datatype Category = Category(id: Scalar, description: Option<string>, subCategories: seq<SubCategory>)

  /** The optimised catalogue; `superCategories` is `None` once the handler has popped it. */
  datatype Pss = Pss(categories: seq<Category>, superCategories: Option<seq<SuperCategory>>)

  // ---------------------------------------------------------------------------------------
  // AVAILABLE_OPERATIONS (7-19) and the operation loop (112-115)
  // ---------------------------------------------------------------------------------------

  const AvailableOperations: map<int, string> := map[
    1 := "Remove/Replace",
    2 := "Remove/Install",
    3 := "Additional Labor",
    4 := "Align",
    5 := "Overhaul",
    6 := "Refinish Only",
    7 := "Access/Inspect",
    8 := "Check/Adjust",
    9 := "Repair",
    10 := "Blend",
    16 := "Paintless Repair"]

  /** `AVAILABLE_OPERATIONS.get(operation.get("LaborOperationId", ""))`, kept when truthy. */
  function OperationName(id: Option<int>): Option<string> {
    if id.Some? && id.value in AvailableOperations then Some(AvailableOperations[id.value]) else None
  }

  /** The known ids are 1 to 10 and 16, and every name is non-empty, so the truthiness test
      keeps exactly the known ids. */
  lemma OperationNameSpec(id: Option<int>)
    ensures OperationName(id).Some? <==> id.Some? && (1 <= id.value <= 10 || id.value == 16)
    ensures OperationName(id).Some? ==> OperationName(id).value != ""
  {
  }

  /** `AvailableOperations` of a detail: the names of its known operations, in order. */
  function OperationsOf(ids: seq<Option<int>>): seq<string> {
    FilterMap(ids, OperationName)
  }

  /** The list holds, in the order of the labour operations, the name of each known id and
      nothing else. */
  lemma OperationsOfSpec(ids: seq<Option<int>>)
    ensures exists idx :: Picks(OperationsOf(ids), ids, OperationName, idx)
    ensures forall i :: 0 <= i < |ids| && ids[i].Some? && ids[i].value in AvailableOperations ==>
      AvailableOperations[ids[i].value] in OperationsOf(ids)
    ensures forall x :: x in OperationsOf(ids) ==> x in AvailableOperations.Values
  {
    FilterMapPicks(ids, OperationName);
    var idx :| Picks(FilterMap(ids, OperationName), ids, OperationName, idx);
    assert Picks(OperationsOf(ids), ids, OperationName, idx);
    FilterMapKeeps(ids, OperationName);
    forall x | x in OperationsOf(ids)
      ensures x in AvailableOperations.Values
    {
      FilterMapMember(ids, OperationName, x);
    }
  }

  method AvailableOperationsOf(ids: seq<Option<int>>) returns (ops: seq<string>)
    ensures ops == OperationsOf(ids)
  {
    ops := [];
    for i := 0 to |ids|
      invariant ops == FilterMap(ids[..i], OperationName)
    {
      FilterMapSnoc(ids, i, OperationName);
      var id := ids[i];
      if id.Some? && id.value in AvailableOperations {
        ops := ops + [AvailableOperations[id.value]];
      }
    }
    assert ids[..|ids|] == ids;
  }

  // ---------------------------------------------------------------------------------------
  // extract_images (159-201)
  // ---------------------------------------------------------------------------------------

  /** `extract_images(images_data)`. */
  function ImagesOf(data: ImagesIn): seq<Image> {
    match data
    case Falsy => []
    case NotAContainer => []
    case ImageList(images) => images
    case ImageDict(image) => [image]
  }

  /** The callout loop: each callout's number and part id. */
  method CopyCallouts(callouts: seq<Callout>) returns (r: seq<Callout>)
    ensures r == callouts
  {
    r := [];
    for k := 0 to |callouts|
      invariant r == callouts[..k]
    {
      r := r + [Callout(callouts[k].calloutNumber, callouts[k].partId)];
    }
  }

  /** `extract_images`, loops and all: nothing for a false or non-container value, one image per
      list element in order, a single image for a dict. */
  method ExtractImages(data: ImagesIn) returns (r: seq<Image>)
    ensures r == ImagesOf(data)
    ensures data.ImageList? ==> |r| == |data.images| && forall k :: 0 <= k < |r| ==> r[k] == data.images[k]
    ensures data.ImageDict? ==> |r| == 1
    ensures data.Falsy? || data.NotAContainer? ==> r == []
  {
    r := [];
    match data
    case Falsy =>
    case NotAContainer =>
    case ImageList(images) =>
      for i := 0 to |images|
        invariant r == images[..i]
      {
        var callouts := CopyCallouts(images[i].callouts);
        r := r + [Image(images[i].location, callouts)];
      }
    case ImageDict(image) =>
      var callouts := CopyCallouts(image.callouts);
      r := [Image(image.location, callouts)];
  }

  // ---------------------------------------------------------------------------------------
  // extract_required_pss_data (60-127)
  // ---------------------------------------------------------------------------------------

  /** One optimised detail: the price defaults to 0 and only known operations are named. */
  function PruneDetail(d: DetailIn): Detail {
    Detail(d.id, d.fullDescription, d.partDescription, d.currentPrice.GetOr(0.0), OperationsOf(d.laborOperationIds))
  }

  function DetailsOf(ds: seq<DetailIn>): seq<Detail> {
    seq(|ds|, i requires 0 <= i < |ds| => PruneDetail(ds[i]))
  }

  /** The removal-and-installation test on `part.get("Description", "").lower()`. */
  predicate RemoveAndInstall(p: PartIn, lower: char -> char) {
    Contains(Lowercase(p.description.GetOr(""), lower), "r&i")
  }

  /** A part is skipped when it is an R&I part and dropped when it has no details. */
  function PrunePart(p: PartIn, lower: char -> char): Option<Part> {
    if RemoveAndInstall(p, lower) then None
    else if p.details == [] then None
    else Some(Part(p.id, p.description, DetailsOf(p.details)))
  }

  function PartRule(lower: char -> char): PartIn -> Option<Part> {
    p => PrunePart(p, lower)
  }

  /** A subcategory is dropped when none of its parts is kept. */
  function PruneSubCategory(s: SubCategoryIn, lower: char -> char): Option<SubCategory> {
    var parts := FilterMap(s.parts, PartRule(lower));
    if parts == [] then None else Some(SubCategory(s.id, s.description, parts, ImagesOf(s.images)))
  }

  function SubCategoryRule(lower: char -> char): SubCategoryIn -> Option<SubCategory> {
    s => PruneSubCategory(s, lower)
  }

  /** A category is dropped when none of its subcategories is kept. */
  function PruneCategory(c: CategoryIn, lower: char -> char): Option<Category> {
    var subs := FilterMap(c.subCategories, SubCategoryRule(lower));
    if subs == [] then None else Some(Category(c.id, c.description, subs))
  }

  function CategoryRule(lower: char -> char): CategoryIn -> Option<Category> {
    c => PruneCategory(c, lower)
  }

  /** `extract_required_pss_data(full_pss_data)`. */
  function RequiredPssData(pss: PssIn, lower: char -> char): Pss {
    Pss(FilterMap(pss.categories, CategoryRule(lower)), Some(pss.superCategories))
  }

  /** A part is kept exactly when it is not an R&I part and has a detail, a subcategory exactly
      when one of its parts is kept, a category exactly when one of its subcategories is. */
  lemma PruneKeptIff(p: PartIn, s: SubCategoryIn, c: CategoryIn, lower: char -> char)
    ensures PrunePart(p, lower).Some? <==> !RemoveAndInstall(p, lower) && |p.details| >= 1
    ensures PruneSubCategory(s, lower).Some? <==> exists q :: q in s.parts && PrunePart(q, lower).Some?
    ensures PruneCategory(c, lower).Some? <==> exists t :: t in c.subCategories && PruneSubCategory(t, lower).Some?
  {
    SubCategoryKeptIff(s, lower);
    CategoryKeptIff(c, lower);
  }

  /** A subcategory is kept exactly when one of its parts is. */
  lemma SubCategoryKeptIff(s: SubCategoryIn, lower: char -> char)
    ensures PruneSubCategory(s, lower).Some? <==> exists q :: q in s.parts && PrunePart(q, lower).Some?
  {
    FilterMapNonEmpty(s.parts, PartRule(lower));
    if exists q :: q in s.parts && PrunePart(q, lower).Some? {
      var q :| q in s.parts && PrunePart(q, lower).Some?;
      var i :| 0 <= i < |s.parts| && s.parts[i] == q;
      assert PartRule(lower)(s.parts[i]).Some?;
    }
  }

  /** A category is kept exactly when one of its subcategories is. */
  lemma CategoryKeptIff(c: CategoryIn, lower: char -> char)
    ensures PruneCategory(c, lower).Some? <==> exists t :: t in c.subCategories && PruneSubCategory(t, lower).Some?
  {
    FilterMapNonEmpty(c.subCategories, SubCategoryRule(lower));
    if exists t :: t in c.subCategories && PruneSubCategory(t, lower).Some? {
      var t :| t in c.subCategories && PruneSubCategory(t, lower).Some?;
      var i :| 0 <= i < |c.subCategories| && c.subCategories[i] == t;
      assert SubCategoryRule(lower)(c.subCategories[i]).Some?;
    }
  }

  /** A kept part has a detail and is not an R&I part. */
  ghost predicate PartOk(p: Part, lower: char -> char) {
    p.details != [] && !Contains(Lowercase(p.description.GetOr(""), lower), "r&i")
  }

  /** A kept subcategory has a part, and every part it keeps is well formed. */
  ghost predicate SubCategoryOk(s: SubCategory, lower: char -> char) {
    s.parts != [] && forall p :: p in s.parts ==> PartOk(p, lower)
  }

  /** A kept category has a subcategory, and every subcategory it keeps is well formed. */
  ghost predicate CategoryOk(c: Category, lower: char -> char) {
    c.subCategories != [] && forall s :: s in c.subCategories ==> SubCategoryOk(s, lower)
  }

  /** What a kept subcategory holds is well formed. */
  lemma PrunedSubCategoryOk(s: SubCategoryIn, lower: char -> char)
    requires PruneSubCategory(s, lower).Some?
    ensures SubCategoryOk(PruneSubCategory(s, lower).value, lower)
  {
    forall p | p in PruneSubCategory(s, lower).value.parts
      ensures PartOk(p, lower)
    {
      FilterMapMember(s.parts, PartRule(lower), p);
    }
  }

  /** What a kept category holds is well formed, level by level. */
  lemma PrunedCategoryOk(c: CategoryIn, lower: char -> char)
    requires PruneCategory(c, lower).Some?
    ensures CategoryOk(PruneCategory(c, lower).value, lower)
  {
    forall t | t in PruneCategory(c, lower).value.subCategories
      ensures SubCategoryOk(t, lower)
    {
      FilterMapMember(c.subCategories, SubCategoryRule(lower), t);
      var j :| 0 <= j < |c.subCategories| && SubCategoryRule(lower)(c.subCategories[j]) == Some(t);
      PrunedSubCategoryOk(c.subCategories[j], lower);
    }
  }

  /** No container of the result is empty and no R&I part survives. */
  lemma RequiredPssDataShape(pss: PssIn, lower: char -> char)
    ensures var out := RequiredPssData(pss, lower);
      out.superCategories == Some(pss.superCategories) &&
      forall c :: c in out.categories ==> (c.subCategories != [] &&
        forall s :: s in c.subCategories ==> (s.parts != [] &&
          forall p :: p in s.parts ==> p.details != [] && !Contains(Lowercase(p.description.GetOr(""), lower), "r&i")))
  {
    forall c | c in RequiredPssData(pss, lower).categories
      ensures CategoryOk(c, lower)
    {
      FilterMapMember(pss.categories, CategoryRule(lower), c);
      var i :| 0 <= i < |pss.categories| && CategoryRule(lower)(pss.categories[i]) == Some(c);
      PrunedCategoryOk(pss.categories[i], lower);
    }
  }

  /** Each level of the result is an order-preserving selection of the level above it in the
      input: the kept categories of the catalogue, the kept subcategories of a kept category,
      the kept parts of a kept subcategory, every detail of a kept part. */
  lemma RequiredPssDataOrder(pss: PssIn, lower: char -> char, c: CategoryIn, s: SubCategoryIn, p: PartIn)
    ensures exists idx :: Picks(RequiredPssData(pss, lower).categories, pss.categories, CategoryRule(lower), idx)
    ensures PruneCategory(c, lower).Some? ==>
      exists idx :: Picks(PruneCategory(c, lower).value.subCategories, c.subCategories, SubCategoryRule(lower), idx)
    ensures PruneSubCategory(s, lower).Some? ==>
      exists idx :: Picks(PruneSubCategory(s, lower).value.parts, s.parts, PartRule(lower), idx)
    ensures PrunePart(p, lower).Some? ==> var ds := PrunePart(p, lower).value.details;
      |ds| == |p.details| && forall k :: 0 <= k < |ds| ==> ds[k].id == p.details[k].id
  {
    FilterMapPicks(pss.categories, CategoryRule(lower));
    var idx :| Picks(FilterMap(pss.categories, CategoryRule(lower)), pss.categories, CategoryRule(lower), idx);
    assert Picks(RequiredPssData(pss, lower).categories, pss.categories, CategoryRule(lower), idx);
    FilterMapPicks(c.subCategories, SubCategoryRule(lower));
    FilterMapPicks(s.parts, PartRule(lower));
  }

  /** The detail loop of one part. */
  method PruneDetails(ds: seq<DetailIn>) returns (r: seq<Detail>)
    ensures r == DetailsOf(ds)
  {
    r := [];
    for k := 0 to |ds|
      invariant r == DetailsOf(ds[..k])
    {
      var d := ds[k];
      var ops := AvailableOperationsOf(d.laborOperationIds);
      r := r + [Detail(d.id, d.fullDescription, d.partDescription, d.currentPrice.GetOr(0.0), ops)];
    }
    assert ds[..|ds|] == ds;
  }

  /** The body of the part loop: skip an R&I part, else keep it when it has details. */
  method PrunePartOf(p: PartIn, lower: char -> char) returns (r: Option<Part>)
    ensures r == PrunePart(p, lower)
  {
    var description := Lowercase(p.description.GetOr(""), lower);
    if Contains(description, "r&i") {
      return None;
    }
    var details := PruneDetails(p.details);
    if details == [] {
      return None;
    }
    return Some(Part(p.id, p.description, details));
  }

  /** The body of the subcategory loop. */
  method PruneSubCategoryOf(s: SubCategoryIn, lower: char -> char) returns (r: Option<SubCategory>)
    ensures r == PruneSubCategory(s, lower)
  {
    var images := ExtractImages(s.images);
    var parts: seq<Part> := [];
    for k := 0 to |s.parts|
      invariant parts == FilterMap(s.parts[..k], PartRule(lower))
    {
      FilterMapSnoc(s.parts, k, PartRule(lower));
      var part := PrunePartOf(s.parts[k], lower);
      if part.Some? {
        parts := parts + [part.value];
      }
    }
    assert s.parts[..|s.parts|] == s.parts;
    if parts == [] {
      return None;
    }
    return Some(SubCategory(s.id, s.description, parts, images));
  }

  /** The body of the category loop. */
  method PruneCategoryOf(c: CategoryIn, lower: char -> char) returns (r: Option<Category>)
    ensures r == PruneCategory(c, lower)
  {
    var subs: seq<SubCategory> := [];
    for k := 0 to |c.subCategories|
      invariant subs == FilterMap(c.subCategories[..k], SubCategoryRule(lower))
    {
      FilterMapSnoc(c.subCategories, k, SubCategoryRule(lower));
      var sub := PruneSubCategoryOf(c.subCategories[k], lower);
      if sub.Some? {
        subs := subs + [sub.value];
      }
    }
    assert c.subCategories[..|c.subCategories|] == c.subCategories;
    if subs == [] {
      return None;
    }
    return Some(Category(c.id, c.description, subs));
  }

  /** `extract_required_pss_data(full_pss_data)`, loops and all. */
  method ExtractRequiredPssData(pss: PssIn, lower: char -> char) returns (r: Pss)
    ensures r == RequiredPssData(pss, lower)
  {
    var categories: seq<Category> := [];
    for k := 0 to |pss.categories|
      invariant categories == FilterMap(pss.categories[..k], CategoryRule(lower))
    {
      FilterMapSnoc(pss.categories, k, CategoryRule(lower));
      var category := PruneCategoryOf(pss.categories[k], lower);
      if category.Some? {
        categories := categories + [category.value];
      }
    }
    assert pss.categories[..|pss.categories|] == pss.categories;
    return Pss(categories, Some(pss.superCategories));
  }

  // ---------------------------------------------------------------------------------------
  // extract_car_bio_data (129-156)
  // ---------------------------------------------------------------------------------------

  const CarBioKeys: seq<string> := ["source", "year", "make", "model", "modelID", "wmiCountry", "wmiManufacturer", "buildSource"]

  /** `extract_car_bio_data(data)` on `data.get('result', {})`: exactly the eight keys, each
      with the result's value when it has the key and `None` otherwise. */
  method ExtractCarBioData<V>(result: Option<map<string, V>>) returns (extracted: map<string, Option<V>>)
    ensures extracted.Keys == set k | k in CarBioKeys
    ensures forall k :: k in CarBioKeys ==>
      extracted[k] == if result.Some? && k in result.value then Some(result.value[k]) else None
  {
    var source := result.GetOr(map[]);
    extracted := map[];
    for i := 0 to |CarBioKeys|
      invariant extracted.Keys == set k | k in CarBioKeys[..i]
      invariant forall k :: k in CarBioKeys[..i] ==>
        extracted[k] == if result.Some? && k in result.value then Some(result.value[k]) else None
    {
      var key := CarBioKeys[i];
      assert CarBioKeys[..i + 1] == CarBioKeys[..i] + [key];
      if key in source {
        extracted := extracted[key := Some(source[key])];
      } else {
        extracted := extracted[key := None];
      }
    }
    assert CarBioKeys[..|CarBioKeys|] == CarBioKeys;
  }
}
