/** The catalogue text the handler of est-v2-get-required-json-data-from-s3/lambda_function.py
    builds from the pruned catalogue: the folder check, the supercategory pop, one text block
    per category and the comma-separated category names. */
module PssCatalogue {
  import opened Wrappers
  import opened PyText
  import opened Sequences
  import opened PssData

  /** Python's `f"{v}"` of an integer. */
  function IntToString(i: int): string {
    if i < 0 then "-" + NatToString(-i) else NatToString(i)
  }

  /** Python's `f"{v}"` of an identifier. */
  function Render(v: Scalar): string {
    match v
    case Null => "None"
    case Int(i) => IntToString(i)
    case Str(s) => s
  }

  /** Python's `f"{v}"` of an optional text. */
  function RenderText(v: Option<string>): string {
    match v
    case None => "None"
    case Some(s) => s
  }

  // ---------------------------------------------------------------------------------------
  // Supercategory names of a category (55-60)
  // ---------------------------------------------------------------------------------------

  /** The description a supercategory contributes to the category `id`, if it lists it. */
  function SuperRule(id: Scalar): SuperCategory -> Option<string> {
    (sc: SuperCategory) => if id in sc.categoryIds then sc.description else None
  }

  /** `supercategory_names` for the category `id`: `sc['Description']` raises on a listing
      supercategory without one. */
  function SuperNames(id: Scalar, supers: seq<SuperCategory>): Outcome<seq<string>> {
    if supers == [] then Ok([])
    else
      var pre :- SuperNames(id, supers[..|supers| - 1]);
      var sc := supers[|supers| - 1];
      if id !in sc.categoryIds then Ok(pre)
      else if sc.description.None? then Crash("KeyError: 'Description'")
      else Ok(pre + [sc.description.value])
  }

  /** The names are found unless a supercategory listing the category lacks a description, and
      then they are the descriptions of the listing supercategories, in supercategory order. */
  lemma {:induction false} SuperNamesSpec(id: Scalar, supers: seq<SuperCategory>)
    ensures SuperNames(id, supers).Ok? <==>
      forall k :: 0 <= k < |supers| && id in supers[k].categoryIds ==> supers[k].description.Some?
    ensures SuperNames(id, supers).Ok? ==> SuperNames(id, supers).value == FilterMap(supers, SuperRule(id))
  {
    if supers != [] {
      var n := |supers| - 1;
      SuperNamesSpec(id, supers[..n]);
      assert forall k :: 0 <= k < n ==> supers[..n][k] == supers[k];
    }
  }

  // ---------------------------------------------------------------------------------------
  // One category block (62-75)
  // ---------------------------------------------------------------------------------------

  function CategoryLine(c: Category): string {
    "- Id: " + Render(c.id) + ", Name: " + RenderText(c.description)
  }

  function SuperCategoryLine(names: string): string {
    "\n    --SuperCategory: " + names
  }

  const SubCategoriesHeader := "\n    --Subcategories:"

  function SubCategoryLine(s: SubCategory): string {
    "\n        ---Id: " + Render(s.id) + ", Description: " + RenderText(s.description)
  }

  /** The subcategory lines, in order. */
  function SubCategoryLines(subs: seq<SubCategory>): string {
    if subs == [] then "" else SubCategoryLines(subs[..|subs| - 1]) + SubCategoryLine(subs[|subs| - 1])
  }

  /** The supercategory line, present when the joined names are non-empty. */
  function SuperPart(names: seq<string>): string {
    var joined := Join(names, ", ");
    if joined != "" then SuperCategoryLine(joined) else ""
  }

  /** The subcategory header and lines, present when there are subcategories. */
  function SubPart(c: Category): string {
    if c.subCategories != [] then SubCategoriesHeader + SubCategoryLines(c.subCategories) else ""
  }

  /** `cat_info`: the heading line, the supercategory line and the subcategory part. */
  function CategoryBlock(c: Category, supers: seq<SuperCategory>): Outcome<string> {
    var names :- SuperNames(c.id, supers);
    Ok(CategoryLine(c) + SuperPart(names) + SubPart(c))
  }

  /** A block starts with the category's line; it has no supercategory line when no
      supercategory lists the category, and no subcategory part when it has none. The
      supercategory line is left out exactly when the names found join to "": no names, or
      a single empty description. */
  lemma CategoryBlockSpec(c: Category, supers: seq<SuperCategory>)
    requires CategoryBlock(c, supers).Ok?
    ensures var b := CategoryBlock(c, supers).value;
      b[..|CategoryLine(c)|] == CategoryLine(c) &&
      ((forall k :: 0 <= k < |supers| ==> c.id !in supers[k].categoryIds) && c.subCategories == [] ==> b == CategoryLine(c)) &&
      (FilterMap(supers, SuperRule(c.id)) == [] ==> b == CategoryLine(c) + SubPart(c))
    ensures var names := SuperNames(c.id, supers).value;
      CategoryBlock(c, supers).value == CategoryLine(c) + SubPart(c) <==> names == [] || names == [""]
  {
    CategoryBlockStart(c, supers);
    CategoryBlockUnlisted(c, supers);
    CategoryBlockNoSupers(c, supers);
    CategoryBlockSuperLine(c, supers);
  }

  /** The supercategory line is left out exactly when there are no names or a single empty one. */
  lemma CategoryBlockSuperLine(c: Category, supers: seq<SuperCategory>)
    requires CategoryBlock(c, supers).Ok?
    ensures var names := SuperNames(c.id, supers).value;
      CategoryBlock(c, supers).value == CategoryLine(c) + SubPart(c) <==> names == [] || names == [""]
  {
    var names := SuperNames(c.id, supers).value;
    SuperPartEmpty(names);
    var a, m, b := CategoryLine(c), SuperPart(names), SubPart(c);
    assert CategoryBlock(c, supers).value == a + m + b;
    assert |a + m + b| == |a| + |m| + |b| && |a + b| == |a| + |b|;
    if m == "" {
      assert a + m + b == a + b;
    }
  }

  /** Python's ", ".join of two or more names holds at least the separator, so the line is
      left out only for no names or a single empty one. */
  lemma SuperPartEmpty(names: seq<string>)
    ensures SuperPart(names) == "" <==> names == [] || names == [""]
  {
    if |names| >= 2 {
      assert |Join(names, ", ")| >= 2;
    }
  }

  lemma CategoryBlockStart(c: Category, supers: seq<SuperCategory>)
    requires CategoryBlock(c, supers).Ok?
    ensures CategoryBlock(c, supers).value[..|CategoryLine(c)|] == CategoryLine(c)
  {
    var names := SuperNames(c.id, supers).value;
    assert CategoryBlock(c, supers).value == CategoryLine(c) + (SuperPart(names) + SubPart(c));
  }

  lemma CategoryBlockNoSupers(c: Category, supers: seq<SuperCategory>)
    requires CategoryBlock(c, supers).Ok?
    ensures FilterMap(supers, SuperRule(c.id)) == [] ==> CategoryBlock(c, supers).value == CategoryLine(c) + SubPart(c)
  {
    SuperNamesSpec(c.id, supers);
    var names := SuperNames(c.id, supers).value;
    if names == [] {
      assert SuperPart(names) == "";
    }
  }

  lemma CategoryBlockUnlisted(c: Category, supers: seq<SuperCategory>)
    requires CategoryBlock(c, supers).Ok?
    ensures (forall k :: 0 <= k < |supers| ==> c.id !in supers[k].categoryIds) && c.subCategories == [] ==>
      CategoryBlock(c, supers).value == CategoryLine(c)
  {
    SuperNamesSpec(c.id, supers);
    var names := SuperNames(c.id, supers).value;
    if forall k :: 0 <= k < |supers| ==> c.id !in supers[k].categoryIds {
      FilterMapNone(supers, SuperRule(c.id));
    }
    if names == [] {
      assert SuperPart(names) == "";
    }
  }

  /** The supercategory loop of one category. */
  method SupercategoryNames(id: Scalar, supers: seq<SuperCategory>) returns (r: Outcome<seq<string>>)
    ensures r == SuperNames(id, supers)
  {
    var names: seq<string> := [];
    for k := 0 to |supers|
      invariant SuperNames(id, supers[..k]) == Ok(names)
    {
      assert supers[..k + 1][..k] == supers[..k];
      if id in supers[k].categoryIds {
        if supers[k].description.None? {
          SuperNamesCrash(id, supers, k + 1);
          return Crash("KeyError: 'Description'");
        }
        names := names + [supers[k].description.value];
      }
    }
    assert supers[..|supers|] == supers;
    return Ok(names);
  }

  /** The subcategory loop: `cat_info += ...` once per subcategory. */
  method AppendSubCategoryLines(info: string, subs: seq<SubCategory>) returns (r: string)
    ensures r == info + SubCategoryLines(subs)
  {
    r := info;
    for k := 0 to |subs|
      invariant r == info + SubCategoryLines(subs[..k])
    {
      var line := SubCategoryLine(subs[k]);
      SubCategoryLinesSnoc(info, subs, k);
      r := r + line;
    }
    assert subs[..|subs|] == subs;
  }

  /** One more subcategory appends its line after the lines of the ones before it. */
  lemma SubCategoryLinesSnoc(info: string, subs: seq<SubCategory>, k: nat)
    requires k < |subs|
    ensures info + SubCategoryLines(subs[..k + 1]) == info + SubCategoryLines(subs[..k]) + SubCategoryLine(subs[k])
  {
    assert subs[..k + 1][..k] == subs[..k];
  }

  /** The header followed by the lines of a non-empty subcategory list is the subcategory part. */
  lemma SubPartOf(head: string, c: Category)
    requires c.subCategories != []
    ensures head + SubCategoriesHeader + SubCategoryLines(c.subCategories) == head + SubPart(c)
  {
  }

  /** The body of the category loop. */
  method BuildCategoryBlock(c: Category, supers: seq<SuperCategory>) returns (r: Outcome<string>)
    ensures r == CategoryBlock(c, supers)
  {
    var names := SupercategoryNames(c.id, supers);
    if names.Crash? {
      return Crash(names.reason);
    }
    var joined := Join(names.value, ", ");
    var info := CategoryLine(c);
    if joined != "" {
      info := info + SuperCategoryLine(joined);
    } else {
      assert info == info + "";
    }
    ghost var head := info;
    assert head == CategoryLine(c) + SuperPart(names.value);
    if c.subCategories != [] {
      info := AppendSubCategoryLines(info + SubCategoriesHeader, c.subCategories);
      SubPartOf(head, c);
    } else {
      assert info == head + "";
    }
    return Ok(info);
  }

  /** A failure on a prefix of the supercategories is the failure of the whole loop. */
  lemma {:induction false} SuperNamesCrash(id: Scalar, supers: seq<SuperCategory>, k: nat)
    requires k <= |supers|
    requires SuperNames(id, supers[..k]).Crash?
    ensures SuperNames(id, supers) == SuperNames(id, supers[..k])
    decreases |supers| - k
  {
    if k < |supers| {
      assert supers[..k + 1][..k] == supers[..k];
      SuperNamesCrash(id, supers, k + 1);
    } else {
      assert supers[..k] == supers;
    }
  }

  // ---------------------------------------------------------------------------------------
  // categories_text and category_list (54-81)
  // ---------------------------------------------------------------------------------------

  /** The blocks of the categories, in order. */
  function Blocks(cats: seq<Category>, supers: seq<SuperCategory>): Outcome<seq<string>> {
    MapAll(cats, c => CategoryBlock(c, supers))
  }

  lemma BlocksSpec(cats: seq<Category>, supers: seq<SuperCategory>)
    ensures Blocks(cats, supers).Ok? <==> forall k :: 0 <= k < |cats| ==> CategoryBlock(cats[k], supers).Ok?
    ensures Blocks(cats, supers).Ok? ==> var bs := Blocks(cats, supers).value;
      |bs| == |cats| && forall k :: 0 <= k < |cats| ==> bs[k] == CategoryBlock(cats[k], supers).value
  {
    MapAllSpec(cats, c => CategoryBlock(c, supers));
  }

  /** `cat.get("Description")` when it is truthy. */
  function TruthyDescription(c: Category): Option<string> {
    if c.description.Some? && c.description.value != "" then c.description else None
  }

  /** `category_list`: the truthy descriptions joined with ", ". */
  function CategoryList(cats: seq<Category>): string {
    Join(FilterMap(cats, TruthyDescription), ", ")
  }

  /** The list joins, in category order, every non-empty description and nothing else. */
  lemma CategoryListSpec(cats: seq<Category>)
    ensures exists idx :: Picks(FilterMap(cats, TruthyDescription), cats, TruthyDescription, idx)
    ensures forall x :: x in FilterMap(cats, TruthyDescription) ==> x != "" && exists k :: 0 <= k < |cats| && cats[k].description == Some(x)
    ensures forall k :: 0 <= k < |cats| && cats[k].description.Some? && cats[k].description.value != "" ==>
      cats[k].description.value in FilterMap(cats, TruthyDescription)
  {
    FilterMapPicks(cats, TruthyDescription);
    FilterMapKeeps(cats, TruthyDescription);
    forall x | x in FilterMap(cats, TruthyDescription)
      ensures x != "" && exists k :: 0 <= k < |cats| && cats[k].description == Some(x)
    {
      FilterMapMember(cats, TruthyDescription, x);
    }
  }

  // ---------------------------------------------------------------------------------------
  // The handler (11-14, 50-94)
  // ---------------------------------------------------------------------------------------

  /** The handler's answer: status 400 without a folder name, or the catalogue fields. */
  datatype Response =
    | FolderNameRequired
    | Loaded(pssData: Pss, categoryList: string, categoriesText: string)

  /** `lambda_handler` on the loaded catalogue: `folder` is `event.get('folder_name')`. */
  function Handler(folder: Option<string>, pss: PssIn, lower: char -> char): Outcome<Response> {
    if folder.None? || folder.value == "" then Ok(FolderNameRequired)
    else
      var optimized := RequiredPssData(pss, lower);
      var supers := optimized.superCategories.GetOr([]);
      var popped := optimized.(superCategories := None);
      var blocks :- Blocks(popped.categories, supers);
      Ok(Loaded(popped, CategoryList(popped.categories), Join(blocks, "\n")))
  }

  /** A missing or empty folder name gives status 400; otherwise the catalogue returned is the
      pruned one without its supercategories, the text joins one block per kept category in
      order, and the list joins their non-empty descriptions. */
  lemma HandlerSpec(folder: Option<string>, pss: PssIn, lower: char -> char)
    ensures (folder.None? || folder.value == "") <==> Handler(folder, pss, lower) == Ok(FolderNameRequired)
    ensures Handler(folder, pss, lower).Ok? && Handler(folder, pss, lower).value.Loaded? ==>
      var r := Handler(folder, pss, lower).value;
      var cats := RequiredPssData(pss, lower).categories;
      r.pssData.superCategories.None? &&
      r.pssData.categories == cats &&
      r.categoryList == CategoryList(cats) &&
      Blocks(cats, pss.superCategories).Ok? &&
      r.categoriesText == Join(Blocks(cats, pss.superCategories).value, "\n") &&
      |Blocks(cats, pss.superCategories).value| == |cats|
  {
    BlocksSpec(RequiredPssData(pss, lower).categories, pss.superCategories);
  }

  /** `lambda_handler` from the folder check to the assembled fields, loops and all; the S3
      reads are done by the caller. */
  method LambdaHandler(folder: Option<string>, pss: PssIn, lower: char -> char) returns (r: Outcome<Response>)
    ensures r == Handler(folder, pss, lower)
  {
    if folder.None? || folder.value == "" {
      return Ok(FolderNameRequired);
    }
    var optimized := ExtractRequiredPssData(pss, lower);
    var supers := optimized.superCategories.GetOr([]);
    optimized := optimized.(superCategories := None);
    var blocks := BuildBlocks(optimized.categories, supers);
    if blocks.Crash? {
      return Crash(blocks.reason);
    }
    var list := BuildCategoryList(optimized.categories);
    return Ok(Loaded(optimized, list, Join(blocks.value, "\n")));
  }

  /** The category loop: one block per category, the first failure escaping. */
  method BuildBlocks(cats: seq<Category>, supers: seq<SuperCategory>) returns (r: Outcome<seq<string>>)
    ensures r == Blocks(cats, supers)
  {
    var blocks: seq<string> := [];
    for k := 0 to |cats|
      invariant Blocks(cats[..k], supers) == Ok(blocks)
    {
      assert cats[..k + 1][..k] == cats[..k];
      var block := BuildCategoryBlock(cats[k], supers);
      if block.Crash? {
        MapAllCrash(cats, c => CategoryBlock(c, supers), k + 1);
        return Crash(block.reason);
      }
      blocks := blocks + [block.value];
    }
    assert cats[..|cats|] == cats;
    return Ok(blocks);
  }

  /** The `category_list` loop over the truthy descriptions. */
  method BuildCategoryList(cats: seq<Category>) returns (r: string)
    ensures r == CategoryList(cats)
  {
    var descriptions: seq<string> := [];
    for k := 0 to |cats|
      invariant descriptions == FilterMap(cats[..k], TruthyDescription)
    {
      FilterMapSnoc(cats, k, TruthyDescription);
      if cats[k].description.Some? && cats[k].description.value != "" {
        descriptions := descriptions + [cats[k].description.value];
      }
    }
    assert cats[..|cats|] == cats;
    return Join(descriptions, ", ");
  }
}
