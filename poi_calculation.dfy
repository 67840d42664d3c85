/** Point-of-impact (POI) aggregation of poi-calculation/lambda_function.py: the label lookups,
    the damage POI list, the per-POI image sets and the merge of the position model's labels
    with the validation results. */
module PoiCalculation {
  import opened Wrappers
  import opened PyText
  import opened PdfText
  import opened Sequences

  // ---------------------------------------------------------------------------------------
  // label_mapping and POI_MAPPING (75-96), map_position_to_labels (138-140)
  // ---------------------------------------------------------------------------------------

  const LabelMapping: map<string, seq<string>> := map[
    "position-Front" := ["Front"],
    "position-Front_Left" := ["Front", "Left"],
    "position-Front_Right" := ["Front", "Right"],
    "position-Left" := ["Left"],
    "position-Rear" := ["Rear"],
    "position-Rear_Left" := ["Rear", "Left"],
    "position-Rear_Right" := ["Rear", "Right"],
    "position-Right" := ["Right"]]

  const PoiMapping: map<string, seq<string>> := map[
    "Front" := ["Front"],
    "Right" := ["R-Side"],
    "Left" := ["L-Side"],
    "Rear" := ["Rear"],
    "Roof" := ["Roof"],
    "FrontRight" := ["Front", "R-Side"],
    "FrontLeft" := ["Front", "L-Side"],
    "RearRight" := ["Rear", "R-Side"],
    "RearLeft" := ["Rear", "L-Side"]]

  /** `map_position_to_labels`: `label_mapping.get(position_pred, ['Front'])`. */
  function MapPositionToLabels(pred: string): seq<string> {
    if pred in LabelMapping then LabelMapping[pred] else ["Front"]
  }

  /** The eight known predictions give their one or two sides, anything else gives "Front";
      either way the labels are distinct sides that POI_MAPPING knows. */
  lemma MapPositionToLabelsSpec(pred: string)
    ensures var r := MapPositionToLabels(pred);
      1 <= |r| <= 2 &&
      (forall x :: x in r ==> x in {"Front", "Left", "Right", "Rear"} && x in PoiMapping) &&
      (|r| == 2 ==> r[0] != r[1]) &&
      (pred !in LabelMapping ==> r == ["Front"])
  {
  }

  /** `mapping.get(label, [label])`; the definitions below that do not depend on the table's
      contents take it as a parameter, and the handler passes POI_MAPPING. */
  function MappedLabels(mapping: map<string, seq<string>>, name: string): seq<string> {
    if name in mapping then mapping[name] else [name]
  }

  // ---------------------------------------------------------------------------------------
  // map_poi_to_standard_format (416-462)
  // ---------------------------------------------------------------------------------------

  const ValidPois: seq<string> := ["Front", "Rear", "Left", "Right", "Engine / Electrical", "Interior",
                                   "Steering / Suspension", "A/C", "Frame / Floor"]

  const CombinedPois: map<string, seq<string>> := map[
    "FrontLeft" := ["Front", "Left"],
    "FrontRight" := ["Front", "Right"],
    "RearLeft" := ["Rear", "Left"],
    "RearRight" := ["Rear", "Right"]]

  /** The first of `vs` equal to `s` up to lower-casing. */
  function CaseInsensitiveMatch(s: string, vs: seq<string>, lower: char -> char): (r: Option<string>)
    ensures r.Some? ==> r.value in vs && Lowercase(r.value, lower) == Lowercase(s, lower)
    ensures r.None? <==> forall v :: v in vs ==> Lowercase(v, lower) != Lowercase(s, lower)
  {
    if vs == [] then None
    else if Lowercase(vs[0], lower) == Lowercase(s, lower) then Some(vs[0])
    else CaseInsensitiveMatch(s, vs[1..], lower)
  }

  /** `map_poi_to_standard_format(poi)`. */
  function MapPoiToStandardFormat(poi: string, lower: char -> char): seq<string> {
    StandardPoi(Strip(poi), lower)
  }

  /** The lookups of `map_poi_to_standard_format` on the stripped POI `s`. */
  function StandardPoi(s: string, lower: char -> char): seq<string> {
    if s in CombinedPois then CombinedPois[s]
    else if s in ValidPois then [s]
    else if s == "Roof" then []
    else
      match CaseInsensitiveMatch(s, ValidPois, lower)
      case Some(v) => [v]
      case None => []
  }

  /** The stripped input is split when combined, kept when valid, dropped when "Roof", and
      otherwise replaced by the valid POI it equals up to case, or dropped when there is none;
      every POI returned is a valid one. */
  lemma MapPoiToStandardFormatSpec(poi: string, lower: char -> char)
    ensures |MapPoiToStandardFormat(poi, lower)| <= 2
    ensures forall x :: x in MapPoiToStandardFormat(poi, lower) ==> x in ValidPois
    ensures Strip(poi) in CombinedPois ==> MapPoiToStandardFormat(poi, lower) == CombinedPois[Strip(poi)]
    ensures Strip(poi) in ValidPois ==> MapPoiToStandardFormat(poi, lower) == [Strip(poi)]
    ensures Strip(poi) == "Roof" ==> MapPoiToStandardFormat(poi, lower) == []
    ensures Strip(poi) !in CombinedPois && Strip(poi) !in ValidPois && Strip(poi) != "Roof" ==>
      (MapPoiToStandardFormat(poi, lower) == [] <==>
         forall v :: v in ValidPois ==> Lowercase(v, lower) != Lowercase(Strip(poi), lower))
    ensures (Strip(poi) !in CombinedPois && Strip(poi) !in ValidPois && Strip(poi) != "Roof" &&
             MapPoiToStandardFormat(poi, lower) != []) ==>
      |MapPoiToStandardFormat(poi, lower)| == 1 &&
      Lowercase(MapPoiToStandardFormat(poi, lower)[0], lower) == Lowercase(Strip(poi), lower)
  {
    var s := Strip(poi);
    StandardPoiValid(s, lower);
    if s in ValidPois {
      StandardPoiKept(s, lower);
    }
    if s !in CombinedPois && s !in ValidPois && s != "Roof" {
      StandardPoiCaseless(s, lower);
    }
  }

  /** Both halves of every combined POI are valid POIs, and no combined POI is valid itself. */
  lemma CombinedPoisValid()
    ensures forall k :: k in CombinedPois ==> |CombinedPois[k]| == 2 && forall x :: x in CombinedPois[k] ==> x in ValidPois
    ensures forall k :: k in CombinedPois ==> k !in ValidPois
  {
  }

  /** At most two POIs come back, each of them valid. */
  lemma StandardPoiValid(s: string, lower: char -> char)
    ensures |StandardPoi(s, lower)| <= 2
    ensures forall x :: x in StandardPoi(s, lower) ==> x in ValidPois
  {
    CombinedPoisValid();
  }

  /** A valid POI is kept as it is. */
  lemma StandardPoiKept(s: string, lower: char -> char)
    requires s in ValidPois
    ensures StandardPoi(s, lower) == [s]
  {
    CombinedPoisValid();
  }

  /** Past the three lookups, the result is the case-insensitive match, if any. */
  lemma StandardPoiCaseless(s: string, lower: char -> char)
    requires s !in CombinedPois && s !in ValidPois && s != "Roof"
    ensures StandardPoi(s, lower) == [] <==> forall v :: v in ValidPois ==> Lowercase(v, lower) != Lowercase(s, lower)
    ensures StandardPoi(s, lower) != [] ==> |StandardPoi(s, lower)| == 1 && Lowercase(StandardPoi(s, lower)[0], lower) == Lowercase(s, lower)
  {
  }

  // ---------------------------------------------------------------------------------------
  // Validation results and their damage regions
  // ---------------------------------------------------------------------------------------

  /** A damage region; `None` is a key the dictionary lacks. */
  datatype Region = Region(poi: Option<string>, severity: Option<string>, kind: Option<string>, description: Option<string>)

  /** One validation result: `has_damage` stands for its truth value. */
  datatype Validation = Validation(
    filename: Option<string>,
    confidence: Option<real>,
    validatedLabels: Option<seq<string>>,
    hasDamage: bool,
    regions: seq<Region>)

  /** The validation argument: a list, or any other JSON value. */
  datatype ValidationInput = NotAList | ValidationList(items: seq<Validation>)

  /** The record both region loops build. */
  datatype DamageRecord = DamageRecord(filename: Option<string>, poi: string, severity: string, kind: string, description: string)

  /** `has_damage and damage_regions`. */
  predicate Damaged(v: Validation) {
    v.hasDamage && v.regions != []
  }

  function RegionRecord(filename: Option<string>, r: Region): DamageRecord {
    DamageRecord(filename, Strip(r.poi.GetOr("")), r.severity.GetOr("major"), r.kind.GetOr("primary"), r.description.GetOr(""))
  }

  /** What the region loop appends for one region: its record. */
  function RegionStep(filename: Option<string>): Region -> seq<DamageRecord> {
    r => [RegionRecord(filename, r)]
  }

  function RegionRecords(filename: Option<string>, rs: seq<Region>): seq<DamageRecord> {
    FlatMap(rs, RegionStep(filename))
  }

  function ItemRecords(v: Validation): seq<DamageRecord> {
    if Damaged(v) then RegionRecords(v.filename, v.regions) else []
  }

  /** The regions of every damaged validation result, in order. */
  function Records(vs: seq<Validation>): seq<DamageRecord> {
    FlatMap(vs, ItemRecords)
  }

  lemma RegionRecordsMember(filename: Option<string>, rs: seq<Region>, rec: DamageRecord)
    ensures rec in RegionRecords(filename, rs) <==> exists j :: 0 <= j < |rs| && rec == RegionRecord(filename, rs[j])
  {
    FlatMapMember(rs, RegionStep(filename), rec);
    assert forall j :: 0 <= j < |rs| ==> (rec in RegionStep(filename)(rs[j]) <==> rec == RegionRecord(filename, rs[j]));
  }

  /** A record is listed exactly when it is the record of a region of a damaged result. */
  lemma RecordsMember(vs: seq<Validation>, rec: DamageRecord)
    ensures rec in Records(vs) <==>
      exists i, j :: 0 <= i < |vs| && Damaged(vs[i]) && 0 <= j < |vs[i].regions| && rec == RegionRecord(vs[i].filename, vs[i].regions[j])
  {
    FlatMapMember(vs, ItemRecords, rec);
    if rec in Records(vs) {
      var i :| 0 <= i < |vs| && rec in ItemRecords(vs[i]);
      RegionRecordsMember(vs[i].filename, vs[i].regions, rec);
    }
    if exists i, j :: 0 <= i < |vs| && Damaged(vs[i]) && 0 <= j < |vs[i].regions| && rec == RegionRecord(vs[i].filename, vs[i].regions[j]) {
      var i, j :| 0 <= i < |vs| && Damaged(vs[i]) && 0 <= j < |vs[i].regions| && rec == RegionRecord(vs[i].filename, vs[i].regions[j]);
      RegionRecordsMember(vs[i].filename, vs[i].regions, rec);
    }
  }

  // ---------------------------------------------------------------------------------------
  // convert_to_damage_poi_format (464-527)
  // ---------------------------------------------------------------------------------------

  /** `if poi:` on the stripped POI. */
  predicate HasPoi(rec: DamageRecord) {
    rec.poi != ""
  }

  /** The records whose stripped POI is non-empty. */
  function WithPoi(rs: seq<DamageRecord>): seq<DamageRecord> {
    Filter(rs, HasPoi)
  }

  lemma WithPoiMember(rs: seq<DamageRecord>, rec: DamageRecord)
    ensures rec in WithPoi(rs) <==> rec in rs && rec.poi != ""
  {
    FilterMember(rs, HasPoi, rec);
  }

  /** `region_type == "primary"`. */
  predicate IsPrimary(rec: DamageRecord) {
    rec.kind == "primary"
  }

  /** The POI a record contributes to the set: its own when it is primary. */
  function PrimaryPoi(rec: DamageRecord): Option<string> {
    if IsPrimary(rec) then Some(rec.poi) else None
  }

  /** The POIs of the primary records, in order. */
  function PrimaryPois(rs: seq<DamageRecord>): seq<string> {
    FilterMap(rs, PrimaryPoi)
  }

  lemma PrimaryPoisMember(rs: seq<DamageRecord>, x: string)
    ensures x in PrimaryPois(rs) <==> exists rec :: rec in rs && rec.poi == x && rec.kind == "primary"
  {
    if x in PrimaryPois(rs) {
      FilterMapMember(rs, PrimaryPoi, x);
      var i :| 0 <= i < |rs| && PrimaryPoi(rs[i]) == Some(x);
      assert rs[i] in rs;
    }
    if exists rec :: rec in rs && rec.poi == x && rec.kind == "primary" {
      var rec :| rec in rs && rec.poi == x && rec.kind == "primary";
      var i :| 0 <= i < |rs| && rs[i] == rec;
      FilterMapKeeps(rs, PrimaryPoi);
      assert PrimaryPoi(rs[i]) == Some(x);
    }
  }

  /** `convert_to_damage_poi_format(damage_results)`. */
  function DamagePois(input: ValidationInput): seq<string> {
    match input
    case NotAList => []
    case ValidationList(vs) => SortedDistinct(PrimaryPois(WithPoi(Records(vs))))
  }

  /** A region of a damaged result whose stripped POI is `x`, non-empty, and of type primary. */
  ghost predicate PrimaryDamage(vs: seq<Validation>, x: string) {
    exists i, j :: 0 <= i < |vs| && Damaged(vs[i]) && 0 <= j < |vs[i].regions| &&
      RegionRecord(vs[i].filename, vs[i].regions[j]).poi == x && x != "" &&
      RegionRecord(vs[i].filename, vs[i].regions[j]).kind == "primary"
  }

  /** The damage POIs are sorted, distinct, and exactly the stripped non-empty POIs of the
      primary regions of damaged results (the type defaulting to primary); anything but a list
      gives none. */
  lemma DamagePoisSpec(input: ValidationInput)
    ensures var r := DamagePois(input);
      StrictlySorted(r) &&
      (input.NotAList? ==> r == []) &&
      (input.ValidationList? ==> forall x :: x in r <==> PrimaryDamage(input.items, x))
  {
    if input.ValidationList? {
      var vs := input.items;
      forall x
        ensures x in DamagePois(input) <==> PrimaryDamage(vs, x)
      {
        PrimaryPoisMember(WithPoi(Records(vs)), x);
        if x in DamagePois(input) {
          var rec :| rec in WithPoi(Records(vs)) && rec.poi == x && rec.kind == "primary";
          WithPoiMember(Records(vs), rec);
          RecordsMember(vs, rec);
        }
        if PrimaryDamage(vs, x) {
          var i, j :| 0 <= i < |vs| && Damaged(vs[i]) && 0 <= j < |vs[i].regions| &&
            RegionRecord(vs[i].filename, vs[i].regions[j]).poi == x && x != "" &&
            RegionRecord(vs[i].filename, vs[i].regions[j]).kind == "primary";
          var rec := RegionRecord(vs[i].filename, vs[i].regions[j]);
          RecordsMember(vs, rec);
          WithPoiMember(Records(vs), rec);
        }
      }
    }
  }

  /** The inner loop of the first pass: the records of one result's regions whose stripped POI
      is non-empty. */
  method CollectRegionRecords(filename: Option<string>, regions: seq<Region>) returns (out: seq<DamageRecord>)
    ensures out == WithPoi(RegionRecords(filename, regions))
  {
    out := [];
    for j := 0 to |regions|
      invariant out == WithPoi(RegionRecords(filename, regions[..j]))
    {
      var rec := RegionRecord(filename, regions[j]);
      FlatMapSnoc(regions, j, RegionStep(filename));
      FilterConcat(RegionRecords(filename, regions[..j]), [rec], HasPoi);
      if rec.poi != "" {
        out := out + [rec];
      }
    }
    assert regions[..|regions|] == regions;
  }

  /** The first pass of `convert_to_damage_poi_format`: the records of the regions of damaged
      results whose stripped POI is non-empty. */
  method CollectDamageRegions(vs: seq<Validation>) returns (all: seq<DamageRecord>)
    ensures all == WithPoi(Records(vs))
  {
    all := [];
    for i := 0 to |vs|
      invariant all == WithPoi(Records(vs[..i]))
    {
      var v := vs[i];
      var more: seq<DamageRecord> := [];
      if Damaged(v) {
        more := CollectRegionRecords(v.filename, v.regions);
      }
      FlatMapSnoc(vs, i, ItemRecords);
      FilterConcat(Records(vs[..i]), ItemRecords(v), HasPoi);
      all := all + more;
    }
    assert vs[..|vs|] == vs;
  }

  /** The `any(...)` of `convert_to_damage_poi_format`: some record is major and primary. */
  method HasMajorPrimary(all: seq<DamageRecord>) returns (b: bool)
    ensures b <==> exists q :: 0 <= q < |all| && all[q].severity == "major" && IsPrimary(all[q])
  {
    b := false;
    for k := 0 to |all|
      invariant b <==> exists q :: 0 <= q < k && all[q].severity == "major" && IsPrimary(all[q])
    {
      if all[k].severity == "major" && all[k].kind == "primary" {
        b := true;
      }
    }
  }

  /** The filtering loop of `convert_to_damage_poi_format`: both branches of the severity test
      keep exactly the primary records, in order. */
  method FilterPrimary(all: seq<DamageRecord>) returns (filtered: seq<DamageRecord>)
    ensures filtered == Filter(all, IsPrimary)
  {
    var majorPrimary := HasMajorPrimary(all);
    filtered := [];
    for k := 0 to |all|
      invariant filtered == Filter(all[..k], IsPrimary)
    {
      FilterSnoc(all, k, IsPrimary);
      if majorPrimary {
        if all[k].kind == "primary" {
          filtered := filtered + [all[k]];
        }
      } else {
        if all[k].kind == "primary" {
          filtered := filtered + [all[k]];
        }
      }
    }
    assert all[..|all|] == all;
  }

  /** Keeping only the primary records first leaves the primary POIs as they are. */
  lemma PrimaryPoisFiltered(rs: seq<DamageRecord>)
    ensures PrimaryPois(Filter(rs, IsPrimary)) == PrimaryPois(rs)
    ensures forall rec :: rec in Filter(rs, IsPrimary) ==> rec.kind == "primary"
  {
    FilterMapFilter(rs, IsPrimary, PrimaryPoi);
    forall rec | rec in Filter(rs, IsPrimary)
      ensures rec.kind == "primary"
    {
      FilterMember(rs, IsPrimary, rec);
    }
  }

  /** The set-building loop over the kept records: `unique_pois.update([poi_name])`. */
  method UniquePois(filtered: seq<DamageRecord>) returns (unique: seq<string>)
    requires forall rec :: rec in filtered ==> rec.kind == "primary"
    ensures unique == SortedDistinct(PrimaryPois(filtered))
  {
    unique := [];
    for k := 0 to |filtered|
      invariant unique == SortedDistinct(PrimaryPois(filtered[..k]))
    {
      FilterMapSnoc(filtered, k, PrimaryPoi);
      assert PrimaryPoi(filtered[k]) == Some(filtered[k].poi);
      unique := InsertSorted(unique, filtered[k].poi);
    }
    assert filtered[..|filtered|] == filtered;
  }

  /** `convert_to_damage_poi_format(damage_results)`, loops and all. */
  method ConvertToDamagePoiFormat(input: ValidationInput) returns (r: seq<string>)
    ensures r == DamagePois(input)
  {
    if input.NotAList? {
      return [];
    }
    var all := CollectDamageRegions(input.items);
    if all == [] {
      return [];
    }
    var filtered := FilterPrimary(all);
    PrimaryPoisFiltered(all);
    r := UniquePois(filtered);
  }

  // ---------------------------------------------------------------------------------------
  // convert_to_poi_format (529-572)
  // ---------------------------------------------------------------------------------------

  /** One classified image: `None` is a key the item lacks; `source` is the field the merge
      with the validation results sets. */
  datatype PoiItem = PoiItem(filename: Option<string>, labels: Option<seq<string>>, source: Option<string>)

  /** `item.get('labels', [])`. */
  function LabelsOf(item: PoiItem): seq<string> {
    item.labels.GetOr([])
  }

  /** One append of the triple loop: `poi_dict[name].append(file)`. */
  datatype Pair = Pair(name: string, file: string)

  /** `poi_dict`: its keys in insertion order and the image list of each. */
  datatype PoiDict = PoiDict(keys: seq<string>, images: map<string, seq<string>>)

  const EmptyDict := PoiDict([], map[])

  /** Creates the key's empty list when it is new, then appends the image. */
  function Add(d: PoiDict, p: Pair): PoiDict {
    if p.name in d.images then PoiDict(d.keys, d.images[p.name := d.images[p.name] + [p.file]])
    else PoiDict(d.keys + [p.name], d.images[p.name := [p.file]])
  }

  /** The dictionary after the appends `ps`, in order, starting from `d`. */
  function AddAll(d: PoiDict, ps: seq<Pair>): PoiDict {
    if ps == [] then d else Add(AddAll(d, ps[..|ps| - 1]), ps[|ps| - 1])
  }

  /** What the innermost loop appends for one name: the image under the stripped name. */
  function NameStep(file: string): string -> seq<Pair> {
    name => [Pair(Strip(name), file)]
  }

  /** The appends of the innermost loop: one per name of `POI_MAPPING.get(label, [label])`. */
  function NamePairs(file: string, names: seq<string>): seq<Pair> {
    FlatMap(names, NameStep(file))
  }

  /** What the label loop appends for one label: the appends of its names. */
  function LabelStep(mapping: map<string, seq<string>>, file: string): string -> seq<Pair> {
    key => NamePairs(file, MappedLabels(mapping, key))
  }

  /** The appends for one image's labels. */
  function LabelPairs(mapping: map<string, seq<string>>, file: string, labels: seq<string>): seq<Pair> {
    FlatMap(labels, LabelStep(mapping, file))
  }

  /** What the item loop appends for one item: the appends of its labels. */
  function ItemStep(mapping: map<string, seq<string>>): PoiItem -> seq<Pair> {
    (item: PoiItem) => LabelPairs(mapping, item.filename.GetOr(""), LabelsOf(item))
  }

  /** The appends for every item, in loop order. */
  function ItemPairs(mapping: map<string, seq<string>>, items: seq<PoiItem>): seq<Pair> {
    FlatMap(items, ItemStep(mapping))
  }

  /** One output object: the POI and `list(set(images))`, whose order Python leaves open. */
  datatype PoiEntry = PoiEntry(poi: string, images: set<string>)

  function ImagesOf(d: PoiDict, name: string): set<string> {
    if name in d.images then set x | x in d.images[name] else {}
  }

  /** The output list, one entry per key in insertion order. */
  function Entries(d: PoiDict): seq<PoiEntry> {
    seq(|d.keys|, k requires 0 <= k < |d.keys| => PoiEntry(d.keys[k], ImagesOf(d, d.keys[k])))
  }

  /** `convert_to_poi_format({'items': items})`: `item['filename']` raises on an item without one. */
  function PoiFormat(mapping: map<string, seq<string>>, items: seq<PoiItem>): Outcome<seq<PoiEntry>> {
    if exists i :: 0 <= i < |items| && items[i].filename.None? then Crash("KeyError: 'filename'")
    else Ok(Entries(AddAll(EmptyDict, ItemPairs(mapping, items))))
  }

  /** The dictionary's shape: distinct keys, exactly the keys of the map, no empty list. */
  ghost predicate DictOk(d: PoiDict) {
    (forall a, b :: 0 <= a < b < |d.keys| ==> d.keys[a] != d.keys[b]) &&
    (forall n :: n in d.images <==> n in d.keys) &&
    (forall n :: n in d.images ==> d.images[n] != [])
  }

  lemma {:induction false} AddAllCompose(d: PoiDict, ps: seq<Pair>, qs: seq<Pair>)
    ensures AddAll(d, ps + qs) == AddAll(AddAll(d, ps), qs)
  {
    if qs == [] {
      assert ps + qs == ps;
    } else {
      var n := |qs| - 1;
      AddAllCompose(d, ps, qs[..n]);
      assert (ps + qs)[..|ps + qs| - 1] == ps + qs[..n];
    }
  }

  /** One append more. */
  lemma AddAllSnoc(d: PoiDict, ps: seq<Pair>, p: Pair)
    ensures AddAll(d, ps + [p]) == Add(AddAll(d, ps), p)
  {
    assert (ps + [p])[..|ps|] == ps;
  }

  /** After the appends `ps` the dictionary keeps its shape, and `f` is listed under `n`
      exactly when some append put it there. */
  lemma {:induction false} AddAllSpec(ps: seq<Pair>)
    ensures var d := AddAll(EmptyDict, ps);
      DictOk(d) && forall n, f :: n in d.images && f in d.images[n] <==> Pair(n, f) in ps
  {
    if ps != [] {
      var m := |ps| - 1;
      AddAllSpec(ps[..m]);
      assert forall x :: x in ps <==> x in ps[..m] || x == ps[m] by {
        assert ps == ps[..m] + [ps[m]];
      }
      AddSpec(AddAll(EmptyDict, ps[..m]), ps[m]);
    }
  }

  /** One append keeps the dictionary's shape and lists exactly one more image under a name. */
  lemma AddSpec(d: PoiDict, p: Pair)
    requires DictOk(d)
    ensures DictOk(Add(d, p))
    ensures forall n, f :: n in Add(d, p).images && f in Add(d, p).images[n] <==>
      (n in d.images && f in d.images[n]) || Pair(n, f) == p
  {
    if p.name !in d.images {
      var d' := Add(d, p);
      forall a, b | 0 <= a < b < |d'.keys|
        ensures d'.keys[a] != d'.keys[b]
      {
        if b == |d.keys| {
          assert d.keys[a] in d.keys;
        }
      }
    }
  }

  lemma NamePairsMember(file: string, names: seq<string>, p: Pair)
    ensures p in NamePairs(file, names) <==> p.file == file && exists k :: 0 <= k < |names| && p.name == Strip(names[k])
  {
    FlatMapMember(names, NameStep(file), p);
    assert forall k :: 0 <= k < |names| ==> (p in NameStep(file)(names[k]) <==> p == Pair(Strip(names[k]), file));
  }

  lemma LabelPairsMember(mapping: map<string, seq<string>>, file: string, labels: seq<string>, p: Pair)
    ensures p in LabelPairs(mapping, file, labels) <==> (p.file == file &&
      exists j, k :: 0 <= j < |labels| && 0 <= k < |MappedLabels(mapping, labels[j])| && p.name == Strip(MappedLabels(mapping, labels[j])[k]))
  {
    FlatMapMember(labels, LabelStep(mapping, file), p);
    if p in LabelPairs(mapping, file, labels) {
      var j :| 0 <= j < |labels| && p in LabelStep(mapping, file)(labels[j]);
      NamePairsMember(file, MappedLabels(mapping, labels[j]), p);
    }
    if p.file == file && exists j, k :: 0 <= j < |labels| && 0 <= k < |MappedLabels(mapping, labels[j])| && p.name == Strip(MappedLabels(mapping, labels[j])[k]) {
      var j, k :| 0 <= j < |labels| && 0 <= k < |MappedLabels(mapping, labels[j])| && p.name == Strip(MappedLabels(mapping, labels[j])[k]);
      NamePairsMember(file, MappedLabels(mapping, labels[j]), p);
      assert p in LabelStep(mapping, file)(labels[j]);
    }
  }

  lemma ItemPairsMember(mapping: map<string, seq<string>>, items: seq<PoiItem>, p: Pair)
    ensures p in ItemPairs(mapping, items) <==>
      exists i :: 0 <= i < |items| && p in LabelPairs(mapping, items[i].filename.GetOr(""), LabelsOf(items[i]))
  {
    FlatMapMember(items, ItemStep(mapping), p);
    assert forall i :: 0 <= i < |items| ==>
      ItemStep(mapping)(items[i]) == LabelPairs(mapping, items[i].filename.GetOr(""), LabelsOf(items[i]));
  }

  /** Image `f` carries the stripped name `n` through one of its labels. */
  ghost predicate Labelled(mapping: map<string, seq<string>>, items: seq<PoiItem>, n: string, f: string) {
    exists i, j, k :: 0 <= i < |items| && items[i].filename == Some(f) &&
      0 <= j < |LabelsOf(items[i])| && 0 <= k < |MappedLabels(mapping, LabelsOf(items[i])[j])| &&
      n == Strip(MappedLabels(mapping, LabelsOf(items[i])[j])[k])
  }

  /** With every filename present, an append of `f` under `n` happens exactly when one of the
      image's labels maps to that stripped name. */
  lemma ItemPairsLabelled(mapping: map<string, seq<string>>, items: seq<PoiItem>, n: string, f: string)
    requires forall i :: 0 <= i < |items| ==> items[i].filename.Some?
    ensures Pair(n, f) in ItemPairs(mapping, items) <==> Labelled(mapping, items, n, f)
  {
    ItemPairsMember(mapping, items, Pair(n, f));
    if Pair(n, f) in ItemPairs(mapping, items) {
      var i :| 0 <= i < |items| && Pair(n, f) in LabelPairs(mapping, items[i].filename.GetOr(""), LabelsOf(items[i]));
      LabelPairsMember(mapping, items[i].filename.GetOr(""), LabelsOf(items[i]), Pair(n, f));
      var j, k :| 0 <= j < |LabelsOf(items[i])| && 0 <= k < |MappedLabels(mapping, LabelsOf(items[i])[j])| &&
        n == Strip(MappedLabels(mapping, LabelsOf(items[i])[j])[k]);
      assert items[i].filename == Some(f);
    }
    if Labelled(mapping, items, n, f) {
      var i, j, k :| 0 <= i < |items| && items[i].filename == Some(f) &&
        0 <= j < |LabelsOf(items[i])| && 0 <= k < |MappedLabels(mapping, LabelsOf(items[i])[j])| &&
        n == Strip(MappedLabels(mapping, LabelsOf(items[i])[j])[k]);
      LabelPairsMember(mapping, f, LabelsOf(items[i]), Pair(n, f));
    }
  }

  /** The entries of a well-shaped dictionary have distinct POIs and no empty image set. */
  lemma EntriesShape(d: PoiDict)
    requires DictOk(d)
    ensures forall a, b :: 0 <= a < b < |Entries(d)| ==> Entries(d)[a].poi != Entries(d)[b].poi
    ensures forall e :: e in Entries(d) ==> e.images != {}
  {
    var es := Entries(d);
    forall e | e in es
      ensures e.images != {}
    {
      var k :| 0 <= k < |es| && es[k] == e;
      assert d.keys[k] in d.images;
      assert d.images[d.keys[k]][0] in e.images;
    }
  }

  /** An entry lists `f` under `n` exactly when the dictionary does. */
  lemma EntriesImages(d: PoiDict, n: string, f: string)
    requires DictOk(d)
    ensures (exists e :: e in Entries(d) && e.poi == n && f in e.images) <==> n in d.images && f in d.images[n]
  {
    var es := Entries(d);
    if exists e :: e in es && e.poi == n && f in e.images {
      var e :| e in es && e.poi == n && f in e.images;
      var k :| 0 <= k < |es| && es[k] == e;
      assert d.keys[k] == n;
    }
    if n in d.images && f in d.images[n] {
      var q :| 0 <= q < |d.keys| && d.keys[q] == n;
      assert es[q].poi == n && f in es[q].images;
    }
  }

  /** Every item needs a filename; then the POIs are distinct, none has an empty image set, and
      an image is listed under a POI exactly when one of its labels maps to that stripped name. */
  lemma PoiFormatSpec(mapping: map<string, seq<string>>, items: seq<PoiItem>)
    ensures PoiFormat(mapping, items).Ok? <==> forall i :: 0 <= i < |items| ==> items[i].filename.Some?
    ensures PoiFormat(mapping, items).Ok? ==> var es := PoiFormat(mapping, items).value;
      (forall a, b :: 0 <= a < b < |es| ==> es[a].poi != es[b].poi) &&
      (forall e :: e in es ==> e.images != {}) &&
      (forall n, f :: (exists e :: e in es && e.poi == n && f in e.images) <==> Labelled(mapping, items, n, f))
  {
    if PoiFormat(mapping, items).Ok? {
      var ps := ItemPairs(mapping, items);
      EntriesOfPairs(ps);
      forall n, f
        ensures Pair(n, f) in ps <==> Labelled(mapping, items, n, f)
      {
        ItemPairsLabelled(mapping, items, n, f);
      }
    }
  }

  /** The output after the appends `ps`: distinct POIs, no empty image set, and `f` listed under
      `n` exactly when some append put it there. */
  lemma EntriesOfPairs(ps: seq<Pair>)
    ensures var es := Entries(AddAll(EmptyDict, ps));
      (forall a, b :: 0 <= a < b < |es| ==> es[a].poi != es[b].poi) &&
      (forall e :: e in es ==> e.images != {}) &&
      (forall n, f :: (exists e :: e in es && e.poi == n && f in e.images) <==> Pair(n, f) in ps)
  {
    var d := AddAll(EmptyDict, ps);
    AddAllSpec(ps);
    EntriesShape(d);
    forall n, f
      ensures (exists e :: e in Entries(d) && e.poi == n && f in e.images) <==> Pair(n, f) in ps
    {
      EntriesImages(d, n, f);
    }
  }

  /** The innermost loop: the stripped names of one label, appended under one image. */
  method AddNames(d: PoiDict, file: string, names: seq<string>) returns (r: PoiDict)
    ensures r == AddAll(d, NamePairs(file, names))
  {
    r := d;
    for k := 0 to |names|
      invariant r == AddAll(d, NamePairs(file, names[..k]))
    {
      FlatMapSnoc(names, k, NameStep(file));
      var name := Strip(names[k]);
      ghost var before := r;
      if name !in r.images {
        r := PoiDict(r.keys + [name], r.images[name := []]);
      }
      var list := r.images[name] + [file];
      r := PoiDict(r.keys, r.images[name := list]);
      if name !in before.images {
        assert list == [file];
        assert r.images == before.images[name := [file]];
      }
      assert r == Add(before, Pair(name, file));
      AddAllSnoc(d, NamePairs(file, names[..k]), Pair(name, file));
    }
    assert names[..|names|] == names;
  }

  /** The label loop for one image. */
  method AddLabels(mapping: map<string, seq<string>>, d: PoiDict, file: string, labels: seq<string>) returns (r: PoiDict)
    ensures r == AddAll(d, LabelPairs(mapping, file, labels))
  {
    r := d;
    for j := 0 to |labels|
      invariant r == AddAll(d, LabelPairs(mapping, file, labels[..j]))
    {
      FlatMapSnoc(labels, j, LabelStep(mapping, file));
      AddAllCompose(d, LabelPairs(mapping, file, labels[..j]), NamePairs(file, MappedLabels(mapping, labels[j])));
      r := AddNames(r, file, MappedLabels(mapping, labels[j]));
    }
    assert labels[..|labels|] == labels;
  }

  /** The final loop of `convert_to_poi_format`: one entry per key, in insertion order. */
  method EntriesOf(d: PoiDict) returns (es: seq<PoiEntry>)
    ensures es == Entries(d)
  {
    es := [];
    for k := 0 to |d.keys|
      invariant es == Entries(d)[..k]
    {
      var name := d.keys[k];
      var images: set<string> := {};
      if name in d.images {
        images := set x | x in d.images[name];
      }
      es := es + [PoiEntry(name, images)];
    }
  }

  /** One item more: the dictionary after its label loop. */
  lemma ItemPairsSnoc(mapping: map<string, seq<string>>, items: seq<PoiItem>, i: nat)
    requires i < |items| && items[i].filename.Some?
    ensures AddAll(EmptyDict, ItemPairs(mapping, items[..i + 1])) ==
      AddAll(AddAll(EmptyDict, ItemPairs(mapping, items[..i])), LabelPairs(mapping, items[i].filename.value, LabelsOf(items[i])))
  {
    FlatMapSnoc(items, i, ItemStep(mapping));
    AddAllCompose(EmptyDict, ItemPairs(mapping, items[..i]), LabelPairs(mapping, items[i].filename.value, LabelsOf(items[i])));
  }

  /** The body of the item loop: one image's labels, appended. */
  method AddItem(mapping: map<string, seq<string>>, items: seq<PoiItem>, i: nat, d: PoiDict) returns (r: PoiDict)
    requires i < |items| && items[i].filename.Some?
    requires d == AddAll(EmptyDict, ItemPairs(mapping, items[..i]))
    ensures r == AddAll(EmptyDict, ItemPairs(mapping, items[..i + 1]))
  {
    ItemPairsSnoc(mapping, items, i);
    r := AddLabels(mapping, d, items[i].filename.value, LabelsOf(items[i]));
  }

  /** The item loop of `convert_to_poi_format`: every image's appends, or the `KeyError` of the
      first item without a filename. */
  method AddItems(mapping: map<string, seq<string>>, items: seq<PoiItem>) returns (r: Outcome<PoiDict>)
    ensures r.Ok? <==> forall i :: 0 <= i < |items| ==> items[i].filename.Some?
    ensures r.Ok? ==> r.value == AddAll(EmptyDict, ItemPairs(mapping, items))
    ensures r.Crash? ==> r.reason == "KeyError: 'filename'"
  {
    var d := EmptyDict;
    for i := 0 to |items|
      invariant forall q :: 0 <= q < i ==> items[q].filename.Some?
      invariant d == AddAll(EmptyDict, ItemPairs(mapping, items[..i]))
    {
      if items[i].filename.None? {
        return Crash("KeyError: 'filename'");
      }
      assert forall q :: 0 <= q < i + 1 ==> items[q].filename.Some?;
      d := AddItem(mapping, items, i, d);
    }
    assert items[..|items|] == items;
    return Ok(d);
  }

  /** `convert_to_poi_format({'items': items})`, loops and all. */
  method ConvertToPoiFormat(items: seq<PoiItem>) returns (r: Outcome<seq<PoiEntry>>)
    ensures r == PoiFormat(PoiMapping, items)
  {
    var d := AddItems(PoiMapping, items);
    if d.Crash? {
      return Crash(d.reason);
    }
    var es := EntriesOf(d.value);
    return Ok(es);
  }

  // ---------------------------------------------------------------------------------------
  // combine_onnx_openai_results (346-411)
  // ---------------------------------------------------------------------------------------

  /** `next((v for v in validation if v.get('filename') == file), None)`. */
  function FindValidation(file: string, vs: seq<Validation>): (r: Option<Validation>)
    ensures r.Some? ==> exists i :: (0 <= i < |vs| && vs[i] == r.value && r.value.filename == Some(file) &&
                                     forall q :: 0 <= q < i ==> vs[q].filename != Some(file))
    ensures r.None? <==> forall i :: 0 <= i < |vs| ==> vs[i].filename != Some(file)
  {
    if vs == [] then None
    else if vs[0].filename == Some(file) then Some(vs[0])
    else
      var r := FindValidation(file, vs[1..]);
      assert r.Some? ==> exists i :: (0 <= i < |vs| && vs[i] == r.value && r.value.filename == Some(file) &&
                                       forall q :: 0 <= q < i ==> vs[q].filename != Some(file)) by {
        if r.Some? {
          var i :| 0 <= i < |vs[1..]| && vs[1..][i] == r.value && r.value.filename == Some(file) &&
            forall q :: 0 <= q < i ==> vs[1..][q].filename != Some(file);
          assert vs[i + 1] == r.value;
          forall q | 0 <= q < i + 1
            ensures vs[q].filename != Some(file)
          {
            if q > 0 {
              assert vs[q] == vs[1..][q - 1];
            }
          }
        }
      }
      assert r.None? ==> forall i :: 0 <= i < |vs| ==> vs[i].filename != Some(file) by {
        if r.None? {
          forall i | 0 < i < |vs|
            ensures vs[i].filename != Some(file)
          {
            assert vs[i] == vs[1..][i - 1];
          }
        }
      }
      r
  }

  /** Validations at or above this confidence replace the model's labels. */
  const HighConfidence: real := 0.6

  /** The update of one item: a matching validation without a confidence raises on the
      comparison, and `item['labels']`, evaluated as the default, raises when the item has none. */
  function UpdateItem(item: PoiItem, vs: seq<Validation>): Outcome<PoiItem> {
    if item.filename.None? then Crash("KeyError: 'filename'")
    else
      match FindValidation(item.filename.value, vs)
      case None => Ok(item)
      case Some(v) =>
        if v.confidence.None? then Crash("TypeError: '>=' not supported between instances of 'NoneType' and 'float'")
        else if v.confidence.value >= HighConfidence then
          if item.labels.None? then Crash("KeyError: 'labels'")
          else Ok(PoiItem(item.filename, Some(v.validatedLabels.GetOr(item.labels.value)), Some("OpenAI (high confidence)")))
        else Ok(item.(source := Some("ONNX (OpenAI low confidence)")))
  }

  /** What the item loop does with one item. */
  function UpdateStep(vs: seq<Validation>): PoiItem -> Outcome<PoiItem> {
    item => UpdateItem(item, vs)
  }

  /** The updated items, in order, or the first failure. */
  function UpdateItems(items: seq<PoiItem>, vs: seq<Validation>): Outcome<seq<PoiItem>> {
    MapAll(items, UpdateStep(vs))
  }

  /** The first validation for the item's image exists and is confident enough. */
  predicate Confirmed(file: string, vs: seq<Validation>) {
    var m := FindValidation(file, vs);
    m.Some? && m.value.confidence.Some? && m.value.confidence.value >= HighConfidence
  }

  /** The labels change only for a confirmed image, to the validated labels when the validation
      has them; the filename never changes; the item fails exactly on a missing filename, a
      matching validation without confidence, or a confirmed item without labels. */
  lemma UpdateItemSpec(item: PoiItem, vs: seq<Validation>)
    ensures UpdateItem(item, vs).Crash? <==>
      item.filename.None? ||
      (var m := FindValidation(item.filename.value, vs);
       m.Some? && (m.value.confidence.None? || (m.value.confidence.value >= HighConfidence && item.labels.None?)))
    ensures UpdateItem(item, vs).Ok? ==> var u := UpdateItem(item, vs).value;
      u.filename == item.filename &&
      (Confirmed(item.filename.value, vs) ==>
         u.labels == Some(FindValidation(item.filename.value, vs).value.validatedLabels.GetOr(item.labels.value)) &&
         u.source == Some("OpenAI (high confidence)")) &&
      (!Confirmed(item.filename.value, vs) ==> u.labels == item.labels) &&
      (FindValidation(item.filename.value, vs).None? ==> u == item)
  {
  }

  /** One updated item per item, in the same order, or the first failure. */
  lemma UpdateItemsSpec(items: seq<PoiItem>, vs: seq<Validation>)
    ensures UpdateItems(items, vs).Ok? <==> forall i :: 0 <= i < |items| ==> UpdateItem(items[i], vs).Ok?
    ensures UpdateItems(items, vs).Ok? ==> var r := UpdateItems(items, vs).value;
      |r| == |items| && forall i :: 0 <= i < |items| ==> r[i] == UpdateItem(items[i], vs).value
  {
    MapAllSpec(items, UpdateStep(vs));
    assert forall i :: 0 <= i < |items| ==> UpdateStep(vs)(items[i]) == UpdateItem(items[i], vs);
  }

  /** What `convert_to_poi_format` reads of an item: its filename and labels. */
  lemma {:induction false} ItemPairsReadsLabels(mapping: map<string, seq<string>>, a: seq<PoiItem>, b: seq<PoiItem>)
    requires |a| == |b|
    requires forall i :: 0 <= i < |a| ==> a[i].filename == b[i].filename && a[i].labels == b[i].labels
    ensures ItemPairs(mapping, a) == ItemPairs(mapping, b)
  {
    if a != [] {
      var n := |a| - 1;
      ItemPairsReadsLabels(mapping, a[..n], b[..n]);
      assert ItemStep(mapping)(a[n]) == ItemStep(mapping)(b[n]);
    }
  }

  /** The handler's result; `openai_validation` echoes the argument and the text fields
      (`reasons`, `is_onnx_correct`, `openai_confidence`) are not modelled. */
  datatype Combined = Combined(finalResults: seq<PoiEntry>, damagePois: seq<string>, allDamagedRegions: seq<DamageRecord>)

  /** `openai_validation and isinstance(openai_validation, list)`. */
  predicate HasValidation(validation: ValidationInput) {
    validation.ValidationList? && validation.items != []
  }

  /** `combine_onnx_openai_results(onnx_results, openai_validation)`. */
  function Combine(items: seq<PoiItem>, validation: ValidationInput): Outcome<Combined> {
    if HasValidation(validation) then
      var updated :- UpdateItems(items, validation.items);
      var final :- PoiFormat(PoiMapping, updated);
      Ok(Combined(final, DamagePois(validation), Records(validation.items)))
    else
      var final :- PoiFormat(PoiMapping, items);
      Ok(Combined(final, [], []))
  }

  /** Without a non-empty validation list the result is the POI format of the model's own
      labels and there are neither damage POIs nor regions; with one, the damage POIs are those
      of the validation and the regions are every region of a damaged result, POIs stripped. */
  lemma CombineSpec(items: seq<PoiItem>, validation: ValidationInput)
    ensures !HasValidation(validation) ==>
      (Combine(items, validation).Ok? <==> PoiFormat(PoiMapping, items).Ok?) &&
      (Combine(items, validation).Ok? ==>
         Combine(items, validation).value == Combined(PoiFormat(PoiMapping, items).value, [], []))
    ensures HasValidation(validation) && Combine(items, validation).Ok? ==>
      var c := Combine(items, validation).value;
      c.damagePois == DamagePois(validation) && c.allDamagedRegions == Records(validation.items) &&
      UpdateItems(items, validation.items).Ok? &&
      PoiFormat(PoiMapping, UpdateItems(items, validation.items).value) == Ok(c.finalResults)
  {
  }

  /** When no image is confirmed, the validation changes only the items' sources, so the final
      results are those of the model's labels. */
  lemma CombineUnconfirmed(items: seq<PoiItem>, validation: ValidationInput)
    requires HasValidation(validation)
    requires forall i :: 0 <= i < |items| ==> items[i].filename.Some? && !Confirmed(items[i].filename.value, validation.items)
    requires Combine(items, validation).Ok?
    ensures Ok(Combine(items, validation).value.finalResults) == PoiFormat(PoiMapping, items)
  {
    var vs := validation.items;
    UpdateItemsSpec(items, vs);
    var updated := UpdateItems(items, vs).value;
    forall i | 0 <= i < |items|
      ensures updated[i].filename == items[i].filename && updated[i].labels == items[i].labels
    {
      UpdateItemSpec(items[i], vs);
    }
    ItemPairsReadsLabels(PoiMapping, updated, items);
  }

  /** The inner loop of the region pass: every region's record, POI stripped. */
  method RegionRecordsOf(filename: Option<string>, regions: seq<Region>) returns (out: seq<DamageRecord>)
    ensures out == RegionRecords(filename, regions)
  {
    out := [];
    for j := 0 to |regions|
      invariant out == RegionRecords(filename, regions[..j])
    {
      FlatMapSnoc(regions, j, RegionStep(filename));
      out := out + [RegionRecord(filename, regions[j])];
    }
    assert regions[..|regions|] == regions;
  }

  /** `all_regions`: the records of every region of a damaged result, in order. */
  method AllDamagedRegions(vs: seq<Validation>) returns (all: seq<DamageRecord>)
    ensures all == Records(vs)
  {
    all := [];
    for i := 0 to |vs|
      invariant all == Records(vs[..i])
    {
      FlatMapSnoc(vs, i, ItemRecords);
      if Damaged(vs[i]) {
        var more := RegionRecordsOf(vs[i].filename, vs[i].regions);
        all := all + more;
      }
    }
    assert vs[..|vs|] == vs;
  }

  /** The item loop of `combine_onnx_openai_results`. */
  method UpdateAll(items: seq<PoiItem>, vs: seq<Validation>) returns (r: Outcome<seq<PoiItem>>)
    ensures r == UpdateItems(items, vs)
  {
    var updated: seq<PoiItem> := [];
    for i := 0 to |items|
      invariant UpdateItems(items[..i], vs) == Ok(updated)
    {
      assert items[..i + 1][..i] == items[..i];
      var item := UpdateItem(items[i], vs);
      if item.Crash? {
        MapAllCrash(items, UpdateStep(vs), i + 1);
        return Crash(item.reason);
      }
      updated := updated + [item.value];
    }
    assert items[..|items|] == items;
    return Ok(updated);
  }

  /** `combine_onnx_openai_results(onnx_results, openai_validation)`, loops and all. */
  method CombineOnnxOpenaiResults(items: seq<PoiItem>, validation: ValidationInput) returns (r: Outcome<Combined>)
    ensures r == Combine(items, validation)
  {
    if HasValidation(validation) {
      var updated := UpdateAll(items, validation.items);
      if updated.Crash? {
        return Crash(updated.reason);
      }
      var final := ConvertToPoiFormat(updated.value);
      if final.Crash? {
        return Crash(final.reason);
      }
      var regions := AllDamagedRegions(validation.items);
      var pois := ConvertToDamagePoiFormat(validation);
      return Ok(Combined(final.value, pois, regions));
    } else {
      var final := ConvertToPoiFormat(items);
      if final.Crash? {
        return Crash(final.reason);
      }
      return Ok(Combined(final.value, [], []));
    }
  }
}
