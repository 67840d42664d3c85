/** The batch driver of est-v2-get-pois-from-description-images/utils.py: the image paths are cut
    into consecutive batches, each batch's POI mapping is obtained from the model, and the
    mappings are merged into one dictionary of image sets. */
module PoiBatches {
  import opened Wrappers
  import opened Arith
  import opened Sequences

  // ---------------------------------------------------------------------------------------
  // merge_poi_mappings (48-55)
  // ---------------------------------------------------------------------------------------

  /** One `poi: images` item of a batch's mapping. */
  datatype Entry = Entry(poi: string, images: seq<string>)

  /** `combined`: its keys in insertion order and the image set of each; the output's
      `list(imgs)` has the same elements in an order Python leaves open. */
  datatype Combined = Combined(keys: seq<string>, images: map<string, set<string>>)

  const Empty := Combined([], map[])

  /** `combined[poi]` created empty when new, then `.update(imgs)`. */
  function Update(c: Combined, e: Entry): Combined {
    var add := set x | x in e.images;
    if e.poi in c.images then Combined(c.keys, c.images[e.poi := c.images[e.poi] + add])
    else Combined(c.keys + [e.poi], c.images[e.poi := add])
  }

  /** The dictionary after the updates `es`, in order, starting from `c`. */
  function MergeFrom(c: Combined, es: seq<Entry>): Combined {
    if es == [] then c else Update(MergeFrom(c, es[..|es| - 1]), es[|es| - 1])
  }

  /** Every item of every mapping, in loop order. */
  function Items(mappings: seq<seq<Entry>>): seq<Entry> {
    if mappings == [] then [] else Items(mappings[..|mappings| - 1]) + mappings[|mappings| - 1]
  }

  /** `merge_poi_mappings(mappings)`. */
  function MergePoiMappings(mappings: seq<seq<Entry>>): Combined {
    MergeFrom(Empty, Items(mappings))
  }

  /** Distinct keys, exactly the keys of the map. */
  ghost predicate CombinedOk(c: Combined) {
    (forall a, b :: 0 <= a < b < |c.keys| ==> c.keys[a] != c.keys[b]) &&
    (forall poi :: poi in c.images <==> poi in c.keys)
  }

  lemma {:induction false} MergeFromCompose(c: Combined, es: seq<Entry>, fs: seq<Entry>)
    ensures MergeFrom(c, es + fs) == MergeFrom(MergeFrom(c, es), fs)
  {
    if fs == [] {
      assert es + fs == es;
    } else {
      var n := |fs| - 1;
      MergeFromCompose(c, es, fs[..n]);
      assert (es + fs)[..|es + fs| - 1] == es + fs[..n];
    }
  }

  lemma {:induction false} MergeAllSpec(es: seq<Entry>)
    ensures var c := MergeFrom(Empty, es);
      CombinedOk(c) &&
      (forall poi :: poi in c.images <==> exists e :: e in es && e.poi == poi) &&
      (forall poi, img :: poi in c.images && img in c.images[poi] <==> exists e :: e in es && e.poi == poi && img in e.images)
  {
    if es != [] {
      var n := |es| - 1;
      var pre := es[..n];
      MergeAllSpec(pre);
      assert forall e :: e in es <==> e in pre || e == es[n] by {
        assert es == pre + [es[n]];
      }
      UpdateSpec(MergeFrom(Empty, pre), es[n]);
    }
  }

  /** One update keeps the dictionary's shape, adds the entry's POI as a key, and adds exactly
      the entry's images under it. */
  lemma UpdateSpec(c: Combined, e: Entry)
    requires CombinedOk(c)
    ensures CombinedOk(Update(c, e))
    ensures forall poi :: poi in Update(c, e).images <==> poi in c.images || poi == e.poi
    ensures forall poi, img :: poi in Update(c, e).images && img in Update(c, e).images[poi] <==>
      (poi in c.images && img in c.images[poi]) || (poi == e.poi && img in e.images)
  {
    if e.poi !in c.images {
      var c' := Update(c, e);
      forall a, b | 0 <= a < b < |c'.keys|
        ensures c'.keys[a] != c'.keys[b]
      {
        if b == |c.keys| {
          assert c.keys[a] in c.keys;
        }
      }
    }
  }

  lemma {:induction false} ItemsMember(mappings: seq<seq<Entry>>, e: Entry)
    ensures e in Items(mappings) <==> exists m :: m in mappings && e in m
  {
    if mappings != [] {
      var n := |mappings| - 1;
      ItemsMember(mappings[..n], e);
      assert mappings == mappings[..n] + [mappings[n]];
    }
  }

  /** The keys are distinct and are exactly the keys of the mappings; each key's images are
      exactly the images listed under it in any mapping; no mappings give the empty dictionary. */
  lemma MergePoiMappingsSpec(mappings: seq<seq<Entry>>)
    ensures var c := MergePoiMappings(mappings);
      CombinedOk(c) &&
      (forall poi :: poi in c.images <==> exists m, e :: m in mappings && e in m && e.poi == poi) &&
      (forall poi, img :: poi in c.images && img in c.images[poi] <==>
         exists m, e :: m in mappings && e in m && e.poi == poi && img in e.images) &&
      (mappings == [] ==> c == Empty)
  {
    MergeAllSpec(Items(mappings));
    forall e
      ensures e in Items(mappings) <==> exists m :: m in mappings && e in m
    {
      ItemsMember(mappings, e);
    }
  }

  /** The loop over one mapping's items. */
  method MergeMapping(c: Combined, mapping: seq<Entry>) returns (r: Combined)
    ensures r == MergeFrom(c, mapping)
  {
    r := c;
    for k := 0 to |mapping|
      invariant r == MergeFrom(c, mapping[..k])
    {
      assert mapping[..k + 1][..k] == mapping[..k];
      var poi := mapping[k].poi;
      var add := set x | x in mapping[k].images;
      ghost var before := r;
      if poi !in r.images {
        r := Combined(r.keys + [poi], r.images[poi := {}]);
      }
      var imgs := r.images[poi] + add;
      r := Combined(r.keys, r.images[poi := imgs]);
      if poi !in before.images {
        assert imgs == add;
        assert r.images == before.images[poi := add];
      }
    }
    assert mapping[..|mapping|] == mapping;
  }

  /** `merge_poi_mappings(mappings)`, loops and all. */
  method MergeMappings(mappings: seq<seq<Entry>>) returns (r: Combined)
    ensures r == MergePoiMappings(mappings)
  {
    r := Empty;
    for i := 0 to |mappings|
      invariant r == MergeFrom(Empty, Items(mappings[..i]))
    {
      assert mappings[..i + 1][..i] == mappings[..i];
      MergeFromCompose(Empty, Items(mappings[..i]), mappings[i]);
      r := MergeMapping(r, mappings[i]);
    }
    assert mappings[..|mappings|] == mappings;
  }

  // ---------------------------------------------------------------------------------------
  // process_images_with_user_description (59-75)
  // ---------------------------------------------------------------------------------------

  /** The slices `image_paths[i:i + batch_size]` for `i` in `range(start, len, batch_size)`. */
  function BatchesFrom(paths: seq<string>, size: nat, start: nat): seq<seq<string>>
    requires size > 0
    decreases |paths| - start
  {
    if start >= |paths| then [] else [paths[start..Min(start + size, |paths|)]] + BatchesFrom(paths, size, start + size)
  }

  /** The batches of `range(0, len(image_paths), batch_size)`: a zero step raises, a negative
      step gives an empty range. */
  function Batches(paths: seq<string>, size: int): Outcome<seq<seq<string>>> {
    if size == 0 then Crash("ValueError: range() arg 3 must not be zero")
    else if size < 0 then Ok([])
    else Ok(BatchesFrom(paths, size, 0))
  }


  /** From `start` on, the batches are non-empty, all but the last hold exactly `size` paths,
      and their concatenation is the rest of the paths. */
  lemma {:induction false} BatchesFromCut(paths: seq<string>, size: nat, start: nat)
    requires size > 0
    requires start <= |paths|
    ensures var bs := BatchesFrom(paths, size, start);
      Concat(bs) == paths[start..] &&
      (forall k :: 0 <= k < |bs| ==> 1 <= |bs[k]| <= size) &&
      (forall k :: 0 <= k < |bs| - 1 ==> |bs[k]| == size)
    decreases |paths| - start
  {
    if start < |paths| {
      var next := Min(start + size, |paths|);
      BatchesFromCut(paths, size, next);
      var bs := BatchesFrom(paths, size, start);
      var rest := BatchesFrom(paths, size, next);
      assert bs == [paths[start..next]] + rest;
      assert bs[1..] == rest;
      assert paths[start..] == paths[start..next] + paths[next..];
      if next == |paths| {
        assert rest == [];
      }
    }
  }

  /** There are ceil((len - start) / size) batches from `start` on. */
  lemma {:induction false} BatchesFromCount(paths: seq<string>, size: nat, start: nat)
    requires size > 0
    requires start <= |paths|
    ensures |BatchesFrom(paths, size, start)| == (|paths| - start + size - 1) / size
    decreases |paths| - start
  {
    var left := |paths| - start;
    if start == |paths| {
      DivSmall(size - 1, size);
    } else if start + size < |paths| {
      BatchesFromCount(paths, size, start + size);
      DivStep(left - size + size - 1, size);
    } else {
      assert BatchesFrom(paths, size, start + size) == [];
      DivStep(left - 1, size);
      DivSmall(left - 1, size);
    }
  }

  /** The cut of the whole list: consecutive slices whose concatenation is the input, all of
      `batch_size` paths but the last, and (len + batch_size - 1) // batch_size of them. */
  lemma BatchesSpec(paths: seq<string>, size: int)
    ensures Batches(paths, size).Crash? <==> size == 0
    ensures size < 0 ==> Batches(paths, size) == Ok([])
    ensures size > 0 ==> var bs := Batches(paths, size).value;
      Concat(bs) == paths && |bs| == (|paths| + size - 1) / size &&
      (forall k :: 0 <= k < |bs| ==> 1 <= |bs[k]| <= size) &&
      (forall k :: 0 <= k < |bs| - 1 ==> |bs[k]| == size)
  {
    if size > 0 {
      BatchesFromCut(paths, size, 0);
      BatchesFromCount(paths, size, 0);
    }
  }

  /** The results of `call` on each batch, in order. */
  function Results(bs: seq<seq<string>>, call: seq<string> -> seq<Entry>): seq<seq<Entry>> {
    if bs == [] then [] else [call(bs[0])] + Results(bs[1..], call)
  }

  /** The driver: one model call per batch, then the merge. `call` stands for the encoding of
      the batch's images and `get_pois_for_batch` on them. */
  function ProcessImages(paths: seq<string>, size: int, call: seq<string> -> seq<Entry>): Outcome<Combined> {
    var bs :- Batches(paths, size);
    Ok(MergePoiMappings(Results(bs, call)))
  }

  lemma {:induction false} ResultsSpec(bs: seq<seq<string>>, call: seq<string> -> seq<Entry>)
    ensures |Results(bs, call)| == |bs| && forall k :: 0 <= k < |bs| ==> Results(bs, call)[k] == call(bs[k])
  {
    if bs != [] {
      ResultsSpec(bs[1..], call);
    }
  }

  /** An item of the answers is an item of one batch's answer, and back. */
  lemma ResultsItemsMember(bs: seq<seq<string>>, call: seq<string> -> seq<Entry>, e: Entry)
    ensures e in Items(Results(bs, call)) <==> exists k :: 0 <= k < |bs| && e in call(bs[k])
  {
    var rs := Results(bs, call);
    ResultsSpec(bs, call);
    ItemsMember(rs, e);
    if e in Items(rs) {
      var m :| m in rs && e in m;
      var k :| 0 <= k < |rs| && rs[k] == m;
      assert e in call(bs[k]);
    }
    if exists k :: 0 <= k < |bs| && e in call(bs[k]) {
      var k :| 0 <= k < |bs| && e in call(bs[k]);
      assert rs[k] in rs;
    }
  }

  /** A POI is listed exactly when some batch's answer lists it, with the images every batch
      listed under it. */
  lemma ProcessImagesSpec(paths: seq<string>, size: int, call: seq<string> -> seq<Entry>)
    requires size > 0
    ensures ProcessImages(paths, size, call).Ok?
    ensures var c := ProcessImages(paths, size, call).value; var bs := Batches(paths, size).value;
      (forall poi :: poi in c.images <==> exists k, e :: 0 <= k < |bs| && e in call(bs[k]) && e.poi == poi) &&
      (forall poi, img :: poi in c.images && img in c.images[poi] <==>
         exists k, e :: 0 <= k < |bs| && e in call(bs[k]) && e.poi == poi && img in e.images)
  {
    var bs := Batches(paths, size).value;
    var es := Items(Results(bs, call));
    MergeAllSpec(es);
    var c := MergeFrom(Empty, es);
    forall poi
      ensures poi in c.images <==> exists k, e :: 0 <= k < |bs| && e in call(bs[k]) && e.poi == poi
    {
      if poi in c.images {
        var e :| e in es && e.poi == poi;
        ResultsItemsMember(bs, call, e);
      }
      if exists k, e :: 0 <= k < |bs| && e in call(bs[k]) && e.poi == poi {
        var k, e :| 0 <= k < |bs| && e in call(bs[k]) && e.poi == poi;
        ResultsItemsMember(bs, call, e);
      }
    }
    forall poi, img
      ensures poi in c.images && img in c.images[poi] <==>
        exists k, e :: 0 <= k < |bs| && e in call(bs[k]) && e.poi == poi && img in e.images
    {
      if poi in c.images && img in c.images[poi] {
        var e :| e in es && e.poi == poi && img in e.images;
        ResultsItemsMember(bs, call, e);
      }
      if exists k, e :: 0 <= k < |bs| && e in call(bs[k]) && e.poi == poi && img in e.images {
        var k, e :| 0 <= k < |bs| && e in call(bs[k]) && e.poi == poi && img in e.images;
        ResultsItemsMember(bs, call, e);
      }
    }
  }

  /** `process_images_with_user_description(prompt, image_paths, batch_size)`, loop and all. */
  method ProcessImagesWithUserDescription(paths: seq<string>, size: int, call: seq<string> -> seq<Entry>)
    returns (r: Outcome<Combined>)
    ensures r == ProcessImages(paths, size, call)
  {
    if size == 0 {
      return Crash("ValueError: range() arg 3 must not be zero");
    }
    var results: seq<seq<Entry>> := [];
    if size > 0 {
      var i := 0;
      while i < |paths|
        invariant 0 <= i
        invariant results + Results(BatchesFrom(paths, size, i), call) == Results(BatchesFrom(paths, size, 0), call)
        decreases |paths| - i
      {
        var batch := paths[i..Min(i + size, |paths|)];
        ghost var rest := BatchesFrom(paths, size, i + size);
        assert BatchesFrom(paths, size, i) == [batch] + rest;
        assert ([batch] + rest)[1..] == rest;
        assert Results(BatchesFrom(paths, size, i), call) == [call(batch)] + Results(rest, call);
        results := results + [call(batch)];
        i := i + size;
      }
      assert BatchesFrom(paths, size, i) == [];
      assert results == Results(Batches(paths, size).value, call);
    }
    r := MergeAll(results);
  }

  /** The final merge, as a method. */
  method MergeAll(results: seq<seq<Entry>>) returns (r: Outcome<Combined>)
    ensures r == Ok(MergePoiMappings(results))
  {
    var c := MergeMappings(results);
    return Ok(c);
  }
}
