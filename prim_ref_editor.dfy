/** Reading and reordering the prepended references of one prim.

    The pure part states what the editor computes: the normalised prim
    path, the asset paths a load returns, the asset-path index a save
    builds and the reordered list it writes. `UsdPrimRefEditor` is the
    object that holds the lazily opened layer handle and performs the
    steps in the original's order. */
module PrimRefEditing {
  import opened Wrappers
  import opened Sdf

  // ---------------------------------------------------------------------
  // Prim path normalisation
  // ---------------------------------------------------------------------

  /** The prim path with a leading '/' added when it has none. */
  function NormalizePrimPath(primPath: string): (r: string)
    ensures |r| > 0 && r[0] == '/'
    ensures |primPath| > 0 && primPath[0] == '/' ==> r == primPath
    ensures !(|primPath| > 0 && primPath[0] == '/') ==> r[1..] == primPath
  {
    if |primPath| > 0 && primPath[0] == '/' then primPath else "/" + primPath
  }

  /** Normalising twice is normalising once, and a relative path names the
      same prim as its absolute spelling. */
  lemma NormalizeIdempotent(primPath: string)
    ensures NormalizePrimPath(NormalizePrimPath(primPath)) == NormalizePrimPath(primPath)
    ensures !(|primPath| > 0 && primPath[0] == '/') ==>
              NormalizePrimPath(primPath) == NormalizePrimPath("/" + primPath)
  {
  }

  // ---------------------------------------------------------------------
  // Loading
  // ---------------------------------------------------------------------

  /** The asset paths of a list of references, in order. */
  function AssetPaths(refs: seq<Reference>): (r: seq<string>)
    ensures |r| == |refs|
    ensures forall i :: 0 <= i < |refs| ==> r[i] == refs[i].assetPath
  {
    if refs == [] then [] else [refs[0].assetPath] + AssetPaths(refs[1..])
  }

  /** What a load returns for a prim's reference list: nothing when there
      is no list, else the asset paths of its prepended items. */
  function LoadedAssetPaths(refList: Option<ListOp>): (r: seq<string>)
    ensures refList.None? ==> r == []
    ensures refList.Some? ==> |r| == |refList.value.prependedItems|
    ensures refList.Some? ==>
              forall i :: 0 <= i < |r| ==> r[i] == refList.value.prependedItems[i].assetPath
  {
    match refList
    case None => []
    case Some(op) => AssetPaths(op.prependedItems)
  }

  /** A whole load on a layer's prims: the prim must exist. */
  function LoadEffect(rootPrims: seq<PrimSpec>, primPath: string): (r: Result<seq<string>>)
    ensures r.Err? <==> GetPrimAtPath(rootPrims, primPath).None?
    ensures r.Err? ==> r.error == PrimNotFound(primPath)
  {
    match GetPrimAtPath(rootPrims, primPath)
    case None => Err(PrimNotFound(primPath))
    case Some(spec) => Ok(LoadedAssetPaths(spec.referenceList))
  }

  // ---------------------------------------------------------------------
  // Saving: the index by asset path and the reordered list
  // ---------------------------------------------------------------------

  /** `refs[i]` is the last entry of `refs` whose asset path is `path`. */
  predicate IsLastFor(refs: seq<Reference>, i: int, path: string) {
    0 <= i < |refs| && refs[i].assetPath == path &&
    forall j :: i < j < |refs| ==> refs[j].assetPath != path
  }

  /** The position of the last entry with the given asset path, or -1 when
      no entry has it. */
  function LastIndexOf(refs: seq<Reference>, path: string): (r: int)
    ensures -1 <= r < |refs|
    ensures r >= 0 <==> path in AssetPaths(refs)
    ensures r >= 0 ==> IsLastFor(refs, r, path)
  {
    if refs == [] then -1
    else
      var later := LastIndexOf(refs[1..], path);
      assert AssetPaths(refs) == [refs[0].assetPath] + AssetPaths(refs[1..]);
      assert later < 0 ==> forall j :: 0 < j < |refs| ==> refs[j].assetPath != path by {
        if later < 0 {
          forall j | 0 < j < |refs| ensures refs[j].assetPath != path {
            assert AssetPaths(refs[1..])[j - 1] == refs[j].assetPath;
          }
        }
      }
      if later >= 0 then later + 1
      else if refs[0].assetPath == path then 0
      else -1
  }

  /** The map from asset path to reference, built entry by entry so that a
      later entry overwrites an earlier one with the same asset path. */
  function ByAsset(refs: seq<Reference>): map<string, Reference>
  {
    if refs == [] then map[]
    else map[refs[0].assetPath := refs[0]] + ByAsset(refs[1..])
  }

  /** A path is a key exactly when some entry has it as asset path, and it
      maps to the last such entry. */
  lemma {:induction false} ByAssetLookup(refs: seq<Reference>, path: string)
    ensures path in ByAsset(refs) <==> path in AssetPaths(refs)
    ensures path in ByAsset(refs) ==> ByAsset(refs)[path] == refs[LastIndexOf(refs, path)]
  {
    if refs != [] {
      ByAssetLookup(refs[1..], path);
    }
  }

  /** With distinct asset paths, the last entry with an entry's path is
      that entry. */
  lemma LastIndexOfDistinct(refs: seq<Reference>, i: int)
    requires Distinct(AssetPaths(refs)) && 0 <= i < |refs|
    ensures LastIndexOf(refs, refs[i].assetPath) == i
  {
    var keys := AssetPaths(refs);
    var path := refs[i].assetPath;
    assert keys[i] == path;
    var j := LastIndexOf(refs, path);
    assert IsLastFor(refs, j, path);
    assert keys[j] == path;
    DistinctSame(keys, i, j);
  }

  /** The references named by `newOrder`, in that order, or the first name
      that has no entry in `byAsset`. */
  function Reorder(byAsset: map<string, Reference>, newOrder: seq<string>): (r: Result<seq<Reference>>)
    ensures r.Ok? <==> forall i :: 0 <= i < |newOrder| ==> newOrder[i] in byAsset
    ensures r.Ok? ==> |r.value| == |newOrder|
    ensures r.Ok? ==> forall i :: 0 <= i < |newOrder| ==> r.value[i] == byAsset[newOrder[i]]
    ensures r.Err? ==> exists i :: 0 <= i < |newOrder| && newOrder[i] !in byAsset
                        && r.error == UnknownReference(newOrder[i])
                        && forall j :: 0 <= j < i ==> newOrder[j] in byAsset
  {
    if newOrder == [] then Ok([])
    else if newOrder[0] !in byAsset then Err(UnknownReference(newOrder[0]))
    else match Reorder(byAsset, newOrder[1..])
      case Err(e) =>
        assert forall i :: 1 <= i < |newOrder| ==> newOrder[i] == newOrder[1..][i - 1];
        Err(e)
      case Ok(rest) => Ok([byAsset[newOrder[0]]] + rest)
  }

  /** The reference list a save writes, or the error it raises: no list at
      all, no prepended items while names are requested, or a requested name
      that is no current asset path. */
  function ReorderedListOp(refList: Option<ListOp>, newOrder: seq<string>): (r: Result<ListOp>)
    ensures refList.None? ==> r == Err(NoReferences)
    ensures refList.Some? && refList.value.prependedItems == [] && newOrder != [] ==>
              r == Err(NoPrependedReferences)
    ensures r.Ok? <==> (refList.Some? &&
              forall i :: 0 <= i < |newOrder| ==> newOrder[i] in AssetPaths(refList.value.prependedItems))
    ensures r.Err? && r.error.UnknownReference? ==>
              r.error.assetPath in newOrder &&
              r.error.assetPath !in AssetPaths(refList.value.prependedItems)
    ensures r.Ok? ==> AssetPaths(r.value.prependedItems) == newOrder
    ensures r.Ok? ==> forall i :: 0 <= i < |newOrder| ==>
              var j := LastIndexOf(refList.value.prependedItems, newOrder[i]);
              0 <= j && r.value.prependedItems[i] == refList.value.prependedItems[j]
    ensures r.Ok? ==> r.value.appendedItems == refList.value.appendedItems
                      && r.value.deletedItems == refList.value.deletedItems
  {
    match refList
    case None => Err(NoReferences)
    case Some(op) =>
      var original := op.prependedItems;
      if original == [] && newOrder != [] then
        assert newOrder[0] !in AssetPaths(original);
        Err(NoPrependedReferences)
      else
        var byAsset := ByAsset(original);
        assert forall i :: 0 <= i < |newOrder| ==>
                 (newOrder[i] in byAsset <==> newOrder[i] in AssetPaths(original)) &&
                 (newOrder[i] in byAsset ==>
                    byAsset[newOrder[i]] == original[LastIndexOf(original, newOrder[i])]) by {
          forall i | 0 <= i < |newOrder| {
            ByAssetLookup(original, newOrder[i]);
          }
        }
        match Reorder(byAsset, newOrder)
        case Err(e) => Err(e)
        case Ok(refs) => Ok(op.(prependedItems := refs))
  }

  /** A whole save on a layer's prims: the new prims, or the error. A
      missing prim is reported first; a successful save keeps every path of
      the tree, and so keeps the layer's one-spec-per-path invariant. */
  function SaveEffect(rootPrims: seq<PrimSpec>, primPath: string, newOrder: seq<string>): (r: Result<seq<PrimSpec>>)
    ensures GetPrimAtPath(rootPrims, primPath).None? ==> r == Err(PrimNotFound(primPath))
    ensures r.Ok? ==> Paths(Nodes(r.value)) == Paths(Nodes(rootPrims))
    ensures r.Ok? ==> Shape(r.value) == Shape(rootPrims)
    ensures r.Ok? ==> (UniquePaths(r.value) <==> UniquePaths(rootPrims))
  {
    match GetPrimAtPath(rootPrims, primPath)
    case None => Err(PrimNotFound(primPath))
    case Some(spec) =>
      match ReorderedListOp(spec.referenceList, newOrder)
      case Err(e) => Err(e)
      case Ok(op) =>
        WithRefListAt(rootPrims, primPath, Some(op), primPath);
        Ok(WithRefList(rootPrims, primPath, Some(op)))
  }

  // ---------------------------------------------------------------------
  // What a save promises
  // ---------------------------------------------------------------------

  /** A successful save followed by a load returns exactly the requested
      order. */
  lemma SaveThenLoad(rootPrims: seq<PrimSpec>, primPath: string, newOrder: seq<string>)
    requires SaveEffect(rootPrims, primPath, newOrder).Ok?
    ensures LoadEffect(SaveEffect(rootPrims, primPath, newOrder).value, primPath) == Ok(newOrder)
  {
    var spec := GetPrimAtPath(rootPrims, primPath).value;
    var op := ReorderedListOp(spec.referenceList, newOrder).value;
    WithRefListAt(rootPrims, primPath, Some(op), primPath);
  }

  /** A save either fails and changes nothing, or succeeds exactly when
      every requested name is a current asset path of an existing prim with
      a reference list; on success every other prim keeps its reference list
      and the tree keeps its paths. */
  lemma SaveFrame(rootPrims: seq<PrimSpec>, primPath: string, newOrder: seq<string>, other: string)
    requires other != primPath
    ensures SaveEffect(rootPrims, primPath, newOrder).Ok? <==>
              GetPrimAtPath(rootPrims, primPath).Some? &&
              GetPrimAtPath(rootPrims, primPath).value.referenceList.Some? &&
              forall i :: 0 <= i < |newOrder| ==>
                newOrder[i] in LoadEffect(rootPrims, primPath).value
    ensures SaveEffect(rootPrims, primPath, newOrder).Ok? ==>
              var after := SaveEffect(rootPrims, primPath, newOrder).value;
              Paths(Nodes(after)) == Paths(Nodes(rootPrims)) &&
              Shape(after) == Shape(rootPrims) &&
              GetPrimAtPath(after, other).Some? == GetPrimAtPath(rootPrims, other).Some? &&
              (GetPrimAtPath(rootPrims, other).Some? ==>
                 GetPrimAtPath(after, other).value.referenceList
                   == GetPrimAtPath(rootPrims, other).value.referenceList)
  {
    match GetPrimAtPath(rootPrims, primPath)
    case None =>
    case Some(spec) =>
      match ReorderedListOp(spec.referenceList, newOrder)
      case Err(e) =>
      case Ok(op) => WithRefListAt(rootPrims, primPath, Some(op), other);
  }

  /** When the current asset paths are distinct, every current entry occurs
      in the saved list exactly as often as its asset path is requested. */
  lemma {:induction false} ReorderCounts(refs: seq<Reference>, newOrder: seq<string>, k: int)
    requires Distinct(AssetPaths(refs)) && 0 <= k < |refs|
    requires Reorder(ByAsset(refs), newOrder).Ok?
    ensures multiset(Reorder(ByAsset(refs), newOrder).value)[refs[k]]
              == multiset(newOrder)[refs[k].assetPath]
  {
    if newOrder != [] {
      var byAsset := ByAsset(refs);
      var e := refs[k];
      var head, tail := newOrder[0], newOrder[1..];
      var rest := Reorder(byAsset, tail).value;
      ReorderCounts(refs, tail, k);
      var chosen := byAsset[head];
      var saved := Reorder(byAsset, newOrder).value;
      assert saved == [chosen] + rest;
      assert newOrder == [head] + tail;
      assert multiset(saved)[e] == multiset([chosen])[e] + multiset(rest)[e];
      assert multiset(newOrder)[e.assetPath]
               == multiset([head])[e.assetPath] + multiset(tail)[e.assetPath];
      ByAssetLookup(refs, head);
      LastIndexOfDistinct(refs, k);
      assert chosen.assetPath == head;
      assert chosen == e <==> head == e.assetPath;
    }
  }

  /** A save whose requested order is a rearrangement of distinct current
      asset paths writes a rearrangement of the current entries. */
  lemma ReorderIsPermutation(refList: Option<ListOp>, newOrder: seq<string>)
    requires refList.Some?
    requires Distinct(AssetPaths(refList.value.prependedItems))
    requires multiset(newOrder) == multiset(AssetPaths(refList.value.prependedItems))
    ensures ReorderedListOp(refList, newOrder).Ok?
    ensures multiset(ReorderedListOp(refList, newOrder).value.prependedItems)
              == multiset(refList.value.prependedItems)
  {
    var refs := refList.value.prependedItems;
    ReorderPermutes(refs, newOrder);
    assert ReorderedListOp(refList, newOrder).value.prependedItems
             == Reorder(ByAsset(refs), newOrder).value;
  }

  lemma ReorderPermutes(refs: seq<Reference>, newOrder: seq<string>)
    requires Distinct(AssetPaths(refs))
    requires multiset(newOrder) == multiset(AssetPaths(refs))
    ensures forall i :: 0 <= i < |newOrder| ==> newOrder[i] in AssetPaths(refs)
    ensures Reorder(ByAsset(refs), newOrder).Ok?
    ensures multiset(Reorder(ByAsset(refs), newOrder).value) == multiset(refs)
  {
    forall i | 0 <= i < |newOrder|
      ensures newOrder[i] in AssetPaths(refs) && newOrder[i] in ByAsset(refs)
    {
      assert newOrder[i] in multiset(newOrder);
      ByAssetLookup(refs, newOrder[i]);
    }
    var saved := Reorder(ByAsset(refs), newOrder).value;
    forall e ensures multiset(saved)[e] == multiset(refs)[e] {
      SavedCount(refs, newOrder, e);
    }
  }

  /** A save is not limited to rearrangements: an entry whose asset path
      is left out of the new order is dropped. */
  lemma ReorderDropsUnnamed()
    ensures var a := Reference("a.usda", 1);
            var b := Reference("b.usda", 2);
            Reorder(ByAsset([a, b]), ["b.usda"]) == Ok([b])
  {
    var a := Reference("a.usda", 1);
    var b := Reference("b.usda", 2);
    var both := TwoEntries(a, b);
    var dropped := Reorder(both, ["b.usda"]);
    assert dropped.Ok? && |dropped.value| == 1 && dropped.value[0] == b;
    assert dropped.value == [b];
  }

  /** An asset path named twice in the new order puts its entry twice in
      the reordered list. */
  lemma ReorderRepeatsNamedTwice()
    ensures var a := Reference("a.usda", 1);
            var b := Reference("b.usda", 2);
            Reorder(ByAsset([a, b]), ["a.usda", "a.usda"]) == Ok([a, a])
  {
    var a := Reference("a.usda", 1);
    var b := Reference("b.usda", 2);
    var both := TwoEntries(a, b);
    var repeated := Reorder(both, ["a.usda", "a.usda"]);
    assert repeated.Ok? && |repeated.value| == 2;
    assert repeated.value[0] == a && repeated.value[1] == a;
    assert repeated.value == [a, a];
  }

  /** Of two entries with one asset path, the later is the one written. */
  lemma ReorderLaterWins()
    ensures var first := Reference("a.usda", 1);
            var second := Reference("a.usda", 2);
            Reorder(ByAsset([first, second]), ["a.usda"]) == Ok([second])
  {
    var first := Reference("a.usda", 1);
    var second := Reference("a.usda", 2);
    var shared := ByAsset([first, second]);
    assert shared == map["a.usda" := first] + ByAsset([second]) by {
      assert [first, second][1..] == [second];
    }
    assert ByAsset([second]) == map["a.usda" := second] by {
      assert [second][1..] == [];
    }
    var later := Reorder(shared, ["a.usda"]);
    assert later.Ok? && |later.value| == 1 && later.value[0] == second;
    assert later.value == [second];
  }

  /** The index of two entries with different asset paths "a.usda" and
      "b.usda". */
  lemma TwoEntries(a: Reference, b: Reference) returns (m: map<string, Reference>)
    requires a.assetPath == "a.usda" && b.assetPath == "b.usda"
    ensures m == ByAsset([a, b])
    ensures "a.usda" in m && m["a.usda"] == a
    ensures "b.usda" in m && m["b.usda"] == b
  {
    assert "a.usda" != "b.usda" by { assert "a.usda"[0] != "b.usda"[0]; }
    m := ByAsset([a, b]);
    assert ByAsset([b]) == map["b.usda" := b] by {
      assert [b][1..] == [];
    }
    assert m == map["a.usda" := a] + ByAsset([b]) by {
      assert [a, b][1..] == [b];
    }
  }

  /** One entry's count in the list a rearranging save writes. */
  lemma SavedCount(refs: seq<Reference>, newOrder: seq<string>, e: Reference)
    requires Distinct(AssetPaths(refs))
    requires multiset(newOrder) == multiset(AssetPaths(refs))
    requires Reorder(ByAsset(refs), newOrder).Ok?
    ensures multiset(Reorder(ByAsset(refs), newOrder).value)[e] == multiset(refs)[e]
  {
    if e in refs {
      var k :| 0 <= k < |refs| && refs[k] == e;
      SavedCountPresent(refs, newOrder, k);
    } else {
      SavedOnlyCurrent(refs, newOrder);
    }
  }

  lemma SavedCountPresent(refs: seq<Reference>, newOrder: seq<string>, k: int)
    requires Distinct(AssetPaths(refs)) && 0 <= k < |refs|
    requires multiset(newOrder) == multiset(AssetPaths(refs))
    requires Reorder(ByAsset(refs), newOrder).Ok?
    ensures multiset(Reorder(ByAsset(refs), newOrder).value)[refs[k]] == 1
    ensures multiset(refs)[refs[k]] == 1
  {
    ReorderCounts(refs, newOrder, k);
    assert AssetPaths(refs)[k] == refs[k].assetPath;
    DistinctOnce(AssetPaths(refs), k);
    DistinctByKey(refs);
    DistinctOnce(refs, k);
  }

  /** Every entry of a saved list is one of the current entries. */
  lemma SavedOnlyCurrent(refs: seq<Reference>, newOrder: seq<string>)
    requires Reorder(ByAsset(refs), newOrder).Ok?
    ensures forall e :: e in Reorder(ByAsset(refs), newOrder).value ==> e in refs
  {
    var saved := Reorder(ByAsset(refs), newOrder).value;
    forall e | e in saved ensures e in refs {
      var i :| 0 <= i < |saved| && saved[i] == e;
      ByAssetLookup(refs, newOrder[i]);
    }
  }

  /** References with distinct asset paths are themselves distinct. */
  lemma DistinctByKey(refs: seq<Reference>)
    requires Distinct(AssetPaths(refs))
    ensures Distinct(refs)
  {
    forall i, j | 0 <= i < j < |refs| ensures refs[i] != refs[j] {
      assert AssetPaths(refs)[i] != AssetPaths(refs)[j];
    }
  }

  // ---------------------------------------------------------------------
  // The editor object
  // ---------------------------------------------------------------------

  /** Edits the prepended references of one prim in one layer file. Every
      operation takes `found`, the handle FindOrOpen would return for the
      editor's file (null when it fails); it is only consulted while no
      handle is cached. */
  class UsdPrimRefEditor {
    const usdaPath: string
    const primPath: string
    var layer: Layer?

    constructor (usdaPath: string, primPath: string)
      ensures this.usdaPath == usdaPath
      ensures this.primPath == NormalizePrimPath(primPath)
      ensures layer == null
    {
      this.usdaPath := usdaPath;
      this.primPath := NormalizePrimPath(primPath);
      layer := null;
    }

    /** The handle the next `GetLayer` works on: the cached one, else the
        one FindOrOpen yields. */
    ghost function Handle(found: Layer?): Layer?
      reads this
    {
      if layer != null then layer else found
    }

    /** Opens the layer on first use, then reuses it; reloads every time. */
    method GetLayer(found: Layer?) returns (r: Result<Layer>)
      modifies this, layer, found
      ensures found != null && old(layer) != null && found != old(layer) ==> unchanged(found)
      ensures old(layer) != null ==> layer == old(layer)
      ensures var h := old(Handle(found));
              h == null ==> r == Err(LayerOpenError(usdaPath)) && layer == null
      ensures var h := old(Handle(found));
              h != null ==>
                r == Ok(h) && layer == h &&
                h.reloads == old(h.reloads) + 1 && h.saves == old(h.saves) &&
                h.rootPrims == old(h.rootPrims) && h.subLayerPaths == old(h.subLayerPaths)
    {
      if layer == null {
        if found == null {
          return Err(LayerOpenError(usdaPath));
        }
        layer := found;
      }
      layer.Reload();
      r := Ok(layer);
    }

    /** The prim spec at the editor's path, after opening and reloading. */
    method GetPrimSpec(found: Layer?) returns (r: Result<PrimSpec>)
      modifies this, layer, found
      ensures found != null && old(layer) != null && found != old(layer) ==> unchanged(found)
      ensures var h := old(Handle(found));
              h == null ==> r == Err(LayerOpenError(usdaPath)) && layer == null
      ensures var h := old(Handle(found));
              h != null ==>
                layer == h &&
                r == (match GetPrimAtPath(old(h.rootPrims), primPath)
                      case None => Err(PrimNotFound(primPath))
                      case Some(spec) => Ok(spec)) &&
                h.reloads == old(h.reloads) + 1 && h.saves == old(h.saves) &&
                h.rootPrims == old(h.rootPrims) && h.subLayerPaths == old(h.subLayerPaths)
    {
      var got := GetLayer(found);
      if got.Err? {
        return Err(got.error);
      }
      var spec := GetPrimAtPath(got.value.rootPrims, primPath);
      if spec.None? {
        return Err(PrimNotFound(primPath));
      }
      r := Ok(spec.value);
    }

    /** The asset paths of the prim's prepended references, in order. */
    method LoadPrimRefs(found: Layer?) returns (r: Result<seq<string>>)
      modifies this, layer, found
      ensures found != null && old(layer) != null && found != old(layer) ==> unchanged(found)
      ensures var h := old(Handle(found));
              h == null ==> r == Err(LayerOpenError(usdaPath)) && layer == null
      ensures var h := old(Handle(found));
              h != null ==>
                layer == h && r == LoadEffect(old(h.rootPrims), primPath) &&
                h.reloads == old(h.reloads) + 1 && h.saves == old(h.saves) &&
                h.rootPrims == old(h.rootPrims) && h.subLayerPaths == old(h.subLayerPaths)
    {
      var spec := GetPrimSpec(found);
      if spec.Err? {
        return Err(spec.error);
      }
      var refList := spec.value.referenceList;
      if refList.None? {
        return Ok([]);
      }
      var prependedRefs := refList.value.prependedItems;
      r := Ok(AssetPaths(prependedRefs));
    }

    /** Rewrites the prim's prepended references in the order `newOrder`
        names them and saves the layer; on any failure the prims are left as
        they were and nothing is saved. */
    method SavePrimRefs(found: Layer?, newOrder: seq<string>) returns (r: Outcome)
      modifies this, layer, found
      ensures found != null && old(layer) != null && found != old(layer) ==> unchanged(found)
      ensures var h := old(Handle(found));
              h == null ==> r == Fail(LayerOpenError(usdaPath)) && layer == null
      ensures var h := old(Handle(found));
              h != null ==>
                layer == h && h.subLayerPaths == old(h.subLayerPaths) &&
                match SaveEffect(old(h.rootPrims), primPath, newOrder)
                case Err(e) =>
                  r == Fail(e) && h.rootPrims == old(h.rootPrims) &&
                  h.saves == old(h.saves) && h.reloads == old(h.reloads) + 1
                case Ok(after) =>
                  r == Pass && h.rootPrims == after &&
                  h.saves == old(h.saves) + 1 && h.reloads == old(h.reloads) + 2
    {
      var spec := GetPrimSpec(found);
      if spec.Err? {
        return Fail(spec.error);
      }
      var h := layer;
      var refList := spec.value.referenceList;
      if refList.None? {
        return Fail(NoReferences);
      }
      var originalRefs := refList.value.prependedItems;
      if originalRefs == [] && newOrder != [] {
        return Fail(NoPrependedReferences);
      }
      var byAsset := ByAsset(originalRefs);
      var reordered := Reorder(byAsset, newOrder);
      if reordered.Err? {
        return Fail(reordered.error);
      }
      h.rootPrims := WithRefList(h.rootPrims, primPath,
                                 Some(refList.value.(prependedItems := reordered.value)));
      var again := GetLayer(found);
      h.Save();
      r := Pass;
    }
  }
}
