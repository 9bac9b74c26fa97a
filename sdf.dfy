/** The part of a scene-description layer the editors see.

    A layer is an in-memory document: a forest of prim specs and a list of
    sublayer paths. Each prim spec carries its path, an optional reference
    list operation and its child specs. Parsing, serialisation and the
    on-disk file belong to the scene-description library and are not
    modelled; `Reload` and `Save` only count how often they are called. */
module Sdf {
  import opened Wrappers

  /** One reference: its asset path, plus the fields this code never reads
      (target prim, layer offset, custom data) folded into one token. */
  datatype Reference = Reference(assetPath: string, otherFields: nat)

  /** A reference list operation. Only the prepended items are edited. */
  datatype ListOp = ListOp(
    prependedItems: seq<Reference>,
    appendedItems: seq<Reference>,
    deletedItems: seq<Reference>)

  /** One prim spec of a layer and, below it, its name children. */
  datatype PrimSpec = PrimSpec(
    path: string,
    referenceList: Option<ListOp>,
    nameChildren: seq<PrimSpec>)

  /** A prim spec stripped to its path and its children: the shape of the
      tree, without any reference list. */
  datatype ShapeNode = ShapeNode(path: string, children: seq<ShapeNode>)

  /** The prim spec has a reference list whose prepended items are not empty. */
  predicate HasPrependedRefs(spec: PrimSpec) {
    spec.referenceList.Some? && spec.referenceList.value.prependedItems != []
  }

  /** A layer handle: the library owns it and hands out the same object to
      every FindOrOpen of the same file. */
  class Layer {
    var rootPrims: seq<PrimSpec>
    var subLayerPaths: seq<string>
    var reloads: nat  // Reload() calls issued on this handle
    var saves: nat    // Save() calls issued on this handle

    /** Re-reads the file. Only the call itself is modelled. */
    method Reload()
      modifies this
      ensures reloads == old(reloads) + 1
      ensures rootPrims == old(rootPrims) && subLayerPaths == old(subLayerPaths)
      ensures saves == old(saves)
    {
      reloads := reloads + 1;
    }

    /** Writes the in-memory document to its file. Only the call is modelled. */
    method Save()
      modifies this
      ensures saves == old(saves) + 1
      ensures rootPrims == old(rootPrims) && subLayerPaths == old(subLayerPaths)
      ensures reloads == old(reloads)
    {
      saves := saves + 1;
    }
  }

  // ---------------------------------------------------------------------
  // The prim tree as a flat list of specs
  // ---------------------------------------------------------------------

  /** Every prim spec of a forest, each tree listed in preorder. */
  function Nodes(prims: seq<PrimSpec>): seq<PrimSpec>
  {
    if prims == [] then []
    else [prims[0]] + Nodes(prims[0].nameChildren) + Nodes(prims[1..])
  }

  /** The shape of a forest: every spec's path and which specs are its
      children, in order. */
  function Shape(prims: seq<PrimSpec>): seq<ShapeNode>
  {
    if prims == [] then []
    else [ShapeNode(prims[0].path, Shape(prims[0].nameChildren))] + Shape(prims[1..])
  }

  /** The paths of a list of prim specs, in order. */
  function Paths(nodes: seq<PrimSpec>): (r: seq<string>)
    ensures |r| == |nodes|
    ensures forall i :: 0 <= i < |nodes| ==> r[i] == nodes[i].path
  {
    if nodes == [] then [] else [nodes[0].path] + Paths(nodes[1..])
  }

  predicate Distinct<T(==)>(s: seq<T>) {
    forall i, j :: 0 <= i < j < |s| ==> s[i] != s[j]
  }

  /** A value of a list without repeats is counted once. */
  lemma DistinctOnce<T>(s: seq<T>, k: int)
    requires Distinct(s) && 0 <= k < |s|
    ensures multiset(s)[s[k]] == 1
  {
    assert s == s[..k] + [s[k]] + s[k + 1..];
    assert s[k] !in s[..k];
    assert s[k] !in s[k + 1..];
  }

  /** In a list without repeats, equal values sit at the same position. */
  lemma DistinctSame<T>(s: seq<T>, i: int, j: int)
    requires Distinct(s) && 0 <= i < |s| && 0 <= j < |s| && s[i] == s[j]
    ensures i == j
  {
  }

  /** The layer invariant the library keeps: one prim spec per path. */
  predicate UniquePaths(rootPrims: seq<PrimSpec>) {
    Distinct(Paths(Nodes(rootPrims)))
  }

  lemma {:induction false} NodesAppend(a: seq<PrimSpec>, b: seq<PrimSpec>)
    ensures Nodes(a + b) == Nodes(a) + Nodes(b)
  {
    if a == [] {
      assert a + b == b;
    } else {
      assert (a + b)[0] == a[0];
      assert (a + b)[1..] == a[1..] + b;
      NodesAppend(a[1..], b);
    }
  }

  lemma NodesSingle(spec: PrimSpec)
    ensures Nodes([spec]) == [spec] + Nodes(spec.nameChildren)
  {
    assert [spec][1..] == [];
  }

  // ---------------------------------------------------------------------
  // GetPrimAtPath
  // ---------------------------------------------------------------------

  /** The position of the first spec with the given path, if any. */
  function PrimIndex(nodes: seq<PrimSpec>, path: string): (r: Option<nat>)
    ensures r.Some? ==> r.value < |nodes| && nodes[r.value].path == path
    ensures r.Some? ==> forall j :: 0 <= j < r.value ==> nodes[j].path != path
    ensures r.None? ==> forall j :: 0 <= j < |nodes| ==> nodes[j].path != path
  {
    if nodes == [] then None
    else if nodes[0].path == path then Some(0)
    else match PrimIndex(nodes[1..], path)
      case None => None
      case Some(i) => Some(i + 1)
  }

  /** The prim spec at `path` in the layer, or nothing when none exists. */
  function GetPrimAtPath(rootPrims: seq<PrimSpec>, path: string): (r: Option<PrimSpec>)
    ensures r.Some? ==> r.value in Nodes(rootPrims) && r.value.path == path
    ensures r.None? <==> forall spec :: spec in Nodes(rootPrims) ==> spec.path != path
  {
    match PrimIndex(Nodes(rootPrims), path)
    case None => None
    case Some(i) => Some(Nodes(rootPrims)[i])
  }

  /** Lists with the same paths position by position have their first spec
      at a path in the same place. */
  lemma PrimIndexByPaths(a: seq<PrimSpec>, b: seq<PrimSpec>, path: string)
    requires |a| == |b|
    requires forall i :: 0 <= i < |a| ==> a[i].path == b[i].path
    ensures PrimIndex(a, path) == PrimIndex(b, path)
  {
  }

  // ---------------------------------------------------------------------
  // Writing a reference list back to the prim at a path
  // ---------------------------------------------------------------------

  /** The forest with `refList` as the reference list of every spec at
      `path`; everything else as it was, the tree's shape included. */
  function WithRefList(prims: seq<PrimSpec>, path: string, refList: Option<ListOp>): (r: seq<PrimSpec>)
    ensures Shape(r) == Shape(prims)
    ensures |r| == |prims|
    ensures forall i :: 0 <= i < |prims| ==>
              r[i].path == prims[i].path &&
              r[i].referenceList == if prims[i].path == path then refList else prims[i].referenceList
  {
    if prims == [] then []
    else
      var spec := prims[0];
      [PrimSpec(spec.path,
                if spec.path == path then refList else spec.referenceList,
                WithRefList(spec.nameChildren, path, refList))]
      + WithRefList(prims[1..], path, refList)
  }

  /** Writing back keeps the preorder's length and paths, gives the specs
      at `path` the new list and leaves the list of every other spec as it
      was. */
  lemma {:induction false} WithRefListNodes(prims: seq<PrimSpec>, path: string, refList: Option<ListOp>)
    ensures |Nodes(WithRefList(prims, path, refList))| == |Nodes(prims)|
    ensures forall i :: 0 <= i < |Nodes(prims)| ==>
              Nodes(WithRefList(prims, path, refList))[i].path == Nodes(prims)[i].path
    ensures forall i :: 0 <= i < |Nodes(prims)| ==>
              Nodes(WithRefList(prims, path, refList))[i].referenceList
                == if Nodes(prims)[i].path == path then refList else Nodes(prims)[i].referenceList
  {
    if prims != [] {
      var spec := prims[0];
      var w := WithRefList(prims, path, refList);
      var kids := WithRefList(spec.nameChildren, path, refList);
      var rest := WithRefList(prims[1..], path, refList);
      WithRefListNodes(spec.nameChildren, path, refList);
      WithRefListNodes(prims[1..], path, refList);
      assert w[0].nameChildren == kids && w[1..] == rest;
      var before := Nodes(prims);
      var after := Nodes(w);
      forall i | 0 <= i < |before|
        ensures after[i].path == before[i].path
        ensures after[i].referenceList
                  == if before[i].path == path then refList else before[i].referenceList
      {
        NodesAt(prims, i);
        NodesAt(w, i);
      }
    }
  }

  /** Where position `i` of a forest's preorder comes from: the first root,
      its subtree, or the remaining roots. */
  lemma NodesAt(prims: seq<PrimSpec>, i: int)
    requires prims != [] && 0 <= i < |Nodes(prims)|
    ensures i == 0 ==> Nodes(prims)[i] == prims[0]
    ensures 0 < i <= |Nodes(prims[0].nameChildren)| ==>
              Nodes(prims)[i] == Nodes(prims[0].nameChildren)[i - 1]
    ensures |Nodes(prims[0].nameChildren)| < i ==>
              Nodes(prims)[i] == Nodes(prims[1..])[i - 1 - |Nodes(prims[0].nameChildren)|]
  {
    var head, sub, rest := [prims[0]], Nodes(prims[0].nameChildren), Nodes(prims[1..]);
    assert Nodes(prims) == head + sub + rest;
  }

  /** After writing back, the spec at `path` exists exactly when it did
      before and carries the new list; at every other path the spec keeps
      its list; the tree's paths are those it had. */
  lemma WithRefListAt(prims: seq<PrimSpec>, path: string, refList: Option<ListOp>, other: string)
    ensures Paths(Nodes(WithRefList(prims, path, refList))) == Paths(Nodes(prims))
    ensures GetPrimAtPath(WithRefList(prims, path, refList), other).Some?
              == GetPrimAtPath(prims, other).Some?
    ensures GetPrimAtPath(prims, other).Some? ==>
              GetPrimAtPath(WithRefList(prims, path, refList), other).value.referenceList
                == if other == path then refList else GetPrimAtPath(prims, other).value.referenceList
  {
    var before := Nodes(prims);
    var after := Nodes(WithRefList(prims, path, refList));
    WithRefListNodes(prims, path, refList);
    PrimIndexByPaths(after, before, other);
  }
}
