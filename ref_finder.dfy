/** Finding the prims of a layer that carry prepended references.

    The walk keeps a stack of prim specs, seeded with the root prims: it
    pops the last one, records its path when it has prepended references
    and pushes its name children. The order of the result follows the
    stack and is not part of the contract; which paths it holds, and how
    often, is. */
module ReferencedPrims {
  import opened Wrappers
  import opened Sdf

  /** The paths of the specs in `nodes` that carry prepended references,
      in the order of `nodes`. */
  function ReferencedPaths(nodes: seq<PrimSpec>): seq<string>
  {
    if nodes == [] then []
    else (if HasPrependedRefs(nodes[0]) then [nodes[0].path] else []) + ReferencedPaths(nodes[1..])
  }

  /** A path is listed exactly when some spec in `nodes` has it and has
      prepended references. */
  lemma {:induction false} ReferencedPathsMembers(nodes: seq<PrimSpec>, path: string)
    ensures path in ReferencedPaths(nodes) <==>
              exists i :: 0 <= i < |nodes| && HasPrependedRefs(nodes[i]) && nodes[i].path == path
  {
    if nodes != [] {
      ReferencedPathsMembers(nodes[1..], path);
      assert forall i :: 1 <= i < |nodes| ==> nodes[i] == nodes[1..][i - 1];
      if exists i :: 0 <= i < |nodes| && HasPrependedRefs(nodes[i]) && nodes[i].path == path {
        var i :| 0 <= i < |nodes| && HasPrependedRefs(nodes[i]) && nodes[i].path == path;
        if i > 0 {
          assert HasPrependedRefs(nodes[1..][i - 1]) && nodes[1..][i - 1].path == path;
        }
      }
    }
  }

  lemma {:induction false} ReferencedPathsAppend(a: seq<PrimSpec>, b: seq<PrimSpec>)
    ensures ReferencedPaths(a + b) == ReferencedPaths(a) + ReferencedPaths(b)
  {
    if a == [] {
      assert a + b == b;
    } else {
      assert (a + b)[0] == a[0];
      assert (a + b)[1..] == a[1..] + b;
      ReferencedPathsAppend(a[1..], b);
    }
  }

  /** Taking the last spec off the stack, recording its path when it has
      prepended references and pushing its children keeps the count of
      paths recorded or still to be found, and shrinks what is left. */
  lemma PopAndPush(result: seq<string>, rest: seq<PrimSpec>, spec: PrimSpec, total: multiset<string>)
    requires multiset(result) + multiset(ReferencedPaths(Nodes(rest + [spec]))) == total
    ensures |Nodes(rest + spec.nameChildren)| < |Nodes(rest + [spec])|
    ensures var recorded := result + if HasPrependedRefs(spec) then [spec.path] else [];
            multiset(recorded) + multiset(ReferencedPaths(Nodes(rest + spec.nameChildren))) == total
  {
    var kids := spec.nameChildren;
    var before, after := Nodes(rest), Nodes(kids);
    NodesAppend(rest, [spec]);
    NodesSingle(spec);
    assert Nodes(rest + [spec]) == before + ([spec] + after);
    ReferencedPathsAppend(before, [spec] + after);
    ReferencedPathsAppend([spec], after);
    assert ReferencedPaths([spec]) == (if HasPrependedRefs(spec) then [spec.path] else []) by {
      assert [spec][1..] == [];
    }
    NodesAppend(rest, kids);
    ReferencedPathsAppend(before, after);
  }

  /** The stack walk over the layer's root prims: every spec with prepended
      references contributes its path exactly once. */
  method CollectReferenced(rootPrims: seq<PrimSpec>) returns (result: seq<string>)
    ensures multiset(result) == multiset(ReferencedPaths(Nodes(rootPrims)))
  {
    result := [];
    var stack := rootPrims;
    while stack != []
      invariant multiset(result) + multiset(ReferencedPaths(Nodes(stack)))
                  == multiset(ReferencedPaths(Nodes(rootPrims)))
      decreases |Nodes(stack)|
    {
      var spec := stack[|stack| - 1];
      ghost var popped := result;
      var rest := stack[..|stack| - 1];
      assert stack == rest + [spec];
      stack := rest;
      if HasPrependedRefs(spec) {
        result := result + [spec.path];
      }
      stack := PushAll(stack, spec.nameChildren);
      PopAndPush(popped, rest, spec, multiset(ReferencedPaths(Nodes(rootPrims))));
    }
  }

  /** Pushes `children` onto `stack`, one at a time and in order. */
  method PushAll(stack: seq<PrimSpec>, children: seq<PrimSpec>) returns (pushed: seq<PrimSpec>)
    ensures pushed == stack + children
  {
    pushed := stack;
    for j := 0 to |children|
      invariant pushed == stack + children[..j]
    {
      pushed := pushed + [children[j]];
    }
    assert children[..|children|] == children;
  }

  /** The whole operation: open the layer (failing when it cannot be
      found), reload it and walk its prims. */
  method GetPrimPathsWithPrependedRefs(usdaPath: string, found: Layer?) returns (r: Result<seq<string>>)
    modifies found
    ensures found == null ==> r == Err(LayerOpenError(usdaPath))
    ensures found != null ==>
              r.Ok? && multiset(r.value) == multiset(ReferencedPaths(Nodes(found.rootPrims))) &&
              found.reloads == old(found.reloads) + 1 && found.saves == old(found.saves) &&
              found.rootPrims == old(found.rootPrims) && found.subLayerPaths == old(found.subLayerPaths)
  {
    if found == null {
      return Err(LayerOpenError(usdaPath));
    }
    found.Reload();
    var result := CollectReferenced(found.rootPrims);
    r := Ok(result);
  }

  // ---------------------------------------------------------------------
  // What the result means
  // ---------------------------------------------------------------------

  /** The paths found are exactly those of the prims in the layer's tree
      that have a reference list with prepended items. */
  lemma CollectedAreReferenced(rootPrims: seq<PrimSpec>, result: seq<string>, path: string)
    requires multiset(result) == multiset(ReferencedPaths(Nodes(rootPrims)))
    ensures path in result <==>
              exists spec :: spec in Nodes(rootPrims) && HasPrependedRefs(spec) && spec.path == path
  {
    var nodes := Nodes(rootPrims);
    assert path in result <==> path in multiset(result);
    assert path in ReferencedPaths(nodes) <==> path in multiset(ReferencedPaths(nodes));
    ReferencedPathsMembers(nodes, path);
    if exists spec :: spec in nodes && HasPrependedRefs(spec) && spec.path == path {
      var spec :| spec in nodes && HasPrependedRefs(spec) && spec.path == path;
      var i :| 0 <= i < |nodes| && nodes[i] == spec;
    }
  }

  /** The paths found are some of the tree's paths, none more often. */
  lemma {:induction false} ReferencedWithinPaths(nodes: seq<PrimSpec>)
    ensures multiset(ReferencedPaths(nodes)) <= multiset(Paths(nodes))
  {
    if nodes != [] {
      ReferencedWithinPaths(nodes[1..]);
      assert Paths(nodes) == [nodes[0].path] + Paths(nodes[1..]);
    }
  }

  /** In a layer with one prim spec per path, no path is found twice. */
  lemma CollectedOnce(rootPrims: seq<PrimSpec>, result: seq<string>)
    requires UniquePaths(rootPrims)
    requires multiset(result) == multiset(ReferencedPaths(Nodes(rootPrims)))
    ensures Distinct(result)
  {
    var paths := Paths(Nodes(rootPrims));
    ReferencedWithinPaths(Nodes(rootPrims));
    forall i, j | 0 <= i < j < |result| ensures result[i] != result[j] {
      if result[i] == result[j] {
        TwiceCounted(result, i, j);
        var k :| 0 <= k < |paths| && paths[k] == result[i];
        DistinctOnce(paths, k);
      }
    }
  }

  /** A value at two positions of a list is counted twice. */
  lemma TwiceCounted<T>(s: seq<T>, i: int, j: int)
    requires 0 <= i < j < |s| && s[i] == s[j]
    ensures multiset(s)[s[i]] >= 2
  {
    assert s == s[..j] + s[j..];
    assert s[i] == s[..j][i];
    assert s[j] == s[j..][0];
  }

  /** A layer with prims /A (no references), /A/B (one prepended reference)
      and /C (two): the walk finds /A/B and /C. */
  lemma ExampleLayer()
    ensures var a := Reference("a.usda", 0);
            var b := Reference("b.usda", 0);
            var child := PrimSpec("/A/B", Some(ListOp([a], [], [])), []);
            var roots := [PrimSpec("/A", None, [child]),
                          PrimSpec("/C", Some(ListOp([a, b], [], [])), [])];
            multiset(ReferencedPaths(Nodes(roots))) == multiset{"/A/B", "/C"}
  {
    var a := Reference("a.usda", 0);
    var b := Reference("b.usda", 0);
    var child := PrimSpec("/A/B", Some(ListOp([a], [], [])), []);
    var primA := PrimSpec("/A", None, [child]);
    var primC := PrimSpec("/C", Some(ListOp([a, b], [], [])), []);
    NodesSingle(child);
    NodesSingle(primC);
    assert Nodes([primA, primC]) == [primA] + Nodes([child]) + Nodes([primC]) by {
      assert [primA, primC][1..] == [primC];
    }
    assert Nodes([primA, primC]) == [primA, child, primC];
    assert ReferencedPaths([primC]) == ["/C"] by {
      assert [primC][1..] == [];
    }
    assert ReferencedPaths([child, primC]) == ["/A/B", "/C"] by {
      assert [child, primC][1..] == [primC];
    }
    assert ReferencedPaths([primA, child, primC]) == ["/A/B", "/C"] by {
      assert [primA, child, primC][1..] == [child, primC];
    }
  }
}
