/** Reading and replacing the sublayer paths of a layer's root.

    Unlike the reference editor, a save takes the new list as it is: no
    name in it is checked against the current list. */
module SublayerEditing {
  import opened Wrappers
  import opened Sdf

  /** Edits the root `subLayerPaths` of one layer file. `found` is the
      handle FindOrOpen would return for the file (null when it fails); it
      is only consulted while no handle is cached. */
  class UsdaSublayerEditor {
    const usdaPath: string
    var layer: Layer?

    constructor (usdaPath: string)
      ensures this.usdaPath == usdaPath && layer == null
    {
      this.usdaPath := usdaPath;
      layer := null;
    }

    /** The handle the next `GetLayer` works on. */
    ghost function Handle(found: Layer?): Layer?
      reads this
    {
      if layer != null then layer else found
    }

    /** Opens the layer on first use, then reuses it; reloads every time. */
    method GetLayer(found: Layer?) returns (r: Result<Layer>)
      modifies this, layer, found
      ensures found != null && old(layer) != null && found != old(layer) ==> unchanged(found)
      ensures old(layer) != null ==> layer == old(layer)
      ensures var h := old(Handle(found));
              h == null ==> r == Err(LayerOpenError(usdaPath)) && layer == null
      ensures var h := old(Handle(found));
              h != null ==>
                r == Ok(h) && layer == h &&
                h.reloads == old(h.reloads) + 1 && h.saves == old(h.saves) &&
                h.rootPrims == old(h.rootPrims) && h.subLayerPaths == old(h.subLayerPaths)
    {
      if layer == null {
        if found == null {
          return Err(LayerOpenError(usdaPath));
        }
        layer := found;
      }
      layer.Reload();
      r := Ok(layer);
    }

    /** The root's sublayer paths, as they are. */
    method LoadSublayers(found: Layer?) returns (r: Result<seq<string>>)
      modifies this, layer, found
      ensures found != null && old(layer) != null && found != old(layer) ==> unchanged(found)
      ensures var h := old(Handle(found));
              h == null ==> r == Err(LayerOpenError(usdaPath)) && layer == null
      ensures var h := old(Handle(found));
              h != null ==>
                layer == h && r == Ok(old(h.subLayerPaths)) &&
                h.reloads == old(h.reloads) + 1 && h.saves == old(h.saves) &&
                h.rootPrims == old(h.rootPrims) && h.subLayerPaths == old(h.subLayerPaths)
    {
      var got := GetLayer(found);
      if got.Err? {
        return Err(got.error);
      }
      r := Ok(got.value.subLayerPaths);
    }

    /** Replaces the root's sublayer paths with `newOrder` and saves; the
        prims are left as they were. */
    method SaveSublayers(found: Layer?, newOrder: seq<string>) returns (r: Outcome)
      modifies this, layer, found
      ensures found != null && old(layer) != null && found != old(layer) ==> unchanged(found)
      ensures var h := old(Handle(found));
              h == null ==> r == Fail(LayerOpenError(usdaPath)) && layer == null
      ensures var h := old(Handle(found));
              h != null ==>
                r == Pass && layer == h &&
                h.subLayerPaths == newOrder && h.rootPrims == old(h.rootPrims) &&
                h.reloads == old(h.reloads) + 1 && h.saves == old(h.saves) + 1
    {
      var got := GetLayer(found);
      if got.Err? {
        return Fail(got.error);
      }
      var h := got.value;
      h.subLayerPaths := newOrder;
      h.Save();
      r := Pass;
    }
  }

  /** Any list saved is the list a following load returns, whatever the
      list held before; the prims stay as they were. */
  method SaveThenLoadSublayers(editor: UsdaSublayerEditor, found: Layer?, newOrder: seq<string>)
    returns (loaded: Result<seq<string>>)
    modifies editor, editor.layer, found
    ensures found != null && old(editor.layer) != null && found != old(editor.layer) ==> unchanged(found)
    ensures var h := old(editor.Handle(found));
            h == null ==> loaded == Err(LayerOpenError(editor.usdaPath))
    ensures var h := old(editor.Handle(found));
            h != null ==> loaded == Ok(newOrder) && h.rootPrims == old(h.rootPrims)
  {
    var saved := editor.SaveSublayers(found, newOrder);
    loaded := editor.LoadSublayers(found);
  }
}
