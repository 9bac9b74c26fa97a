# usdRelayer editors, modelled in Dafny

`usda_sublayer_editor.py` edits USDA scene files through the Sdf layer API.
It has three parts:

- `UsdPrimRefEditor` reads the prepended references of one prim as an
  ordered list of asset paths. It writes them back in a new order, chosen
  by asset path, and saves the layer.
- `UsdaSublayerEditor` reads and replaces the root layer's
  `subLayerPaths`.
- `get_prim_paths_with_prepended_refs` walks every prim spec of a layer
  with an explicit stack. It collects the paths of the specs whose
  reference list has prepended items.

The model has five modules:

- `Wrappers`: `Option`, `Result`, `Outcome`, and the five failure kinds
  the original raises as `RuntimeError`.
- `Sdf`: the part of the layer the code touches.
  - Prim specs are a datatype tree.
  - `Layer` is a class whose `rootPrims` and `subLayerPaths` the editors
    assign.
  - `Reload` and `Save` are methods that count their calls.
  - `GetPrimAtPath` is the first spec with that path in preorder.
  - `WithRefList` writes a reference list back to every spec at a path;
    Sdf keeps one spec per path, so that is the spec the original edits.
- `PrimRefEditing`: the pure meaning of load and save, and the editor
  class with its lazily cached layer handle.
- `SublayerEditing`: the sublayer editor class.
- `ReferencedPrims`: the stack walk as a `while` loop, proved against a
  preorder specification.

`Sdf.Layer.FindOrOpen` is outside the model. Every method that may open
the layer takes a parameter `found: Layer?` instead. It is the handle
FindOrOpen would return, and null when it fails. Like the original, the
editors consult it only while no handle is cached.

A save is not in general a permutation of the current references:

- an asset path left out of the new order drops its reference;
- a path named twice makes the list built at line 80 hold its reference
  twice;
- of two references with one asset path, only the later one can be
  written.

The model states this behaviour (`ReorderedListOp`, `ReorderDropsUnnamed`,
`ReorderRepeatsNamedTwice`, `ReorderLaterWins`). It proves the
permutation property only where it holds: current asset paths distinct
and a new order that rearranges them (`ReorderIsPermutation`).

The "no prepended references" check at line 74 is redundant with the
lookup at line 80: any request it rejects would fail the lookup anyway.
Only the error kind differs. The success condition in `ReorderedListOp`
states this: a save succeeds exactly when every requested name is a
current asset path.

## Model

| member | source | states |
|---|---|---|
| PrimRefEditing.NormalizePrimPath | usda_sublayer_editor.py:16 | the result starts with '/'; a path starting with '/' is kept; any other path gets exactly one '/' in front |
| PrimRefEditing.NormalizeIdempotent | usda_sublayer_editor.py:16 | normalising twice equals normalising once; a relative path and its '/'-prefixed spelling normalise alike |
| PrimRefEditing.UsdPrimRefEditor.constructor | usda_sublayer_editor.py:11-17 | keeps the file path, stores the normalised prim path, and caches no layer |
| PrimRefEditing.UsdPrimRefEditor.GetLayer | usda_sublayer_editor.py:20-32 | with no cached handle and a failing open: LayerOpenError, nothing cached. Otherwise it caches the handle (a cached one is never replaced), reloads it once and returns it; the content is unchanged. A `found` layer other than the cached handle is left unchanged. |
| PrimRefEditing.UsdPrimRefEditor.GetPrimSpec | usda_sublayer_editor.py:35-44 | after one reload, returns the spec GetPrimAtPath finds at the editor's path, or PrimNotFound; an open failure comes first. A `found` layer other than the cached handle is left unchanged. |
| PrimRefEditing.UsdPrimRefEditor.LoadPrimRefs | usda_sublayer_editor.py:47-59 | returns LoadEffect of the layer's prims: PrimNotFound, [] for a prim without a reference list, else the asset paths of the prepended items; the layer is not changed. A `found` layer other than the cached handle is left unchanged. |
| PrimRefEditing.UsdPrimRefEditor.SavePrimRefs | usda_sublayer_editor.py:62-88 | every failure leaves the prims unchanged and saves nothing (one reload). Success writes exactly SaveEffect's prims, reloads a second time and saves once; the sublayer list never changes. A `found` layer other than the cached handle is left unchanged. |
| PrimRefEditing.AssetPaths | usda_sublayer_editor.py:57-59 | same length as the reference list; position i holds the asset path of reference i |
| PrimRefEditing.LoadedAssetPaths | usda_sublayer_editor.py:52-59 | [] when there is no reference list, else the asset paths of the prepended items in order |
| PrimRefEditing.LoadEffect | usda_sublayer_editor.py:39-59 | fails exactly when no spec has the editor's path, and then with PrimNotFound |
| PrimRefEditing.ByAsset | usda_sublayer_editor.py:77 | the dict comprehension: one entry per reference, in list order, so a later reference overwrites an earlier one with the same asset path; what the index holds is stated by ByAssetLookup |
| PrimRefEditing.LastIndexOf | usda_sublayer_editor.py:77 | is non-negative exactly when some reference has the asset path, and then is the last such position |
| PrimRefEditing.ByAssetLookup | usda_sublayer_editor.py:77 | the index built by the dict comprehension has a key exactly for each current asset path, mapped to the last reference with it |
| PrimRefEditing.LastIndexOfDistinct | usda_sublayer_editor.py:77 | with distinct asset paths, each reference is the one its asset path maps to |
| PrimRefEditing.Reorder | usda_sublayer_editor.py:79-83 | succeeds exactly when every requested name is a key; the result then has one entry per name, in order, each the indexed reference; otherwise the error names the first missing name |
| PrimRefEditing.ReorderedListOp | usda_sublayer_editor.py:67-85 | NoReferences when there is no list; NoPrependedReferences for an empty prepended list and a non-empty request; success iff a list exists and every name is a current asset path; an UnknownReference names a requested, non-current path; on success the new asset paths equal the request, each entry is the last current reference with that path, and appended and deleted items are unchanged |
| PrimRefEditing.SaveEffect | usda_sublayer_editor.py:66-85 | the prims a save leaves, or its error; a missing prim is reported as PrimNotFound before anything else; a successful save keeps the tree's shape (every spec's path and children) and every path of the tree, so the layer has one spec per path afterwards exactly when it had before |
| PrimRefEditing.SaveThenLoad | usda_sublayer_editor.py:47-85 | after a successful save, a load of the same prim returns exactly the requested order |
| PrimRefEditing.SaveFrame | usda_sublayer_editor.py:66-85 | a save succeeds iff the prim exists, has a reference list and every requested name is among its loaded asset paths; on success the tree keeps its shape (every spec keeps its path and its children) and its paths, and every other prim keeps its reference list |
| PrimRefEditing.ReorderCounts | usda_sublayer_editor.py:77-80 | with distinct current asset paths, each current reference appears in the saved list as often as its asset path is requested |
| PrimRefEditing.SavedOnlyCurrent | usda_sublayer_editor.py:77-80 | every reference in a saved list is one of the current references |
| PrimRefEditing.ReorderIsPermutation | usda_sublayer_editor.py:72-85 | a request that rearranges distinct current asset paths succeeds and writes a rearrangement of the current references |
| PrimRefEditing.ReorderDropsUnnamed | usda_sublayer_editor.py:77-80 | for references a.usda and b.usda, requesting only b.usda keeps b and drops a |
| PrimRefEditing.ReorderRepeatsNamedTwice | usda_sublayer_editor.py:77-80 | requesting a.usda twice makes the list built at line 80 hold its reference twice |
| PrimRefEditing.ReorderLaterWins | usda_sublayer_editor.py:77-80 | of two references with asset path a.usda, requesting a.usda writes the later one |
| Sdf.PrimIndex | usda_sublayer_editor.py:40 | when found, the position holds a spec with the path and no earlier position does; when not found, no spec has the path |
| Sdf.GetPrimAtPath | usda_sublayer_editor.py:40-42 | a result is a spec of the layer with that path; there is no result exactly when no spec has the path |
| Sdf.WithRefList | usda_sublayer_editor.py:85 | rewrites the reference list of every spec at the path, at any depth, and nothing else: the tree keeps its shape (every spec its path and its children, in order); at the top level each spec keeps its path and a spec at another path keeps its list. With one spec per path this is the single spec the original assigns to |
| Sdf.HasPrependedRefs | usda_sublayer_editor.py:155 | the finder's test: a reference list exists and its prepended items are not empty; ReferencedPathsMembers states what it selects |
| Sdf.WithRefListNodes | usda_sublayer_editor.py:85 | writing a list back keeps the preorder's length and paths; specs at the path get the new list, every other spec keeps its own |
| Sdf.WithRefListAt | usda_sublayer_editor.py:85 | after the write-back the tree has the same paths, a lookup finds a spec exactly where it did before, and the spec at the path holds the new list while the others keep theirs |
| Sdf.Layer.Reload | usda_sublayer_editor.py:31 | counts one reload; the content is left as it is |
| Sdf.Layer.Save | usda_sublayer_editor.py:88 | counts one save; the content is left as it is |
| SublayerEditing.UsdaSublayerEditor.constructor | usda_sublayer_editor.py:99-104 | keeps the file path and caches no layer |
| SublayerEditing.UsdaSublayerEditor.GetLayer | usda_sublayer_editor.py:107-119 | same contract as the reference editor's GetLayer: open once, cache, reload every call. A `found` layer other than the cached handle is left unchanged. |
| SublayerEditing.UsdaSublayerEditor.LoadSublayers | usda_sublayer_editor.py:122-127 | returns the root's sublayer paths as they are, or LayerOpenError; the layer is not changed. A `found` layer other than the cached handle is left unchanged. |
| SublayerEditing.UsdaSublayerEditor.SaveSublayers | usda_sublayer_editor.py:130-136 | sets the sublayer paths to exactly the given list, without any check, leaves the prims alone and saves once. A `found` layer other than the cached handle is left unchanged. |
| SublayerEditing.SaveThenLoadSublayers | usda_sublayer_editor.py:122-136 | any list saved is the list the next load returns, and the prims are unchanged. A `found` layer other than the cached handle is left unchanged. |
| ReferencedPrims.ReferencedPathsMembers | usda_sublayer_editor.py:154-156 | a path is listed iff some spec has that path and a reference list with prepended items |
| ReferencedPrims.PopAndPush | usda_sublayer_editor.py:152-159 | one pop-record-push step keeps the paths recorded plus those still below the stack equal to the total, and shrinks what is left |
| ReferencedPrims.CollectReferenced | usda_sublayer_editor.py:149-161 | the stack walk returns, as a multiset, exactly the paths of the specs with prepended references in the whole tree |
| ReferencedPrims.PushAll | usda_sublayer_editor.py:158-159 | pushing the children one by one leaves the stack followed by the children in order |
| ReferencedPrims.GetPrimPathsWithPrependedRefs | usda_sublayer_editor.py:139-161 | LayerOpenError when the layer cannot be opened; otherwise it reloads once, changes nothing else and returns what CollectReferenced returns |
| ReferencedPrims.CollectedAreReferenced | usda_sublayer_editor.py:149-161 | a path is in the result iff some spec of the tree has that path and prepended references |
| ReferencedPrims.ReferencedWithinPaths | usda_sublayer_editor.py:155-156 | every path found is a path of the tree, and none is found more often than it occurs |
| ReferencedPrims.CollectedOnce | usda_sublayer_editor.py:149-161 | in a layer with one spec per path, the result has no repeats |
| ReferencedPrims.ExampleLayer | usda_sublayer_editor.py:139-161 | for prims /A (no references), /A/B and /C (prepended references), the walk finds exactly /A/B and /C |

## Left out

- Parsing, serialising and the file on disk belong to the Sdf library.
  `Reload` and `Save` only count their calls: the model does not re-read
  the file on reload or write it on save.
- Whether the reload at line 87 keeps or discards the unsaved edit
  depends on Sdf's reload semantics. The model keeps the edit, so
  `SavePrimRefs` states the in-memory result, not what ends up on disk.
- `Sdf.Layer.FindOrOpen` and its registry of open layers become the
  `found` parameter. Two editors sharing one layer object through that
  registry is modelled only as far as two calls receiving the same
  `Layer`.
- `Sdf.Path` construction and the `str` conversions are the identity on
  strings. Path validity is not checked.
- The layer's pseudo-root is not modelled. `NormalizePrimPath` turns ""
  into "/", which Sdf resolves to the pseudo-root. The modelled forest
  holds only prim specs, so an editor made with "" or "/" gets
  PrimNotFound unless some spec carries the path "/", where Sdf would
  return the pseudo-root.
- The assignments at lines 85 and 135 are modelled as storing the list
  exactly as given. Any check or normalisation Sdf applies to an assigned
  list (duplicate items, for instance) is not modelled.
- Error messages are reduced to their kind plus the path they name.
- Layers with two prim specs at one path are outside the model. Sdf
  keeps one spec per path (`UniquePaths`), and `SaveEffect` keeps that
  invariant. On a forest that breaks it, `WithRefList` would write the new
  list to every spec at the path, where the original assigns to the one
  spec it looked up.
- Prim specs are values. The write-back at line 85 goes to the spec at
  the editor's path through `WithRefList`, not through a shared
  `prim_spec` object, so aliasing of prim specs is not modelled.
- A reference keeps its asset path; its other fields are one opaque
  token. A reference list keeps its prepended, appended and deleted
  items; its explicit, added and ordered items are not modelled.
- CollectReferenced: the contract fixes which paths are returned and how
  often, not their order.
- Concurrency, and a file changed by another process between calls, are
  not modelled.
