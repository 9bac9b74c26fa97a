/** Optional values, results and the failures the editors raise.

    Every failure of the editors is a `RuntimeError` in the original; the
    kinds below keep apart the five places that raise one, without their
    message text. */
module Wrappers {

  datatype Option<+T> = None | Some(value: T)

  /** Why an editor operation failed. */
  datatype Error =
    | LayerOpenError(usdaPath: string)   // FindOrOpen returned no layer
    | PrimNotFound(primPath: string)     // no prim spec at the editor's path
    | NoReferences                       // the prim has no reference list at all
    | NoPrependedReferences              // empty prepended list, non-empty new order
    | UnknownReference(assetPath: string) // a requested path names no current reference

  /** The value an operation returns, or the error it raises. */
  datatype Result<+T> = Ok(value: T) | Err(error: Error)

  /** The outcome of an operation that returns nothing. */
  datatype Outcome = Pass | Fail(error: Error)
}
