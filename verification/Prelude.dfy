/** Small shared datatypes and text tests. */
module Prelude {

  datatype Option<+T> = None | Some(value: T)

  datatype Result<+T, +E> = Ok(value: T) | Err(error: E)

  /** Whitespace and line terminators of ECMAScript's trim. */
  predicate Space(c: char) {
    '\t' <= c <= '\r' || c in {' ', '\U{A0}', '\U{1680}', '\U{2028}', '\U{2029}', '\U{202F}', '\U{205F}', '\U{3000}', '\U{FEFF}'}
    || '\U{2000}' <= c <= '\U{200A}'
  }

  predicate Blank(cell: string) {
    forall i :: 0 <= i < |cell| ==> Space(cell[i])
  }
}
