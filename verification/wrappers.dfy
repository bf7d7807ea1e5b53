/** The optional value of the source (`Option`): `invert` and the affine
    checks return one. */
module Wrappers {
  datatype Option<T> = None | Some(value: T)
}
