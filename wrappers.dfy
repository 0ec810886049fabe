/** The optional value Python expresses as `Optional[T]` / `None`. */
module Wrappers {

  datatype Option<+T> = None | Some(value: T)
}
