/** Java's nullable references (`Integer`, `KeyPair`, a session attribute)
    are modelled as Option values: `None` is Java's `null`. */
module Wrappers {

  datatype Option<+T> = None | Some(value: T)

}
