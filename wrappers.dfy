/** Optional values: Java's nullable references and absent inputs. */
module Wrappers {
  datatype Option<+T> = None | Some(value: T)
}
