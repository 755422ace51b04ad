/** The optional value used wherever the runtime distinguishes "absent" from a value. */
module Wrappers {

  datatype Option<+T> = None | Some(value: T)

}
