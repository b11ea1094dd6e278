/** Small failure-compatible wrapper shared by the modules of this model. */
module Wrappers {

  /** A value that may be absent: a missing file, an unpopulated opcode slot,
      a comparison that found no divergence. */
  datatype Option<+T> = None | Some(value: T)
}
