/** The optional value used where the C code uses NULL
    (an empty window slot, an absent payload, an event without a packet). */
module Wrappers {
  datatype Option<+T> = None | Some(value: T)
}
