/** Memory that a resize leaves uninitialised, until it is written. */
module Buffers {
  datatype Slot<T> = Unwritten | Written(value: T)
}
