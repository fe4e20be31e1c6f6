/** The axis identifiers of an image tensor, used as keys of index mappings. */
module Axes {

  /** Round, channel and z-plane axes. */
  datatype Axis = Round | Ch | Zplane

  /** An index mapping: an integer position per axis; it may carry any subset of the axes. */
  type Indices = map<Axis, int>
}
