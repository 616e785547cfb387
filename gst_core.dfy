/** Types of the GStreamer core library that the modelled files pass
    around without defining. */
module GstCore {
  /** The GstMapFlags bits that mapping code looks at. */
  datatype MapFlag = MapRead | MapWrite
}
