/** Small types shared by every component of the model. */
module Common {

  /** A value that may be missing: the source's `undefined`. */
  datatype Option<+T> = None | Some(value: T)

  /**
   * Identifiers, credential hashes and request fingerprints. The source only ever
   * compares them for equality (and, for sorting, by their order), so a natural
   * number stands for each distinct string.
   */
  type Id = nat

  /** A time stamp in milliseconds. */
  type Time = int
}
