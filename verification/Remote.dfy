/** How a remote write can end. */
module Remote {
  /** A write is applied, refused, or applied although the caller is told it failed. */
  datatype Reply = Applied | Refused | Lost
}
