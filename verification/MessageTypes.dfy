/** The two message types the code treats specially: the one any message
    matches, and the one that marks a one-way service. */
module MessageTypes {
  const GENERIC_TYPE := "google.protobuf.Message"
  const EMPTY_TYPE := "gz.msgs.Empty"
}
