/** The card profile `CCInfo` accumulates over a session (ccinfo.cc:29-40). */
module CardProfile {
  import opened Bytes
  import opened Directory

  /**
    Every field the decoders write. `language` and `cardholderName` are the zero-initialised
    character arrays read up to their trailing zeros; the other buffers are sized buffers,
    empty meaning "size 0". `logEntries[k]` holds the reply for log record `k + 1`.
  */
  datatype Profile = Profile(
    application: Option<Application>,
    language: seq<byte>,
    cardholderName: seq<byte>,
    pdol: seq<byte>,
    track1: seq<byte>,
    track2: seq<byte>,
    logSfi: byte,
    logCount: byte,
    logFormat: seq<byte>,
    logEntries: seq<seq<byte>>)

  /** The profile as the constructor leaves it. */
  const Initial := Profile(None, [], [], [], [], [], 0, 0, [], [])
}
