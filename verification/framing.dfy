/**
  Post-transceive framing of a reader reply (applicationhelper.cc): the status-word check and
  the removal of the reader's leading status byte.
*/
module Framing {
  import opened Bytes

  /** ISO/IEC 7816-4 normal-completion status word. */
  const StatusOk: seq<byte> := [0x90, 0x00]

  /**
    `checkTrailer`: true means FAILURE. A reply passes only when it has at least two bytes
    and ends in the normal-completion status word.
  */
  function CheckTrailer(raw: seq<byte>): (failed: bool)
    ensures !failed <==> |raw| >= 2 && raw[|raw| - 2..] == StatusOk
  {
    if |raw| < 2 then true
    else if raw[|raw| - 2] == 0x90 && raw[|raw| - 1] == 0 then false
    else true
  }

  /**
    The framing half of `executeCommand`: `szRx` is what the transceiver returned (negative on
    a link error) and `rx` the receive buffer, which may hold stale bytes past `szRx`.
    An empty result denotes failure; otherwise the first (reader status) byte is dropped and
    the status word is kept.
  */
  function ExecuteCommand(szRx: int, rx: seq<byte>): (r: seq<byte>)
    requires szRx <= |rx|
    ensures r != [] <==> 0 <= szRx && !CheckTrailer(rx[..szRx])
    ensures r != [] ==> |r| == szRx - 1 && r == rx[1..szRx]
    ensures r != [] && szRx >= 3 ==> r[|r| - 2..] == StatusOk
  {
    if szRx < 0 || CheckTrailer(rx[..szRx]) then []
    else rx[1..szRx]
  }

  /**
    Framing inverts the reply layout: whatever the status byte, the payload and the stale
    bytes behind the reply, the caller receives exactly the payload followed by the status
    word.
  */
  lemma FramingRoundTrip(status: byte, payload: seq<byte>, stale: seq<byte>)
    ensures var raw := [status] + payload + StatusOk;
            ExecuteCommand(|raw|, raw + stale) == payload + StatusOk
  {
    var raw := [status] + payload + StatusOk;
    assert (raw + stale)[..|raw|] == raw;
    assert raw[|raw| - 2..] == StatusOk;
    assert (raw + stale)[1..|raw|] == payload + StatusOk;
  }

  /** A reply not ending in 90 00 is refused however long it is. */
  lemma WrongStatusRefused(raw: seq<byte>, sw1: byte, sw2: byte)
    requires sw1 != 0x90 || sw2 != 0x00
    ensures ExecuteCommand(|raw| + 2, raw + [sw1, sw2]) == []
  {
    var full := raw + [sw1, sw2];
    assert full[..|full|] == full;
    assert full[|full| - 2..] == [sw1, sw2];
  }
}
