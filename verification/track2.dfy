/**
  Track-2 equivalent data (ISO/IEC 7813 layout) as `CCInfo::printTracksInfo` reads it
  (ccinfo.cc:196-227): the PAN bytes and the expiry date read across a nibble boundary.
*/
module Track2 {
  import opened Bytes

  /** What the source prints: the first 8 bytes as the PAN, then YY and MM as BCD bytes. */
  datatype Track2Info = Track2Info(pan: seq<byte>, year: byte, month: byte)

  /**
    `(hi << 4) | (lo >> 4)` stored in a `byte_t`: the shift keeps hi's low nibble (the byte
    store drops the rest) and the OR of two disjoint nibbles is their sum.
  */
  function Straddle(hi: byte, lo: byte): (b: byte)
    ensures b as int / 16 == hi as int % 16 && b as int % 16 == lo as int / 16
  {
    ShiftKeepsLowNibble(hi as int);
    Nibbles(hi as int % 16, lo as int / 16);
    ((hi as int * 16) % 0x100 + lo as int / 16) as byte
  }

  /** Shifting a byte left by four and truncating to 8 bits keeps its low nibble, moved up. */
  lemma ShiftKeepsLowNibble(x: int)
    requires 0 <= x < 0x100
    ensures (x * 16) % 0x100 == (x % 16) * 16
  {
    var q, r := x / 16, x % 16;
    assert x * 16 == q * 0x100 + r * 16;
  }

  /**
    The PAN is bytes 0..7 and the date starts after the separator nibble in byte 8:
    year = low nibble of byte 8 and high nibble of byte 9, month = low nibble of byte 9 and
    high nibble of byte 10. The source reads those 11 bytes unchecked; shorter data is
    refused here.
  */
  function ParseTrack2(data: seq<byte>): (r: Result<Track2Info>)
    ensures r.Success? <==> |data| >= 11
    ensures r.Failure? ==> r.error == InvalidTrack2(|data|)
    ensures r.Success? ==>
              && r.value.pan == data[..8]
              && r.value.year as int / 16 == data[8] as int % 16
              && r.value.year as int % 16 == data[9] as int / 16
              && r.value.month as int / 16 == data[9] as int % 16
              && r.value.month as int % 16 == data[10] as int / 16
  {
    if |data| < 11 then Failure(InvalidTrack2(|data|))
    else Success(Track2Info(data[..8], Straddle(data[8], data[9]), Straddle(data[9], data[10])))
  }

  /**
    Track-2 bytes for an 8-byte PAN, a separator D, an expiry YYMM given as two BCD bytes,
    the first service-code digit and any further bytes.
  */
  function EncodeTrack2(pan: seq<byte>, year: byte, month: byte, service: byte, rest: seq<byte>): seq<byte>
    requires |pan| == 8 && service < 16
  {
    pan + [(0xD0 + year as int / 16) as byte,
           ((year as int % 16) * 16 + month as int / 16) as byte,
           ((month as int % 16) * 16 + service as int) as byte] + rest
  }

  lemma Nibbles(hi: int, lo: int)
    requires 0 <= hi < 16 && 0 <= lo < 16
    ensures (hi * 16 + lo) / 16 == hi && (hi * 16 + lo) % 16 == lo
  {
  }

  /** A byte is determined by its two nibbles. */
  lemma SameNibbles(a: byte, b: byte)
    requires a as int / 16 == b as int / 16 && a as int % 16 == b as int % 16
    ensures a == b
  {
    assert a as int == (a as int / 16) * 16 + a as int % 16;
    assert b as int == (b as int / 16) * 16 + b as int % 16;
  }

  /** Parsing gives back the PAN and the expiry that were encoded, whatever follows them. */
  lemma Track2RoundTrip(pan: seq<byte>, year: byte, month: byte, service: byte, rest: seq<byte>)
    requires |pan| == 8 && service < 16
    ensures ParseTrack2(EncodeTrack2(pan, year, month, service, rest)) == Success(Track2Info(pan, year, month))
  {
    var data := EncodeTrack2(pan, year, month, service, rest);
    assert data[..8] == pan;
    Nibbles(0xD, year as int / 16);
    Nibbles(year as int % 16, month as int / 16);
    Nibbles(month as int % 16, service as int);
    var r := ParseTrack2(data);
    SameNibbles(r.value.year, year);
    SameNibbles(r.value.month, month);
  }

  /** The reference card: `D2 51 21` after the PAN gives expiry month 12 of year 25. */
  lemma Track2Example()
    ensures var r := ParseTrack2([0x50, 0x12, 0x34, 0x56, 0x78, 0x90, 0x12, 0x34, 0xD2, 0x51, 0x21, 0x0F]);
            r == Success(Track2Info([0x50, 0x12, 0x34, 0x56, 0x78, 0x90, 0x12, 0x34], 0x25, 0x12))
  {
    var data: seq<byte> := [0x50, 0x12, 0x34, 0x56, 0x78, 0x90, 0x12, 0x34, 0xD2, 0x51, 0x21, 0x0F];
    assert data[..8] == [0x50, 0x12, 0x34, 0x56, 0x78, 0x90, 0x12, 0x34];
    assert Straddle(0xD2, 0x51) == 0x25;
    assert Straddle(0x51, 0x21) == 0x12;
  }
}
