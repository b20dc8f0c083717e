/** Properties of the base-record scan. */
module BaseRecordsProofs {
  import opened Bytes
  import opened CardProfile
  import opened BaseRecords
  import AppResponse

  /** The cardholder name after a 5F 20 field: kept when the length is 2 or less. */
  function NameAfter(current: seq<byte>, name: seq<byte>): seq<byte>
  {
    if |name| > 2 then Overlay(current, name) else current
  }

  /** A record reply holding track-2 data, a cardholder name and track-1 data, then 90 00. */
  function EncodeRecord(track2: seq<byte>, name: seq<byte>, track1: seq<byte>): seq<byte>
    requires |track2| < 256 && |name| < 256 && |track1| < 256
  {
    ([0x57, |track2| as byte] + track2)
      + (([0x5F, 0x20, |name| as byte] + name)
         + (([0x9F, 0x1F, |track1| as byte] + track1) + [0x90, 0x00]))
  }

  lemma Track2Step(buf: seq<byte>, i: nat, p: Profile, v: seq<byte>, next: nat)
    requires p.track2 == [] && |v| < 256 && next == i + 2 + |v|
    requires next <= |buf| && buf[i..next] == [0x57, |v| as byte] + v
    ensures RecordScan(buf, i, p) == RecordScan(buf, next, p.(track2 := v))
  {
    assert buf[i] == 0x57 && buf[i + 1] as nat == |v|;
    assert buf[i + 2..i + 2 + |v|] == buf[i..i + 2 + |v|][2..] == v;
  }

  lemma NameStep(buf: seq<byte>, i: nat, p: Profile, v: seq<byte>, next: nat)
    requires |v| < 256 && next == i + 3 + |v|
    requires next <= |buf| && buf[i..next] == [0x5F, 0x20, |v| as byte] + v
    ensures RecordScan(buf, i, p)
            == RecordScan(buf, next, p.(cardholderName := NameAfter(p.cardholderName, v)))
  {
    assert buf[i] == 0x5F && buf[i + 1] == 0x20 && buf[i + 2] as nat == |v|;
    assert AppResponse.TagAt(buf, i, 0x5F, 0x20) && At(buf, i + 2) == Success(|v| as byte);
    if |v| > 2 {
      assert buf[i + 3..i + 3 + |v|] == buf[i..i + 3 + |v|][3..] == v;
      assert Take(buf, i + 3, |v|) == Success(v);
    }
  }

  lemma Track1Step(buf: seq<byte>, i: nat, p: Profile, v: seq<byte>, next: nat)
    requires p.track1 == [] && |v| < 256 && next == i + 3 + |v|
    requires next <= |buf| && buf[i..next] == [0x9F, 0x1F, |v| as byte] + v
    ensures RecordScan(buf, i, p) == RecordScan(buf, next, p.(track1 := v))
  {
    assert buf[i] == 0x9F && buf[i + 1] == 0x1F && buf[i + 2] as nat == |v|;
    assert buf[i + 3..i + 3 + |v|] == buf[i..i + 3 + |v|][3..] == v;
  }

  /** The status word 90 00 is stepped over without effect. */
  lemma RecordTrailer(buf: seq<byte>, i: nat, p: Profile)
    requires i <= |buf| && buf[i..] == [0x90, 0x00]
    ensures RecordScan(buf, i, p) == Success(p)
  {
    assert buf[i] == 0x90 && buf[i + 1] == 0x00 && |buf| == i + 2;
    assert RecordScan(buf, i + 1, p) == RecordScan(buf, i + 2, p);
  }

  /**
    Round trip on a profile that holds no track data yet: each field receives exactly its
    value bytes, whatever those bytes are, and a name of two bytes or fewer is not stored.
  */
  lemma BaseRecordRoundTrip(p: Profile, track2: seq<byte>, name: seq<byte>, track1: seq<byte>)
    requires p.track2 == [] && p.track1 == []
    requires |track2| < 256 && |name| < 256 && |track1| < 256
    ensures ExtractBaseRecord(p, EncodeRecord(track2, name, track1))
            == Success(p.(track2 := track2, cardholderName := NameAfter(p.cardholderName, name),
                          track1 := track1))
  {
    var f2 := [0x57, |track2| as byte] + track2;
    var fn := [0x5F, 0x20, |name| as byte] + name;
    var f1 := [0x9F, 0x1F, |track1| as byte] + track1;
    var status: seq<byte> := [0x90, 0x00];
    var buf := EncodeRecord(track2, name, track1);
    assert buf[0..] == buf;
    Split(buf, 0, f2, fn + (f1 + status));
    var q := |f2|;
    Split(buf, q, fn, f1 + status);
    var t := q + |fn|;
    Split(buf, t, f1, status);
    var u := t + |f1|;
    assert q == 2 + |track2| && t == q + 3 + |name| && u == t + 3 + |track1|;
    var p1 := p.(track2 := track2);
    var p2 := p1.(cardholderName := NameAfter(p.cardholderName, name));
    var p3 := p2.(track1 := track1);
    Track2Step(buf, 0, p, track2, q);
    NameStep(buf, q, p1, name, t);
    Track1Step(buf, t, p2, track1, u);
    RecordTrailer(buf, u, p3);
    calc {
      ExtractBaseRecord(p, buf);
      RecordScan(buf, 0, p);
      RecordScan(buf, q, p1);
      RecordScan(buf, t, p2);
      RecordScan(buf, u, p3);
      Success(p3);
    }
  }

  /**
    A track-2 field (while none is held), a track-1 field (while none is held) or a name
    longer than 2 bytes whose length byte is missing or runs past the reply is rejected with
    `Truncated`. A name of 2 bytes or fewer is never copied, so one that runs past the end
    simply ends the scan.
  */
  lemma ValueOverrunRejected(buf: seq<byte>, i: nat, p: Profile)
    requires i < |buf|
    ensures buf[i] == 0x57 && p.track2 == [] && (i + 1 == |buf| || i + 2 + buf[i + 1] as nat > |buf|) ==>
              RecordScan(buf, i, p) == Failure(Truncated)
    ensures AppResponse.TagAt(buf, i, 0x5F, 0x20)
            && (i + 2 == |buf| || (buf[i + 2] > 2 && i + 3 + buf[i + 2] as nat > |buf|)) ==>
              RecordScan(buf, i, p) == Failure(Truncated)
    ensures AppResponse.TagAt(buf, i, 0x5F, 0x20) && i + 2 < |buf|
            && buf[i + 2] <= 2 && i + 3 + buf[i + 2] as nat >= |buf| ==>
              RecordScan(buf, i, p) == Success(p)
    ensures p.track1 == [] && AppResponse.TagAt(buf, i, 0x9F, 0x1F)
            && (i + 2 == |buf| || i + 3 + buf[i + 2] as nat > |buf|) ==>
              RecordScan(buf, i, p) == Failure(Truncated)
  {
  }

  /**
    First occurrence wins: after a non-empty track-2 field, a second one in the same reply
    is not stored, whatever the rest of the scan does.
  */
  lemma SecondTrack2Ignored(p: Profile, first: seq<byte>, second: seq<byte>)
    requires p.track2 == []
    requires 0 < |first| < 256 && |second| < 256
    ensures var r := ExtractBaseRecord(p, [0x57, |first| as byte] + first + [0x57, |second| as byte] + second);
            r.Success? ==> r.value.track2 == first
  {
    var buf := [0x57, |first| as byte] + first + [0x57, |second| as byte] + second;
    assert buf[2..2 + |first|] == first;
    var p1 := p.(track2 := first);
    assert RecordScan(buf, 0, p) == RecordScan(buf, 2 + |first|, p1);
  }

  /** Unlike the track fields, a later qualifying cardholder name replaces the earlier one. */
  lemma LaterNameOverwrites(p: Profile, first: seq<byte>, second: seq<byte>)
    requires 2 < |first| < 256 && 2 < |second| < 256
    ensures ExtractBaseRecord(p, [0x5F, 0x20, |first| as byte] + first + [0x5F, 0x20, |second| as byte] + second)
            == Success(p.(cardholderName := Overlay(Overlay(p.cardholderName, first), second)))
  {
    var f1 := [0x5F, 0x20, |first| as byte] + first;
    var f2 := [0x5F, 0x20, |second| as byte] + second;
    var buf := f1 + f2;
    assert buf == [0x5F, 0x20, |first| as byte] + first + [0x5F, 0x20, |second| as byte] + second;
    assert buf[0..] == buf;
    Split(buf, 0, f1, f2);
    var q := |f1|;
    assert buf[q..|buf|] == f2;
    var p1 := p.(cardholderName := NameAfter(p.cardholderName, first));
    var p2 := p1.(cardholderName := NameAfter(p1.cardholderName, second));
    NameStep(buf, 0, p, first, q);
    NameStep(buf, q, p1, second, |buf|);
    calc {
      ExtractBaseRecord(p, buf);
      RecordScan(buf, 0, p);
      RecordScan(buf, q, p1);
      RecordScan(buf, |buf|, p2);
      Success(p2);
    }
  }
}
