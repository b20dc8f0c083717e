/**
  The per-reply body of `CCInfo::extractBaseRecords` (ccinfo.cc:140-166): track-2 equivalent
  data, cardholder name and track-1 discretionary data.
*/
module BaseRecords {
  import opened Bytes
  import opened CardProfile
  import opened AppResponse

  /**
    The scan from index `i`. Track-2 data (57) and track-1 discretionary data (9F 1F) are
    captured only while their stored size is 0, so once captured they never change; the
    cardholder name (5F 20) is copied over the previous one whenever its length exceeds 2.
    A recognised field resumes the scan at the first byte after its value; any other byte
    (including a 57 once track 2 is held) steps it by one. Nothing outside the three fields
    changes.
  */
  function RecordScan(buf: seq<byte>, i: nat, p: Profile): (r: Result<Profile>)
    ensures r.Success? ==>
              r.value == p.(cardholderName := r.value.cardholderName,
                            track1 := r.value.track1, track2 := r.value.track2)
    ensures r.Success? && p.track2 != [] ==> r.value.track2 == p.track2
    ensures r.Success? && p.track1 != [] ==> r.value.track1 == p.track1
    decreases |buf| - i
  {
    if i >= |buf| then Success(p)
    else if buf[i] == 0x57 && p.track2 == [] then
      var len :- At(buf, i + 1);
      var value :- Take(buf, i + 2, len as nat);
      RecordScan(buf, i + 2 + len as nat, p.(track2 := value))
    else if TagAt(buf, i, 0x5F, 0x20) then
      var len :- At(buf, i + 2);
      if len > 2 then
        var value :- Take(buf, i + 3, len as nat);
        RecordScan(buf, i + 3 + len as nat, p.(cardholderName := Overlay(p.cardholderName, value)))
      else RecordScan(buf, i + 3 + len as nat, p)
    else if p.track1 == [] && TagAt(buf, i, 0x9F, 0x1F) then
      var len :- At(buf, i + 2);
      var value :- Take(buf, i + 3, len as nat);
      RecordScan(buf, i + 3 + len as nat, p.(track1 := value))
    else RecordScan(buf, i + 1, p)
  }

  /** One framed READ RECORD reply applied to the profile. */
  function ExtractBaseRecord(p: Profile, response: seq<byte>): (r: Result<Profile>)
    ensures r.Success? ==>
              r.value == p.(cardholderName := r.value.cardholderName,
                            track1 := r.value.track1, track2 := r.value.track2)
    ensures r.Success? && p.track2 != [] ==> r.value.track2 == p.track2
    ensures r.Success? && p.track1 != [] ==> r.value.track1 == p.track1
  {
    RecordScan(response, 0, p)
  }
}
