/**
  `CCInfo::extractAppResponse` (ccinfo.cc:42-81): the byte-by-byte scan of a SELECT reply for
  the language preference, the PDOL and, inside the file-control-information template, the
  log-entry descriptor.
*/
module AppResponse {
  import opened Bytes
  import opened Directory
  import opened CardProfile

  /** Two-byte BER-TLV tags are compared on both bytes. */
  predicate TagAt(buf: seq<byte>, i: nat, b0: byte, b1: byte)
  {
    i + 1 < |buf| && buf[i] == b0 && buf[i + 1] == b1
  }

  /**
    The nested walk inside a BF0C template whose value starts at `base`: `j` runs over the
    template's own length `len`, not the reply's. On 9F 4D the byte after the (unchecked)
    length byte is the log file's SFI and the next one the entry count; the walk then
    continues five bytes further on. The two value reads are not bounded by `len`.
  */
  function LogEntryScan(buf: seq<byte>, base: nat, len: nat, j: nat, p: Profile): (r: Result<Profile>)
    ensures r.Success? ==> r.value == p.(logSfi := r.value.logSfi, logCount := r.value.logCount)
    decreases len - j
  {
    if j >= len then Success(p)
    else if j + 1 < len then
      var b0 :- At(buf, base + j);
      if b0 != 0x9F then LogEntryScan(buf, base, len, j + 1, p)
      else
        var b1 :- At(buf, base + j + 1);
        if b1 != 0x4D then LogEntryScan(buf, base, len, j + 1, p)
        else
          var sfi :- At(buf, base + j + 3);
          var count :- At(buf, base + j + 4);
          LogEntryScan(buf, base, len, j + 5, p.(logSfi := sfi, logCount := count))
    else LogEntryScan(buf, base, len, j + 1, p)
  }

  /**
    The outer scan from index `i`. Each recognised tag reads its length byte, and the scan
    resumes at the first byte after the value (for BF0C: after the template); any other byte
    steps the scan by one. Only the language preference, the PDOL and the log descriptor
    can change.
  */
  function AppScan(buf: seq<byte>, i: nat, p: Profile): (r: Result<Profile>)
    ensures r.Success? ==>
              r.value == p.(language := r.value.language, pdol := r.value.pdol,
                            logSfi := r.value.logSfi, logCount := r.value.logCount)
    decreases |buf| - i
  {
    if i >= |buf| then Success(p)
    else if TagAt(buf, i, 0x5F, 0x2D) then
      var len :- At(buf, i + 2);
      var value :- Take(buf, i + 3, len as nat);
      AppScan(buf, i + 3 + len as nat, p.(language := Overlay(p.language, value)))
    else if TagAt(buf, i, 0x9F, 0x38) then
      var len :- At(buf, i + 2);
      var value :- Take(buf, i + 3, len as nat);
      AppScan(buf, i + 3 + len as nat, p.(pdol := value))
    else if TagAt(buf, i, 0xBF, 0x0C) then
      var len :- At(buf, i + 2);
      var p' :- LogEntryScan(buf, i + 3, len as nat, 0, p);
      AppScan(buf, i + 3 + len as nat, p')
    else AppScan(buf, i + 1, p)
  }

  /**
    `extractAppResponse`: records the selected application, then scans the framed SELECT
    reply. Cardholder name, track data and the log itself are left as they were.
  */
  function ExtractAppResponse(p: Profile, app: Application, response: seq<byte>): (r: Result<Profile>)
    ensures r.Success? ==>
              r.value == p.(application := Some(app), language := r.value.language,
                            pdol := r.value.pdol, logSfi := r.value.logSfi,
                            logCount := r.value.logCount)
  {
    AppScan(response, 0, p.(application := Some(app)))
  }
}
