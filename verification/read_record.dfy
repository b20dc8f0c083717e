/**
  READ RECORD command construction and the two read loops of `CCInfo` (ccinfo.cc:83-170),
  with the card and reader collapsed into `card`, a map from a command to its framed reply
  (empty on failure).
*/
module ReadRecord {
  import opened Bytes
  import opened CardProfile
  import opened BaseRecords

  /**
    Parameter P2 of READ RECORD: `(sfi << 3) | (1 << 2)` truncated to a byte. For a valid SFI
    (below 32) it holds the SFI in its top five bits and the mode 100 ("P1 is a record
    number") in its low three bits; larger values lose their high bits.
  */
  function RecordP2(sfi: nat): (p2: byte)
    ensures p2 as int == (sfi % 32) * 8 + 4
    ensures sfi < 32 ==> p2 as int / 8 == sfi && p2 as int % 8 == 4
  {
    var n := sfi % 32;
    FiveBits(n);
    var s := n as bv8;
    ShiftOrIsSum(s);
    ((s << 3) | 4) as int as byte
  }

  lemma FiveBits(n: int)
    requires 0 <= n < 32
    ensures (n as bv8) as int == n && n as bv8 < 32
  {
  }

  /** With five significant bits, the shift leaves the low three bits clear for the OR. */
  lemma ShiftOrIsSum(s: bv8)
    requires s < 32
    ensures ((s << 3) | 4) as int == s as int * 8 + 4
  {
    assert (s << 3) | 4 == s * 8 + 4;
  }

  /**
    The READ RECORD template with P1 (index 4) set to the record number and P2 (index 5) to
    the packed SFI; every other byte of the template is kept.
  */
  function ReadRecordCommand(template: seq<byte>, sfi: nat, record: nat): (cmd: seq<byte>)
    requires |template| >= 6
    ensures |cmd| == |template|
    ensures cmd[4] == Low8(record) && cmd[5] == RecordP2(sfi)
    ensures forall k :: 0 <= k < |cmd| && k != 4 && k != 5 ==> cmd[k] == template[k]
  {
    template[4 := Low8(record)][5 := RecordP2(sfi)]
  }

  /** The outcome of `extractLogEntries`: the profile, and whether every read succeeded. */
  datatype LogRead = LogRead(profile: Profile, complete: bool)

  /** `_logEntries[i] = reply`, the entry array being filled in order from index 0. */
  function Store(entries: seq<seq<byte>>, i: nat, reply: seq<byte>): (r: seq<seq<byte>>)
    requires i <= |entries|
    ensures |r| == Max(|entries|, i + 1) && r[i] == reply
    ensures forall m :: 0 <= m < |r| && m != i ==> r[m] == entries[m]
  {
    if i < |entries| then entries[i := reply] else entries + [reply]
  }

  /** Entries `from..to-1` hold the card's non-empty replies to READ RECORD `from+1..to`. */
  predicate ReadFrom(card: seq<byte> -> seq<byte>, template: seq<byte>, sfi: byte,
                     entries: seq<seq<byte>>, from: nat, to: nat)
    requires |template| >= 6
  {
    to <= |entries|
    && forall m :: from <= m < to ==>
         entries[m] == card(ReadRecordCommand(template, sfi as nat, m + 1)) && entries[m] != []
  }

  /** Entries from index `from` on are those of `before`. */
  predicate KeptFrom(entries: seq<seq<byte>>, before: seq<seq<byte>>, from: nat)
  {
    forall m :: from <= m < |entries| ==> m < |before| && entries[m] == before[m]
  }

  /**
    A read from index `i` that stopped at entry `k`: every earlier record was read, the
    empty reply to record `k + 1` is stored at `k`, and nothing after `k` was touched.
  */
  predicate AbortedAt(card: seq<byte> -> seq<byte>, template: seq<byte>, sfi: byte,
                      before: seq<seq<byte>>, entries: seq<seq<byte>>, i: nat, k: nat)
    requires |template| >= 6
  {
    k < |entries| && entries[k] == [] && entries[k] == card(ReadRecordCommand(template, sfi as nat, k + 1))
    && ReadFrom(card, template, sfi, entries, i, k)
    && |entries| == Max(|before|, k + 1) && KeptFrom(entries, before, k + 1)
  }

  /**
    The log-record loop from index `i`: entry `k` is the reply to READ RECORD with record
    number `k + 1` in the log file. A complete read holds a non-empty reply for every record
    1..logCount; an aborted one stops at the first empty reply, which is stored. Entries past
    the last one written are left as they were.
  */
  function ReadLogRecords(card: seq<byte> -> seq<byte>, template: seq<byte>, p: Profile, i: nat): (r: LogRead)
    requires |template| >= 6 && i <= |p.logEntries|
    ensures r.profile == p.(logEntries := r.profile.logEntries)
    ensures |r.profile.logEntries| >= i && r.profile.logEntries[..i] == p.logEntries[..i]
    ensures r.complete ==>
              |r.profile.logEntries| == Max(|p.logEntries|, p.logCount as int)
              && ReadFrom(card, template, p.logSfi, r.profile.logEntries, i, p.logCount as int)
              && KeptFrom(r.profile.logEntries, p.logEntries, Max(i, p.logCount as int))
    ensures !r.complete ==>
              exists k :: i <= k < p.logCount as int
                          && AbortedAt(card, template, p.logSfi, p.logEntries, r.profile.logEntries, i, k)
    decreases p.logCount as int - i
  {
    if i >= p.logCount as int then LogRead(p, true)
    else
      var reply := card(ReadRecordCommand(template, p.logSfi as nat, i + 1));
      var entries := Store(p.logEntries, i, reply);
      var p' := p.(logEntries := entries);
      assert entries[..i] == p.logEntries[..i];
      if reply == [] then
        assert AbortedAt(card, template, p.logSfi, p.logEntries, entries, i, i);
        LogRead(p', false)
      else
        var r := ReadLogRecords(card, template, p', i + 1);
        assert r.profile.logEntries[..i] == r.profile.logEntries[..i + 1][..i];
        assert r.profile.logEntries[i] == r.profile.logEntries[..i + 1][i] == reply;
        StepOver(card, template, p.logSfi, p.logEntries, i, i + 1, reply, r.profile.logEntries,
                 p.logCount as int, r.complete);
        r
  }

  /**
    The entries written from `i + 1` on, read with a non-empty reply stored at `i`, are the
    entries written from `i`.
  */
  lemma StepOver(card: seq<byte> -> seq<byte>, template: seq<byte>, sfi: byte,
                 before: seq<seq<byte>>, i: nat, next: nat, reply: seq<byte>, entries: seq<seq<byte>>,
                 count: int, complete: bool)
    requires |template| >= 6 && i <= |before| && i < count && next == i + 1
    requires reply == card(ReadRecordCommand(template, sfi as nat, i + 1)) && reply != []
    requires i < |entries| && entries[i] == reply
    requires complete ==>
               |entries| == Max(|Store(before, i, reply)|, count)
               && ReadFrom(card, template, sfi, entries, i + 1, count)
               && KeptFrom(entries, Store(before, i, reply), Max(i + 1, count))
    requires !complete ==>
               exists k :: next <= k < count
                           && AbortedAt(card, template, sfi, Store(before, i, reply), entries, next, k)
    ensures complete ==>
              |entries| == Max(|before|, count)
              && ReadFrom(card, template, sfi, entries, i, count)
              && KeptFrom(entries, before, Max(i, count))
    ensures !complete ==>
              exists k :: i <= k < count && AbortedAt(card, template, sfi, before, entries, i, k)
  {
    var stored := Store(before, i, reply);
    if !complete {
      var k :| next <= k < count && AbortedAt(card, template, sfi, stored, entries, next, k);
      assert AbortedAt(card, template, sfi, before, entries, i, k);
    }
  }

  /**
    `extractLogEntries`: fetch the log format with GET DATA, then the log records. An empty
    log-format reply aborts before any record is read.
  */
  function ExtractLogEntries(card: seq<byte> -> seq<byte>, getDataLogFormat: seq<byte>,
                             template: seq<byte>, p: Profile): (r: LogRead)
    requires |template| >= 6
    ensures r.profile.logFormat == card(getDataLogFormat)
    ensures r.profile == p.(logFormat := r.profile.logFormat, logEntries := r.profile.logEntries)
    ensures r.profile.logFormat == [] ==> !r.complete && r.profile == p.(logFormat := [])
    ensures r.complete ==>
              forall k :: 0 <= k < p.logCount as int ==>
                k < |r.profile.logEntries|
                && r.profile.logEntries[k] == card(ReadRecordCommand(template, p.logSfi as nat, k + 1))
    ensures r.profile.logFormat != [] && !r.complete ==>
              exists k :: 0 <= k < p.logCount as int
                          && AbortedAt(card, template, p.logSfi, p.logEntries, r.profile.logEntries, 0, k)
  {
    var format := card(getDataLogFormat);
    var p' := p.(logFormat := format);
    if format == [] then LogRead(p', false)
    else ReadLogRecords(card, template, p', 0)
  }

  /**
    The record loop of `extractBaseRecords` for one SFI, records `record..toRecord`
    inclusive: an empty reply is skipped, any other is decoded into the profile.
  */
  function ReadBaseRecordsOfSfi(card: seq<byte> -> seq<byte>, template: seq<byte>, p: Profile,
                                sfi: nat, record: nat, toRecord: nat): (r: Result<Profile>)
    requires |template| >= 6
    ensures r.Success? ==>
              r.value == p.(cardholderName := r.value.cardholderName,
                            track1 := r.value.track1, track2 := r.value.track2)
    ensures r.Success? && p.track2 != [] ==> r.value.track2 == p.track2
    ensures r.Success? && p.track1 != [] ==> r.value.track1 == p.track1
    decreases toRecord + 1 - record
  {
    if record > toRecord then Success(p)
    else
      var reply := card(ReadRecordCommand(template, sfi, record));
      var p' :- if reply == [] then Success(p) else ExtractBaseRecord(p, reply);
      ReadBaseRecordsOfSfi(card, template, p', sfi, record + 1, toRecord)
  }

  /**
    `extractBaseRecords`: every SFI in `sfi..toSfi` and every record in
    `fromRecord..toRecord`, in that order. Track data captured by an earlier record is
    never replaced by a later one, and nothing but the three base fields changes.
  */
  function ReadBaseRecords(card: seq<byte> -> seq<byte>, template: seq<byte>, p: Profile,
                           sfi: nat, toSfi: nat, fromRecord: nat, toRecord: nat): (r: Result<Profile>)
    requires |template| >= 6
    ensures r.Success? ==>
              r.value == p.(cardholderName := r.value.cardholderName,
                            track1 := r.value.track1, track2 := r.value.track2)
    ensures r.Success? && p.track2 != [] ==> r.value.track2 == p.track2
    ensures r.Success? && p.track1 != [] ==> r.value.track1 == p.track1
    decreases toSfi + 1 - sfi
  {
    if sfi > toSfi then Success(p)
    else
      var p' :- ReadBaseRecordsOfSfi(card, template, p, sfi, fromRecord, toRecord);
      ReadBaseRecords(card, template, p', sfi + 1, toSfi, fromRecord, toRecord)
  }
  // ---------------------------------------------------------------------------------------
  // Which replies the base-record loops decode
  // ---------------------------------------------------------------------------------------

  /**
    Within the byte range of P1 and the five bits of an SFI, different records or SFIs give
    different READ RECORD commands, so a card can tell every read of the loops apart.
  */
  lemma CommandsDistinct(template: seq<byte>, sfi1: nat, record1: nat, sfi2: nat, record2: nat)
    requires |template| >= 6 && sfi1 < 32 && sfi2 < 32 && record1 < 0x100 && record2 < 0x100
    requires sfi1 != sfi2 || record1 != record2
    ensures ReadRecordCommand(template, sfi1, record1) != ReadRecordCommand(template, sfi2, record2)
  {
    var c1 := ReadRecordCommand(template, sfi1, record1);
    var c2 := ReadRecordCommand(template, sfi2, record2);
    if sfi1 != sfi2 {
      assert c1[5] as int / 8 != c2[5] as int / 8;
    } else {
      assert c1[4] != c2[4];
    }
  }

  /** The card answers none of the READ RECORD commands for records `from..to` of `sfi`. */
  predicate SilentOn(card: seq<byte> -> seq<byte>, template: seq<byte>, sfi: nat, from: nat, to: int)
    requires |template| >= 6
  {
    forall record :: from <= record <= to ==> card(ReadRecordCommand(template, sfi, record)) == []
  }

  /** Records with an empty reply are skipped: a silent range leaves the profile as it was. */
  lemma {:induction false} SilentSfi(card: seq<byte> -> seq<byte>, template: seq<byte>, p: Profile,
                                     sfi: nat, record: nat, toRecord: nat)
    requires |template| >= 6 && SilentOn(card, template, sfi, record, toRecord)
    ensures ReadBaseRecordsOfSfi(card, template, p, sfi, record, toRecord) == Success(p)
    decreases toRecord + 1 - record
  {
    if record <= toRecord {
      assert card(ReadRecordCommand(template, sfi, record)) == [];
      SilentSfi(card, template, p, sfi, record + 1, toRecord);
    }
  }

  /**
    When the card answers only READ RECORD `target` of `sfi` in the range, the record loop
    sends that command and decodes exactly its reply into the profile.
  */
  lemma {:induction false} OneRecordOfSfi(card: seq<byte> -> seq<byte>, template: seq<byte>, p: Profile,
                                          sfi: nat, record: nat, toRecord: nat, target: nat)
    requires |template| >= 6 && record <= target <= toRecord
    requires SilentOn(card, template, sfi, record, target - 1)
    requires SilentOn(card, template, sfi, target + 1, toRecord)
    ensures ReadBaseRecordsOfSfi(card, template, p, sfi, record, toRecord)
            == ExtractBaseRecord(p, card(ReadRecordCommand(template, sfi, target)))
    decreases toRecord + 1 - record
  {
    var reply := card(ReadRecordCommand(template, sfi, record));
    if record < target {
      assert reply == [];
      OneRecordOfSfi(card, template, p, sfi, record + 1, toRecord, target);
    } else {
      var d := ExtractBaseRecord(p, reply);
      if reply == [] {
        assert d == Success(p);
        SilentSfi(card, template, p, sfi, record + 1, toRecord);
      } else if d.Success? {
        SilentSfi(card, template, d.value, sfi, record + 1, toRecord);
      }
    }
  }

  /** The card answers no READ RECORD for the SFIs `sfi..toSfi` and records `from..to`. */
  predicate SilentOnAll(card: seq<byte> -> seq<byte>, template: seq<byte>, sfi: nat, toSfi: int, from: nat, to: nat)
    requires |template| >= 6
  {
    forall s :: sfi <= s <= toSfi ==> SilentOn(card, template, s, from, to)
  }

  /** A card that answers no READ RECORD of the ranges leaves the profile as it was. */
  lemma {:induction false} SilentCard(card: seq<byte> -> seq<byte>, template: seq<byte>, p: Profile,
                                      sfi: nat, toSfi: nat, fromRecord: nat, toRecord: nat)
    requires |template| >= 6 && SilentOnAll(card, template, sfi, toSfi, fromRecord, toRecord)
    ensures ReadBaseRecords(card, template, p, sfi, toSfi, fromRecord, toRecord) == Success(p)
    decreases toSfi + 1 - sfi
  {
    if sfi <= toSfi {
      assert SilentOn(card, template, sfi, fromRecord, toRecord);
      SilentSfi(card, template, p, sfi, fromRecord, toRecord);
      SilentCard(card, template, p, sfi + 1, toSfi, fromRecord, toRecord);
    }
  }

  /**
    When the card answers only READ RECORD `target` of SFI `targetSfi`, the two loops of
    `extractBaseRecords` send that command and decode exactly its reply into the profile.
  */
  lemma {:induction false} OneRecordRead(card: seq<byte> -> seq<byte>, template: seq<byte>, p: Profile,
                                         sfi: nat, toSfi: nat, fromRecord: nat, toRecord: nat,
                                         targetSfi: nat, target: nat)
    requires |template| >= 6
    requires sfi <= targetSfi <= toSfi && fromRecord <= target <= toRecord
    requires SilentOnAll(card, template, sfi, targetSfi - 1, fromRecord, toRecord)
    requires SilentOn(card, template, targetSfi, fromRecord, target - 1)
    requires SilentOn(card, template, targetSfi, target + 1, toRecord)
    requires SilentOnAll(card, template, targetSfi + 1, toSfi, fromRecord, toRecord)
    ensures ReadBaseRecords(card, template, p, sfi, toSfi, fromRecord, toRecord)
            == ExtractBaseRecord(p, card(ReadRecordCommand(template, targetSfi, target)))
    decreases toSfi + 1 - sfi
  {
    if sfi < targetSfi {
      assert SilentOn(card, template, sfi, fromRecord, toRecord);
      SilentSfi(card, template, p, sfi, fromRecord, toRecord);
      OneRecordRead(card, template, p, sfi + 1, toSfi, fromRecord, toRecord, targetSfi, target);
    } else {
      OneRecordOfSfi(card, template, p, sfi, fromRecord, toRecord, target);
      var d := ExtractBaseRecord(p, card(ReadRecordCommand(template, targetSfi, target)));
      if d.Success? {
        SilentCard(card, template, d.value, sfi + 1, toSfi, fromRecord, toRecord);
      }
    }
  }
}
