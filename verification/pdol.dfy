/**
  PDOL parsing and GET PROCESSING OPTIONS assembly (`CCInfo::getProcessingOptions`,
  ccinfo.cc:352-392).
*/
module Pdol {
  import opened Bytes
  import Tables

  /** One data-object-list entry: a tag and the number of value bytes the card wants. */
  datatype DolEntry = DolEntry(tag: nat, length: byte)

  /** First bytes that make a tag two bytes long in the source's reading of a DOL. */
  predicate TwoByteLead(b: byte)
  {
    b == 0x5F || b == 0x9F || b == 0xBF
  }

  /** A tag as a DOL can carry it: one byte not in the lead set, or two bytes led by one. */
  predicate WellFormedTag(tag: nat)
  {
    (tag < 0x100 && !TwoByteLead(tag as byte))
    || (0x100 <= tag < 0x10000 && TwoByteLead((tag / 0x100) as byte))
  }

  function TagBytes(tag: nat): seq<byte>
    requires WellFormedTag(tag)
  {
    if tag < 0x100 then [tag as byte] else [(tag / 0x100) as byte, (tag % 0x100) as byte]
  }

  /** The bytes of a data object list: each tag followed by its length byte. */
  function EncodeDol(entries: seq<DolEntry>): seq<byte>
    requires forall k :: 0 <= k < |entries| ==> WellFormedTag(entries[k].tag)
  {
    if entries == [] then [] else TagBytes(entries[0].tag) + [entries[0].length] + EncodeDol(entries[1..])
  }

  /**
    The tag-list loop of `getProcessingOptions` from index `i`: a lead byte 5F, 9F or BF
    makes the tag `b0 * 256 + b1`, any other byte is a one-byte tag; a length byte follows.
    Running out of bytes inside an entry fails.
  */
  function ParseDol(buf: seq<byte>, i: nat): (r: Result<seq<DolEntry>>)
    ensures r.Success? ==> forall k :: 0 <= k < |r.value| ==> WellFormedTag(r.value[k].tag)
    decreases |buf| - i
  {
    if i >= |buf| then Success([])
    else if TwoByteLead(buf[i]) then
      var b1 :- At(buf, i + 1);
      var len :- At(buf, i + 2);
      var rest :- ParseDol(buf, i + 3);
      Success([DolEntry(buf[i] as nat * 0x100 + b1 as nat, len)] + rest)
    else
      var len :- At(buf, i + 1);
      var rest :- ParseDol(buf, i + 2);
      Success([DolEntry(buf[i] as nat, len)] + rest)
  }

  /** Parsing recovers the entries of any well-formed list. */
  lemma {:induction false} ParseEncodedDol(buf: seq<byte>, i: nat, entries: seq<DolEntry>)
    requires forall k :: 0 <= k < |entries| ==> WellFormedTag(entries[k].tag)
    requires i <= |buf| && buf[i..] == EncodeDol(entries)
    ensures ParseDol(buf, i) == Success(entries)
    decreases |entries|
  {
    if entries != [] {
      var e := entries[0];
      var t := TagBytes(e.tag);
      assert buf[i..] == t + [e.length] + EncodeDol(entries[1..]);
      assert buf[i + |t| + 1..] == EncodeDol(entries[1..]);
      ParseEncodedDol(buf, i + |t| + 1, entries[1..]);
      if e.tag < 0x100 {
        assert buf[i] == e.tag as byte && buf[i + 1] == e.length;
      } else {
        assert buf[i] == (e.tag / 0x100) as byte && buf[i + 1] == (e.tag % 0x100) as byte;
        assert buf[i + 2] == e.length;
      }
      assert [e] + entries[1..] == entries;
    }
  }

  /** Every successful parse consumed the list exactly: encoding its result gives the bytes back. */
  lemma {:induction false} ParsedDolReencodes(buf: seq<byte>, i: nat)
    requires i <= |buf| && ParseDol(buf, i).Success?
    ensures EncodeDol(ParseDol(buf, i).value) == buf[i..]
    decreases |buf| - i
  {
    if i < |buf| {
      var entries := ParseDol(buf, i).value;
      if TwoByteLead(buf[i]) {
        ParsedDolReencodes(buf, i + 3);
        assert entries[1..] == ParseDol(buf, i + 3).value;
        assert buf[i..] == [buf[i], buf[i + 1], buf[i + 2]] + buf[i + 3..];
      } else {
        ParsedDolReencodes(buf, i + 2);
        assert entries[1..] == ParseDol(buf, i + 2).value;
        assert buf[i..] == [buf[i], buf[i + 1]] + buf[i + 2..];
      }
    }
  }

  /** Round trip in both directions between data object lists and their bytes. */
  lemma DolRoundTrip(buf: seq<byte>, entries: seq<DolEntry>)
    requires forall k :: 0 <= k < |entries| ==> WellFormedTag(entries[k].tag)
    ensures ParseDol(buf, 0) == Success(entries) <==> buf == EncodeDol(entries)
  {
    if buf == EncodeDol(entries) {
      ParseEncodedDol(buf, 0, entries);
    }
    if ParseDol(buf, 0) == Success(entries) {
      ParsedDolReencodes(buf, 0);
    }
  }

  /** Sum of the lengths the card asks for (`pdol_response_len`). */
  function TotalLength(entries: seq<DolEntry>): nat
  {
    if entries == [] then 0 else entries[0].length as nat + TotalLength(entries[1..])
  }

  /** Where entry `k`'s value starts among the concatenated values. */
  function Offset(entries: seq<DolEntry>, k: nat): nat
    requires k <= |entries|
  {
    TotalLength(entries[..k])
  }

  /** A tag the canned-value table answers with at least the requested number of bytes. */
  predicate Resolvable(e: DolEntry)
  {
    e.tag in Tables.PdolValues && e.length as nat <= |Tables.PdolValues[e.tag]|
  }

  /** The bytes copied for one entry: the first `length` bytes of its canned value. */
  function Canned(e: DolEntry): seq<byte>
    requires Resolvable(e)
  {
    Tables.PdolValues[e.tag][..e.length]
  }

  /** Each entry's canned bytes sit in `buf` at `base` plus the lengths of the entries before it. */
  predicate Placed(entries: seq<DolEntry>, buf: seq<byte>, base: nat)
  {
    forall k :: 0 <= k < |entries| ==>
      && Resolvable(entries[k])
      && base + Offset(entries, k) + entries[k].length as nat <= |buf|
      && buf[base + Offset(entries, k)..base + Offset(entries, k) + entries[k].length as nat]
         == Canned(entries[k])
  }

  /**
    The values copied for the tag list, in list order. `PDOLValues.at` throws on an unknown
    tag, and copying more bytes than the canned value holds reads past it; both are failures
    here, reported for an entry that really is unresolvable.
  */
  function ResolveValues(entries: seq<DolEntry>): (r: Result<seq<byte>>)
    ensures r.Success? <==> forall k :: 0 <= k < |entries| ==> Resolvable(entries[k])
    ensures r.Success? ==> |r.value| == TotalLength(entries) && Placed(entries, r.value, 0)
    ensures r.Failure? ==> exists k :: 0 <= k < |entries| && !Resolvable(entries[k])
                                       && (r.error == UnresolvedPdolTag(entries[k].tag)
                                           || r.error == PdolValueTooShort(entries[k].tag, entries[k].length as nat))
  {
    if entries == [] then Success([])
    else
      var e := entries[0];
      if e.tag !in Tables.PdolValues then Failure(UnresolvedPdolTag(e.tag))
      else if e.length as nat > |Tables.PdolValues[e.tag]| then Failure(PdolValueTooShort(e.tag, e.length as nat))
      else
        var rest := ResolveValues(entries[1..]);
        if rest.Failure? then
          assert forall k :: 1 <= k < |entries| ==> entries[k] == entries[1..][k - 1];
          rest
        else
          PlacedCons(entries, rest.value);
          Success(Canned(e) + rest.value)
  }

  /** Placing a list is placing its first entry, then its tail right behind it. */
  lemma PlacedCons(entries: seq<DolEntry>, tail: seq<byte>)
    requires entries != [] && Resolvable(entries[0])
    requires Placed(entries[1..], tail, 0)
    ensures Placed(entries, Canned(entries[0]) + tail, 0)
  {
    var head := Canned(entries[0]);
    forall k | 0 <= k < |entries|
      ensures Resolvable(entries[k])
      ensures Offset(entries, k) + entries[k].length as nat <= |head + tail|
      ensures (head + tail)[Offset(entries, k)..Offset(entries, k) + entries[k].length as nat]
              == Canned(entries[k])
    {
      if k == 0 {
        assert entries[..0] == [];
        assert (head + tail)[0..|head|] == head;
      } else {
        assert entries[..k][1..] == entries[1..][..k - 1];
        assert Offset(entries, k) == |head| + Offset(entries[1..], k - 1);
        assert entries[k] == entries[1..][k - 1];
        var o := Offset(entries[1..], k - 1);
        var n := entries[k].length as nat;
        assert (head + tail)[|head| + o..|head| + o + n] == tail[o..o + n];
      }
    }
  }

  /** Placement survives putting bytes before and after the values. */
  lemma PlacedFrame(entries: seq<DolEntry>, values: seq<byte>, pre: seq<byte>, post: seq<byte>)
    requires Placed(entries, values, 0)
    ensures Placed(entries, pre + values + post, |pre|)
  {
    forall k | 0 <= k < |entries|
      ensures |pre| + Offset(entries, k) + entries[k].length as nat <= |pre + values + post|
      ensures (pre + values + post)[|pre| + Offset(entries, k)..|pre| + Offset(entries, k) + entries[k].length as nat]
              == Canned(entries[k])
    {
      var o := Offset(entries, k);
      var n := entries[k].length as nat;
      assert (pre + values + post)[|pre| + o..|pre| + o + n] == values[o..o + n];
    }
  }

  /**
    The GET PROCESSING OPTIONS command: the header, Lc = total + 2, tag 83, the total, the
    values in PDOL order and Le = 0. Lc and the total are stored in single bytes and wrap
    past 255.
  */
  function BuildGpo(header: seq<byte>, entries: seq<DolEntry>): (r: Result<seq<byte>>)
    ensures r.Success? <==> forall k :: 0 <= k < |entries| ==> Resolvable(entries[k])
    ensures r.Success? ==>
              && |r.value| == |header| + 4 + TotalLength(entries)
              && r.value[..|header|] == header
              && r.value[|header|] as nat == (TotalLength(entries) + 2) % 0x100
              && (TotalLength(entries) <= 253 ==> r.value[|header|] as nat == TotalLength(entries) + 2)
              && r.value[|header| + 1] == 0x83
              && r.value[|header| + 2] as nat == TotalLength(entries) % 0x100
              && Placed(entries, r.value, |header| + 3)
              && r.value[|r.value| - 1] == 0x00
  {
    var values :- ResolveValues(entries);
    var total := TotalLength(entries);
    var cmd := header + [Low8(total + 2), 0x83, Low8(total)] + values + [0x00];
    GpoLayout(header, entries, values, cmd);
    Success(cmd)
  }

  /** Where the header, Lc, tag 83, the total, the values and Le sit in an assembled command. */
  lemma GpoLayout(header: seq<byte>, entries: seq<DolEntry>, values: seq<byte>, cmd: seq<byte>)
    requires |values| == TotalLength(entries) && Placed(entries, values, 0)
    requires cmd == header + [Low8(TotalLength(entries) + 2), 0x83, Low8(TotalLength(entries))] + values + [0x00]
    ensures |cmd| == |header| + 4 + TotalLength(entries)
    ensures cmd[..|header|] == header
    ensures cmd[|header|] as nat == (TotalLength(entries) + 2) % 0x100
    ensures TotalLength(entries) <= 253 ==> cmd[|header|] as nat == TotalLength(entries) + 2
    ensures cmd[|header| + 1] == 0x83
    ensures cmd[|header| + 2] as nat == TotalLength(entries) % 0x100
    ensures Placed(entries, cmd, |header| + 3)
    ensures cmd[|cmd| - 1] == 0x00
  {
    var total := TotalLength(entries);
    var pre := header + [Low8(total + 2), 0x83, Low8(total)];
    PlacedFrame(entries, values, pre, [0x00]);
    assert cmd[..|header|] == pre[..|header|];
  }

  predicate WellFormedDol(entries: seq<DolEntry>)
  {
    forall k :: 0 <= k < |entries| ==> WellFormedTag(entries[k].tag)
  }

  /**
    `getProcessingOptions` up to the transmission: parse the stored PDOL, then assemble the
    command. Any entry whose tag has no canned value makes the whole command fail.
  */
  function GetProcessingOptions(header: seq<byte>, pdol: seq<byte>): (r: Result<seq<byte>>)
    ensures r.Success? ==> ParseDol(pdol, 0).Success? && EncodeDol(ParseDol(pdol, 0).value) == pdol
    ensures r.Success? ==>
              var entries := ParseDol(pdol, 0).value;
              && |r.value| == |header| + 4 + TotalLength(entries)
              && (TotalLength(entries) <= 253 ==> r.value[|header|] as nat == TotalLength(entries) + 2)
              && Placed(entries, r.value, |header| + 3)
    ensures ParseDol(pdol, 0).Success? ==>
              (r.Success? <==> forall k :: 0 <= k < |ParseDol(pdol, 0).value| ==> Resolvable(ParseDol(pdol, 0).value[k]))
  {
    var parsed := ParseDol(pdol, 0);
    if parsed.Failure? then Failure(parsed.error)
    else
      ParsedDolReencodes(pdol, 0);
      assert pdol[0..] == pdol;
      BuildGpo(header, parsed.value)
  }
}
