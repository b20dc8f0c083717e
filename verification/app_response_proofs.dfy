/** Properties of the SELECT-reply scan. */
module AppResponseProofs {
  import opened Bytes
  import opened Directory
  import opened CardProfile
  import opened AppResponse

  /** No 9F 4D pair starts inside `s`: the nested walk finds no log descriptor there. */
  predicate NoDescriptorPair(s: seq<byte>)
  {
    forall q :: 0 <= q && q + 1 < |s| ==> !(s[q] == 0x9F && s[q + 1] == 0x4D)
  }

  /**
    A BF0C template whose value holds the log-entry descriptor 9F 4D 02 `sfi` `count`
    between other bytes `pre` and `post`.
  */
  function LogTemplate(pre: seq<byte>, sfi: byte, count: byte, post: seq<byte>): (t: seq<byte>)
    requires |pre| + 5 + |post| < 256
    ensures |t| == 8 + |pre| + |post|
  {
    [0xBF, 0x0C, (|pre| + 5 + |post|) as byte] + (pre + ([0x9F, 0x4D, 2, sfi, count] + post))
  }

  /**
    A file-control-information reply holding a language preference, a PDOL and a BF0C
    template with a log-entry descriptor, followed by the status word.
  */
  function EncodeFci(language: seq<byte>, pdol: seq<byte>,
                     pre: seq<byte>, sfi: byte, count: byte, post: seq<byte>): seq<byte>
    requires |language| < 256 && |pdol| < 256 && |pre| + 5 + |post| < 256
  {
    ([0x5F, 0x2D, |language| as byte] + language)
      + (([0x9F, 0x38, |pdol| as byte] + pdol)
         + (LogTemplate(pre, sfi, count, post) + [0x90, 0x00]))
  }

  lemma LanguageStep(buf: seq<byte>, i: nat, p: Profile, v: seq<byte>, next: nat)
    requires |v| < 256 && next == i + 3 + |v|
    requires next <= |buf| && buf[i..next] == [0x5F, 0x2D, |v| as byte] + v
    ensures AppScan(buf, i, p) == AppScan(buf, next, p.(language := Overlay(p.language, v)))
  {
    assert buf[i] == 0x5F && buf[i + 1] == 0x2D && buf[i + 2] as nat == |v|;
    assert buf[i + 3..i + 3 + |v|] == buf[i..i + 3 + |v|][3..] == v;
  }

  lemma PdolStep(buf: seq<byte>, i: nat, p: Profile, v: seq<byte>, next: nat)
    requires |v| < 256 && next == i + 3 + |v|
    requires next <= |buf| && buf[i..next] == [0x9F, 0x38, |v| as byte] + v
    ensures AppScan(buf, i, p) == AppScan(buf, next, p.(pdol := v))
  {
    assert buf[i] == 0x9F && buf[i + 1] == 0x38 && buf[i + 2] as nat == |v|;
    assert buf[i + 3..i + 3 + |v|] == buf[i..i + 3 + |v|][3..] == v;
  }

  /** A slice without a 9F 4D pair, read through the buffer's own indices. */
  lemma NoPairWithin(buf: seq<byte>, a: nat, b: nat, s: seq<byte>)
    requires a <= b <= |buf| && buf[a..b] == s && NoDescriptorPair(s)
    ensures forall q :: a <= q && q + 1 < b ==> !(buf[q] == 0x9F && buf[q + 1] == 0x4D)
  {
    forall q | a <= q && q + 1 < b
      ensures !(buf[q] == 0x9F && buf[q + 1] == 0x4D)
    {
      assert buf[q] == s[q - a] && buf[q + 1] == s[q + 1 - a];
    }
  }

  /**
    The nested walk steps over bytes `j..k-1` of the template one at a time when no 9F 4D
    pair starts among them (a pair may not straddle `k` either).
  */
  lemma {:induction false} WalkSkips(buf: seq<byte>, base: nat, len: nat, j: nat, k: nat, p: Profile)
    requires base + len <= |buf| && j <= k <= len
    requires forall q :: base + j <= q && q + 1 < base + k ==> !(buf[q] == 0x9F && buf[q + 1] == 0x4D)
    requires k == len || buf[base + k] != 0x4D
    ensures LogEntryScan(buf, base, len, j, p) == LogEntryScan(buf, base, len, k, p)
    decreases k - j
  {
    if j < k {
      WalkSkips(buf, base, len, j + 1, k, p);
    }
  }

  /** At a 9F 4D pair the nested walk reads the SFI and count and skips the descriptor. */
  lemma DescriptorStep(buf: seq<byte>, base: nat, len: nat, j: nat, p: Profile, sfi: byte, count: byte)
    requires j + 5 <= len && base + len <= |buf|
    requires buf[base + j..base + j + 5] == [0x9F, 0x4D, 2, sfi, count]
    ensures LogEntryScan(buf, base, len, j, p)
            == LogEntryScan(buf, base, len, j + 5, p.(logSfi := sfi, logCount := count))
  {
    var d := base + j;
    assert buf[d] == 0x9F && buf[d + 1] == 0x4D && buf[d + 3] == sfi && buf[d + 4] == count;
  }

  /**
    The nested walk over a template value holding the descriptor between bytes `pre` and
    `post` without 9F 4D pairs of their own records exactly that descriptor.
  */
  lemma DescriptorFound(buf: seq<byte>, base: nat, p: Profile,
                        pre: seq<byte>, sfi: byte, count: byte, post: seq<byte>, end: nat)
    requires end == base + |pre| + 5 + |post| && end <= |buf|
    requires NoDescriptorPair(pre) && NoDescriptorPair(post)
    requires buf[base..end] == pre + ([0x9F, 0x4D, 2, sfi, count] + post)
    ensures LogEntryScan(buf, base, end - base, 0, p) == Success(p.(logSfi := sfi, logCount := count))
  {
    var len := end - base;
    var d := base + |pre|;
    SplitSlice(buf, base, end, pre, [0x9F, 0x4D, 2, sfi, count] + post);
    SplitSlice(buf, d, end, [0x9F, 0x4D, 2, sfi, count], post);
    assert buf[d] == 0x9F;
    NoPairWithin(buf, base, d, pre);
    WalkSkips(buf, base, len, 0, |pre|, p);
    DescriptorStep(buf, base, len, |pre|, p, sfi, count);
    NoPairWithin(buf, d + 5, end, post);
    DescriptorOutsideTemplateIgnored(buf, base, len, |pre| + 5, p.(logSfi := sfi, logCount := count));
  }

  /**
    A BF0C template is stepped over as a whole, and the log descriptor inside it is
    recorded whatever other bytes surround it, as long as those hold no 9F 4D pair of
    their own.
  */
  lemma LogTemplateStep(buf: seq<byte>, i: nat, p: Profile,
                        pre: seq<byte>, sfi: byte, count: byte, post: seq<byte>, next: nat)
    requires |pre| + 5 + |post| < 256 && next == i + 8 + |pre| + |post|
    requires NoDescriptorPair(pre) && NoDescriptorPair(post)
    requires next <= |buf| && buf[i..next] == LogTemplate(pre, sfi, count, post)
    ensures AppScan(buf, i, p) == AppScan(buf, next, p.(logSfi := sfi, logCount := count))
  {
    var len := |pre| + 5 + |post|;
    SplitSlice(buf, i, next, [0xBF, 0x0C, len as byte], pre + ([0x9F, 0x4D, 2, sfi, count] + post));
    assert buf[i] == 0xBF && buf[i + 1] == 0x0C && buf[i + 2] as nat == len;
    DescriptorFound(buf, i + 3, p, pre, sfi, count, post, next);
  }

  /**
    A language preference or PDOL whose length byte is missing or runs past the reply is
    rejected with `Truncated` instead of copying bytes beyond it.
  */
  lemma ValueOverrunRejected(buf: seq<byte>, i: nat, p: Profile)
    requires TagAt(buf, i, 0x5F, 0x2D) || TagAt(buf, i, 0x9F, 0x38)
    requires i + 2 == |buf| || i + 3 + buf[i + 2] as nat > |buf|
    ensures AppScan(buf, i, p) == Failure(Truncated)
  {
  }

  /** The status word 90 00 is stepped over without effect. */
  lemma ResponseTrailer(buf: seq<byte>, i: nat, p: Profile)
    requires i <= |buf| && buf[i..] == [0x90, 0x00]
    ensures AppScan(buf, i, p) == Success(p)
  {
    assert buf[i] == 0x90 && buf[i + 1] == 0x00 && |buf| == i + 2;
    assert AppScan(buf, i + 1, p) == AppScan(buf, i + 2, p);
  }

  /**
    Round trip: whatever bytes the language preference and the PDOL hold, the scan copies
    exactly `len` bytes of each, resumes right after each value and right after the BF0C
    template, and records the descriptor's SFI and count wherever it sits in the template.
  */
  lemma FciRoundTrip(p: Profile, app: Application, language: seq<byte>, pdol: seq<byte>,
                     pre: seq<byte>, sfi: byte, count: byte, post: seq<byte>)
    requires |language| < 256 && |pdol| < 256 && |pre| + 5 + |post| < 256
    requires NoDescriptorPair(pre) && NoDescriptorPair(post)
    ensures ExtractAppResponse(p, app, EncodeFci(language, pdol, pre, sfi, count, post))
            == Success(p.(application := Some(app), language := Overlay(p.language, language),
                          pdol := pdol, logSfi := sfi, logCount := count))
  {
    var fl := [0x5F, 0x2D, |language| as byte] + language;
    var fp := [0x9F, 0x38, |pdol| as byte] + pdol;
    var ft := LogTemplate(pre, sfi, count, post);
    var status: seq<byte> := [0x90, 0x00];
    var buf := EncodeFci(language, pdol, pre, sfi, count, post);
    assert buf[0..] == buf;
    Split(buf, 0, fl, fp + (ft + status));
    var q := |fl|;
    Split(buf, q, fp, ft + status);
    var t := q + |fp|;
    Split(buf, t, ft, status);
    var next := t + |ft|;
    var p0 := p.(application := Some(app));
    var p1 := p0.(language := Overlay(p.language, language));
    var p2 := p1.(pdol := pdol);
    var p3 := p2.(logSfi := sfi, logCount := count);
    assert q == 3 + |language| && t == q + 3 + |pdol|;
    LanguageStep(buf, 0, p0, language, q);
    PdolStep(buf, q, p1, pdol, t);
    LogTemplateStep(buf, t, p2, pre, sfi, count, post, next);
    ResponseTrailer(buf, next, p3);
    calc {
      ExtractAppResponse(p, app, buf);
      AppScan(buf, 0, p0);
      AppScan(buf, q, p1);
      AppScan(buf, t, p2);
      AppScan(buf, next, p3);
      Success(p3);
    }
  }

  /**
    The nested walk is bounded by the template's own length: when no 9F 4D pair starts
    inside the template, the log descriptor is left unchanged whatever follows it.
  */
  lemma {:induction false} DescriptorOutsideTemplateIgnored(buf: seq<byte>, base: nat, len: nat, j: nat, p: Profile)
    requires base + len <= |buf|
    requires forall q :: base + j <= q && q + 1 < base + len ==> !(buf[q] == 0x9F && buf[q + 1] == 0x4D)
    ensures LogEntryScan(buf, base, len, j, p) == Success(p)
    decreases len - j
  {
    if j < len {
      DescriptorOutsideTemplateIgnored(buf, base, len, j + 1, p);
    }
  }

  /**
    A descriptor placed just after an empty BF0C template is not seen: the template's length
    0 ends the nested walk at once, and the outer scan does not look for 9F 4D.
  */
  lemma EmptyTemplateHidesDescriptor(p: Profile, app: Application)
    ensures ExtractAppResponse(p, app, [0xBF, 0x0C, 0x00, 0x9F, 0x4D, 0x02, 0x0B, 0x0A, 0x90, 0x00])
            == Success(p.(application := Some(app)))
  {
    var buf: seq<byte> := [0xBF, 0x0C, 0x00, 0x9F, 0x4D, 0x02, 0x0B, 0x0A, 0x90, 0x00];
    var p0 := p.(application := Some(app));
    assert AppScan(buf, 0, p0) == AppScan(buf, 3, p0);
  }
}
