/** Properties of the directory scans: the corrected round trip and the as-written defect. */
module DirectoryProofs {
  import opened Bytes
  import opened Directory
  import Framing

  /** An entry carrying every field, with a label short enough for a one-byte template length. */
  predicate Encodable(app: Application)
  {
    app.aid.Some? && app.name.Some? && app.priority.Some? && |app.name.value| <= 241
  }

  /** The fields of an application template: identifier, label, priority indicator. */
  function TemplateBody(app: Application): (body: seq<byte>)
    requires Encodable(app)
    ensures |body| == 14 + |app.name.value|
  {
    ([AidTag, 7] + app.aid.value)
      + (([LabelTag, |app.name.value| as byte] + app.name.value) + [PriorityTag, 1, app.priority.value])
  }

  /** One application template, tag 0x61 and length byte included. */
  function EncodeTemplate(app: Application): (t: seq<byte>)
    requires Encodable(app)
    ensures |t| == 16 + |app.name.value|
  {
    [ApplicationTemplate, (14 + |app.name.value|) as byte] + TemplateBody(app)
  }

  function EncodeDirectory(apps: seq<Application>): seq<byte>
    requires forall k :: 0 <= k < |apps| ==> Encodable(apps[k])
  {
    if apps == [] then [] else EncodeTemplate(apps[0]) + EncodeDirectory(apps[1..])
  }

  /** The corrected field walk recovers every field of an encoded template. */
  lemma TemplateFieldsDecode(buf: seq<byte>, p: nat, app: Application)
    requires Encodable(app)
    requires p + 14 + |app.name.value| <= |buf|
    requires buf[p..p + 14 + |app.name.value|] == TemplateBody(app)
    ensures TemplateFields(buf, p, p + 14 + |app.name.value|, Unset) == Success(app)
  {
    var n := |app.name.value|;
    var end := p + 14 + n;
    var aidField := [AidTag, 7] + app.aid.value;
    var nameField := [LabelTag, n as byte] + app.name.value;
    var priorityField := [PriorityTag, 1, app.priority.value];
    SplitSlice(buf, p, end, aidField, nameField + priorityField);
    SplitSlice(buf, p + 9, end, nameField, priorityField);
    SplitSlice(buf, p, p + 9, [AidTag, 7], app.aid.value);
    SplitSlice(buf, p + 9, p + 11 + n, [LabelTag, n as byte], app.name.value);

    assert buf[p] == AidTag && buf[p + 1] == 7;
    var a1 := Unset.(aid := app.aid);
    assert TemplateFields(buf, p, end, Unset) == TemplateFields(buf, p + 9, end, a1);

    assert buf[p + 9] == LabelTag && buf[p + 10] as nat == n;
    var a2 := a1.(name := app.name);
    assert TemplateFields(buf, p + 9, end, a1) == TemplateFields(buf, p + 11 + n, end, a2);

    assert buf[p + 11 + n] == PriorityTag && buf[p + 12 + n] == 1;
    assert buf[p + 13 + n] == app.priority.value;
    assert TemplateFields(buf, p + 11 + n, end, a2) == TemplateFields(buf, end, end, app);
  }

  /** Bytes other than 0x61 are stepped over by the outer scan. */
  lemma {:induction false} SkipPlain(buf: seq<byte>, i: nat, j: nat)
    requires i <= j <= |buf|
    requires ApplicationTemplate !in buf[i..j]
    ensures DirectoryScanFixed(buf, i) == DirectoryScanFixed(buf, j)
    decreases j - i
  {
    if i < j {
      assert buf[i] == buf[i..j][0];
      assert buf[i + 1..j] == buf[i..j][1..];
      SkipPlain(buf, i + 1, j);
    }
  }

  /** One encoded template decodes to its entry, and the scan resumes right after it. */
  lemma TemplateStepFixed(buf: seq<byte>, i: nat, app: Application)
    requires Encodable(app)
    requires i + 16 + |app.name.value| <= |buf|
    requires buf[i..i + 16 + |app.name.value|] == EncodeTemplate(app)
    ensures DirectoryScanFixed(buf, i)
            == match DirectoryScanFixed(buf, i + 16 + |app.name.value|)
               case Success(rest) => Success([app] + rest)
               case Failure(err) => Failure(err)
  {
    var n := |app.name.value|;
    var t := EncodeTemplate(app);
    assert buf[i] == t[0] == ApplicationTemplate;
    assert buf[i + 1] == t[1] && buf[i + 1] as nat == 14 + n;
    assert buf[i + 2..i + 16 + n] == t[2..] == TemplateBody(app);
    TemplateFieldsDecode(buf, i + 2, app);
  }

  /** An encoded directory starts with the first entry's template. */
  lemma DirectoryHead(buf: seq<byte>, i: nat, j: nat, apps: seq<Application>)
    requires apps != [] && forall k :: 0 <= k < |apps| ==> Encodable(apps[k])
    requires i <= j <= |buf| && buf[i..j] == EncodeDirectory(apps)
    ensures i + 16 + |apps[0].name.value| <= j
    ensures buf[i..i + 16 + |apps[0].name.value|] == EncodeTemplate(apps[0])
    ensures buf[i + 16 + |apps[0].name.value|..j] == EncodeDirectory(apps[1..])
  {
    SplitSlice(buf, i, j, EncodeTemplate(apps[0]), EncodeDirectory(apps[1..]));
  }

  /** Trailing bytes without 0x61 decode to no entries. */
  lemma ScanTrailer(buf: seq<byte>, i: nat)
    requires i <= |buf| && ApplicationTemplate !in buf[i..]
    ensures DirectoryScanFixed(buf, i) == Success([])
  {
    assert buf[i..|buf|] == buf[i..];
    SkipPlain(buf, i, |buf|);
  }

  /** The encoded directory in `buf[i..j]`, followed by bytes without 0x61, decodes to `apps`. */
  lemma {:induction false} ScanEncoded(buf: seq<byte>, i: nat, j: nat, apps: seq<Application>)
    requires forall k :: 0 <= k < |apps| ==> Encodable(apps[k])
    requires i <= j <= |buf| && buf[i..j] == EncodeDirectory(apps)
    requires ApplicationTemplate !in buf[j..]
    ensures DirectoryScanFixed(buf, i) == Success(apps)
    decreases |apps|
  {
    if apps == [] {
      assert i == j;
      ScanTrailer(buf, i);
    } else {
      var app := apps[0];
      var end := i + 16 + |app.name.value|;
      DirectoryHead(buf, i, j, apps);
      TemplateStepFixed(buf, i, app);
      ScanEncoded(buf, end, j, apps[1..]);
      assert [app] + apps[1..] == apps;
    }
  }

  /**
    Round trip of the corrected scan: a reply made of bytes without 0x61, a run of complete
    application templates and trailing bytes without 0x61 decodes to exactly those entries,
    in order.
  */
  lemma DirectoryRoundTrip(pre: seq<byte>, apps: seq<Application>, post: seq<byte>)
    requires forall k :: 0 <= k < |apps| ==> Encodable(apps[k])
    requires ApplicationTemplate !in pre && ApplicationTemplate !in post
    ensures DirectoryScanFixed(pre + EncodeDirectory(apps) + post, 0) == Success(apps)
  {
    var d := EncodeDirectory(apps);
    var buf := pre + d + post;
    var j := |pre| + |d|;
    assert buf[0..|pre|] == pre && buf[|pre|..j] == d && buf[j..] == post;
    SkipPlain(buf, 0, |pre|);
    ScanEncoded(buf, |pre|, j, apps);
  }

  /**
    End to end with the corrected scan: a raw PPSE reply made of the reader's status byte,
    complete application templates and the status word 90 00 yields exactly the encoded
    entries, whatever stale bytes follow the reply in the receive buffer.
  */
  lemma GetAllRoundTrip(status: byte, apps: seq<Application>, stale: seq<byte>)
    requires forall k :: 0 <= k < |apps| ==> Encodable(apps[k])
    requires status != ApplicationTemplate
    ensures var raw := [status] + EncodeDirectory(apps) + Framing.StatusOk;
            GetAllFixed(|raw|, raw + stale) == Success(apps)
  {
    var raw := [status] + EncodeDirectory(apps) + Framing.StatusOk;
    Framing.FramingRoundTrip(status, EncodeDirectory(apps), stale);
    assert (raw + stale)[..|raw|] == raw;
    DirectoryRoundTrip([status], apps, Framing.StatusOk);
  }

  // ---------------------------------------------------------------------------------------
  // Rejected input
  // ---------------------------------------------------------------------------------------

  /**
    An identifier field whose length byte is not 7 is rejected with that length instead of
    overrunning the 7-byte identifier; it is the only way a step of the as-written walk
    reports `InvalidAid`.
  */
  lemma InvalidAidRejected(buf: seq<byte>, i: nat, app: Application)
    requires i < |buf|
    ensures var r := TemplateStep(buf, i, app);
            r.Failure? && r.error.InvalidAid? <==> buf[i] == AidTag && i + 1 < |buf| && buf[i + 1] != 7
    ensures buf[i] == AidTag && i + 1 < |buf| && buf[i + 1] != 7 ==>
              TemplateStep(buf, i, app) == Failure(InvalidAid(buf[i + 1] as nat))
  {
  }

  /** An identifier tag at the end, or a 7-byte identifier that does not fit, is `Truncated`. */
  lemma AidOverrunRejected(buf: seq<byte>, i: nat, app: Application)
    requires i < |buf| && buf[i] == AidTag
    requires i + 1 == |buf| || (buf[i + 1] == 7 && i + 9 > |buf|)
    ensures TemplateStep(buf, i, app) == Failure(Truncated)
  {
  }

  /** A label whose length byte is missing or runs past the reply is `Truncated`. */
  lemma LabelOverrunRejected(buf: seq<byte>, i: nat, app: Application)
    requires i + 1 < |buf| && buf[i] != AidTag && buf[i] != PriorityTag && buf[i + 1] == LabelTag
    requires i + 2 == |buf| || i + 3 + buf[i + 2] as nat > |buf|
    ensures TemplateStep(buf, i, app) == Failure(Truncated)
  {
  }

  /**
    The corrected field walk rejects a field whose length byte is missing or runs past the
    template with `Truncated`, and an identifier field of any length other than 7 with
    `InvalidAid`.
  */
  lemma FieldRejected(buf: seq<byte>, p: nat, end: nat, app: Application)
    requires p < end <= |buf|
    ensures p + 1 == end || p + 2 + buf[p + 1] as nat > end ==>
              TemplateFields(buf, p, end, app) == Failure(Truncated)
    ensures p + 1 < end && p + 2 + buf[p + 1] as nat <= end && buf[p] == AidTag && buf[p + 1] != 7 ==>
              TemplateFields(buf, p, end, app) == Failure(InvalidAid(buf[p + 1] as nat))
  {
  }

  /** The corrected scan rejects a template whose length byte is missing or runs past the reply. */
  lemma TemplateOverrunRejected(buf: seq<byte>, i: nat)
    requires i < |buf| && buf[i] == ApplicationTemplate
    requires i + 1 == |buf| || i + 2 + buf[i + 1] as nat > |buf|
    ensures DirectoryScanFixed(buf, i) == Failure(Truncated)
  {
  }

  // ---------------------------------------------------------------------------------------
  // The as-written scan on templates that avoid its quirks
  // ---------------------------------------------------------------------------------------

  /**
    An encoded template the as-written walk reads correctly: the bytes it lands on (the
    template length, the identifier's last byte, the label's last byte or its zero length)
    are not mistaken for a template, identifier or priority tag.
  */
  predicate QuirkFree(app: Application)
    requires Encodable(app)
  {
    var n := |app.name.value|;
    var len := 14 + n;
    && len != ApplicationTemplate as int && len != AidTag as int && len != PriorityTag as int
    && app.aid.value[6] != PriorityTag
    && (n == 0 || app.name.value[n - 1] !in {ApplicationTemplate, AidTag, PriorityTag})
  }

  /** Bytes that neither open a template nor trigger any probe of the as-written walk. */
  predicate Inert(b: byte)
  {
    b !in {ApplicationTemplate, AidTag, PriorityTag, LabelTag}
  }

  /** The bytes of an encoded template at index `t`, read through the buffer's own indices. */
  predicate TemplateAt(buf: seq<byte>, t: nat, app: Application)
    requires Encodable(app)
  {
    var n := |app.name.value|;
    && t + 16 + n <= |buf|
    && buf[t] == ApplicationTemplate && buf[t + 1] as int == 14 + n
    && buf[t + 2] == AidTag && buf[t + 3] == 7 && buf[t + 4..t + 11] == app.aid.value
    && buf[t + 11] == LabelTag && buf[t + 12] as int == n && buf[t + 13..t + 13 + n] == app.name.value
    && buf[t + 13 + n] == PriorityTag && buf[t + 15 + n] == app.priority.value
  }

  lemma TemplateBytes(buf: seq<byte>, t: nat, app: Application)
    requires Encodable(app)
    requires t + 16 + |app.name.value| <= |buf|
    requires buf[t..t + 16 + |app.name.value|] == EncodeTemplate(app)
    ensures TemplateAt(buf, t, app)
  {
    var n := |app.name.value|;
    var end := t + 16 + n;
    var nameField := [LabelTag, n as byte] + app.name.value;
    var priorityField := [PriorityTag, 1, app.priority.value];
    SplitSlice(buf, t, end, [ApplicationTemplate, (14 + n) as byte], TemplateBody(app));
    SplitSlice(buf, t + 2, end, [AidTag, 7] + app.aid.value, nameField + priorityField);
    SplitSlice(buf, t + 2, t + 11, [AidTag, 7], app.aid.value);
    SplitSlice(buf, t + 11, end, nameField, priorityField);
    SplitSlice(buf, t + 11, t + 13 + n, [LabelTag, n as byte], app.name.value);
    assert buf[t] == ApplicationTemplate && buf[t + 1] as int == 14 + n;
    assert buf[t + 2] == AidTag && buf[t + 3] == 7;
    assert buf[t + 11] == LabelTag && buf[t + 12] as int == n;
    assert buf[t + 13 + n] == PriorityTag && buf[t + 15 + n] == app.priority.value;
  }

  /**
    From the identifier tag, one as-written step reads the identifier, probes the priority tag
    on the identifier's last byte, and reads the label that follows; it stops on the label's
    last byte.
  */
  lemma AidAndLabelStep(buf: seq<byte>, t: nat, app: Application)
    requires Encodable(app) && QuirkFree(app) && TemplateAt(buf, t, app)
    ensures TemplateStep(buf, t + 2, Unset)
            == Success(Walk(t + 12 + |app.name.value|, Unset.(aid := app.aid, name := app.name)))
  {
    var n := |app.name.value|;
    assert Take(buf, t + 4, 7) == Success(app.aid.value);
    assert buf[t + 10] == buf[t + 4..t + 11][6] == app.aid.value[6];
    assert Take(buf, t + 13, n) == Success(app.name.value);
  }

  /** A step of the as-written walk from a byte other than 0x61 continues the walk where it ends. */
  lemma WalkStep(buf: seq<byte>, i: nat, app: Application, w: Walk)
    requires i < |buf| && buf[i] != ApplicationTemplate && TemplateStep(buf, i, app) == Success(w)
    ensures TemplateWalk(buf, i, app) == TemplateWalk(buf, w.pos, w.app)
  {
  }

  /** A byte that is no identifier or priority tag, not followed by a label tag, is one step. */
  lemma PlainStep(buf: seq<byte>, i: nat, app: Application)
    requires i < |buf| && buf[i] != AidTag && buf[i] != PriorityTag
    requires i + 1 == |buf| || buf[i + 1] != LabelTag
    ensures TemplateStep(buf, i, app) == Success(Walk(i + 1, app))
  {
  }

  /** At the priority tag the step takes the byte after the (unchecked) length byte. */
  lemma PriorityStep(buf: seq<byte>, i: nat, app: Application)
    requires i + 2 < |buf| && buf[i] == PriorityTag
    requires i + 3 == |buf| || buf[i + 3] != LabelTag
    ensures TemplateStep(buf, i, app) == Success(Walk(i + 3, app.(priority := Some(buf[i + 2]))))
  {
  }

  /** The label's last byte (or its zero length byte) is none of the three tags the walk probes. */
  lemma LabelEnd(buf: seq<byte>, t: nat, app: Application)
    requires Encodable(app) && QuirkFree(app) && TemplateAt(buf, t, app)
    ensures var last := t + 12 + |app.name.value|;
            buf[last] != ApplicationTemplate && buf[last] != AidTag && buf[last] != PriorityTag
  {
    var n := |app.name.value|;
    if n > 0 {
      assert buf[t + 12 + n] == buf[t + 13..t + 13 + n][n - 1];
    }
  }

  /**
    The walk from a template's length byte, given where the identifier-and-label step stops:
    two plain steps around that stop, then the priority step, which ends at `t + 16 + n`.
  */
  lemma WalkThrough(buf: seq<byte>, t: nat, n: nat, a2: Application, prio: byte)
    requires t + 16 + n <= |buf|
    requires buf[t + 1] != ApplicationTemplate && buf[t + 1] != AidTag && buf[t + 1] != PriorityTag
    requires buf[t + 2] == AidTag
    requires TemplateStep(buf, t + 2, Unset) == Success(Walk(t + 12 + n, a2))
    requires var last := t + 12 + n;
             buf[last] != ApplicationTemplate && buf[last] != AidTag && buf[last] != PriorityTag
    requires buf[t + 13 + n] == PriorityTag && buf[t + 15 + n] == prio
    requires t + 16 + n == |buf| || buf[t + 16 + n] != LabelTag
    ensures TemplateWalk(buf, t + 1, Unset) == TemplateWalk(buf, t + 16 + n, a2.(priority := Some(prio)))
  {
    var last := t + 12 + n;
    PlainStep(buf, t + 1, Unset);
    WalkStep(buf, t + 1, Unset, Walk(t + 2, Unset));
    WalkStep(buf, t + 2, Unset, Walk(last, a2));
    PlainStep(buf, last, a2);
    WalkStep(buf, last, a2, Walk(last + 1, a2));
    PriorityStep(buf, last + 1, a2);
    WalkStep(buf, last + 1, a2, Walk(t + 16 + n, a2.(priority := Some(prio))));
  }

  /**
    The as-written walk through a quirk-free template, from its length byte, fills in all
    three fields and stands on the first byte after the template (which must not be a label
    tag: the label probe looks at it).
  */
  lemma TemplateWalkAsWritten(buf: seq<byte>, t: nat, app: Application)
    requires Encodable(app) && QuirkFree(app) && TemplateAt(buf, t, app)
    requires var end := t + 16 + |app.name.value|; end == |buf| || buf[end] != LabelTag
    ensures WalksThrough(buf, t, t + 16 + |app.name.value|, app)
  {
    var n := |app.name.value|;
    var a2 := Unset.(aid := app.aid, name := app.name);
    AidAndLabelStep(buf, t, app);
    LabelEnd(buf, t, app);
    assert a2.(priority := Some(app.priority.value)) == app;
    WalkThrough(buf, t, n, a2, app.priority.value);
  }

  /** The as-written walk of the template opened at `i` reaches `end` holding `app`. */
  predicate WalksThrough(buf: seq<byte>, i: nat, end: nat, app: Application)
    requires i < end <= |buf|
  {
    TemplateWalk(buf, i + 1, Unset) == TemplateWalk(buf, end, app)
  }

  /** The as-written walk stops on a byte 0x61 without reading it. */
  lemma WalkStops(buf: seq<byte>, i: nat, app: Application)
    requires i < |buf| && buf[i] == ApplicationTemplate
    ensures TemplateWalk(buf, i, app) == Success(Walk(i, app))
  {
  }

  /** At 0x61 the as-written outer scan opens an entry and resumes where its walk stopped. */
  lemma OpenTemplate(buf: seq<byte>, i: nat, w: Walk)
    requires i < |buf| && buf[i] == ApplicationTemplate
    requires TemplateWalk(buf, i + 1, Unset) == Success(w)
    ensures DirectoryScan(buf, i)
            == match DirectoryScan(buf, w.pos)
               case Success(rest) => Success([w.app] + rest)
               case Failure(err) => Failure(err)
  {
  }

  /** Inert bytes are walked over one at a time without effect. */
  lemma {:induction false} InertWalk(buf: seq<byte>, i: nat, app: Application)
    requires i <= |buf| && forall k :: i <= k < |buf| ==> Inert(buf[k])
    ensures TemplateWalk(buf, i, app) == Success(Walk(|buf|, app))
    decreases |buf| - i
  {
    if i < |buf| {
      PlainStep(buf, i, app);
      InertWalk(buf, i + 1, app);
    }
  }

  /** Bytes other than 0x61 are stepped over by the as-written outer scan. */
  lemma {:induction false} SkipPlainAsWritten(buf: seq<byte>, i: nat, j: nat)
    requires i <= j <= |buf|
    requires forall k :: i <= k < j ==> buf[k] != ApplicationTemplate
    ensures DirectoryScan(buf, i) == DirectoryScan(buf, j)
    decreases j - i
  {
    if i < j {
      SkipPlainAsWritten(buf, i + 1, j);
    }
  }

  /** The templates of `apps` laid out one after the other in `buf[i..j]`, by index. */
  predicate DirectoryAt(buf: seq<byte>, i: nat, j: nat, apps: seq<Application>)
    requires forall k :: 0 <= k < |apps| ==> Encodable(apps[k])
    decreases |apps|
  {
    if apps == [] then i == j
    else
      assert Encodable(apps[0]);
      var end := i + 16 + |apps[0].name.value|;
      end <= j && TemplateAt(buf, i, apps[0]) && DirectoryAt(buf, end, j, apps[1..])
  }

  lemma {:induction false} DirectoryLaidOut(buf: seq<byte>, i: nat, j: nat, apps: seq<Application>)
    requires forall k :: 0 <= k < |apps| ==> Encodable(apps[k])
    requires i <= j <= |buf| && buf[i..j] == EncodeDirectory(apps)
    ensures DirectoryAt(buf, i, j, apps)
    decreases |apps|
  {
    if apps != [] {
      var end := i + 16 + |apps[0].name.value|;
      HeadLaidOut(buf, i, j, apps, end);
      DirectoryLaidOut(buf, end, j, apps[1..]);
    }
  }

  lemma HeadLaidOut(buf: seq<byte>, i: nat, j: nat, apps: seq<Application>, end: nat)
    requires apps != [] && forall k :: 0 <= k < |apps| ==> Encodable(apps[k])
    requires i <= j <= |buf| && buf[i..j] == EncodeDirectory(apps)
    requires end == i + 16 + |apps[0].name.value|
    ensures end <= j && TemplateAt(buf, i, apps[0]) && buf[end..j] == EncodeDirectory(apps[1..])
  {
    DirectoryHead(buf, i, j, apps);
    TemplateBytes(buf, i, apps[0]);
  }

  /**
    The as-written scan decodes quirk-free templates laid out in `buf[i..j]` and followed by
    inert bytes to exactly their entries.
  */
  lemma LaidOutDecodes(buf: seq<byte>, i: nat, j: nat, apps: seq<Application>)
    requires forall k :: 0 <= k < |apps| ==> Encodable(apps[k]) && QuirkFree(apps[k])
    requires j <= |buf| && DirectoryAt(buf, i, j, apps)
    requires forall k :: j <= k < |buf| ==> Inert(buf[k])
    ensures DirectoryScan(buf, i) == Success(apps)
  {
    ChainFromLayout(buf, i, j, apps);
    if apps == [] {
      SkipPlainAsWritten(buf, i, |buf|);
    } else {
      ChainDecodes(buf, i, apps);
    }
  }

  /**
    The as-written walks of consecutive templates: each opens on 0x61 at `i` and stops where
    the next template starts holding its entry; the last one runs on to the end of `buf`.
  */
  predicate WalkChain(buf: seq<byte>, i: nat, apps: seq<Application>)
    requires forall k :: 0 <= k < |apps| ==> Encodable(apps[k])
    decreases |apps|
  {
    if apps == [] then true
    else
      assert Encodable(apps[0]);
      var end := i + 16 + |apps[0].name.value|;
      && i < end <= |buf| && buf[i] == ApplicationTemplate
      && (|apps| == 1 ==> TemplateWalk(buf, i + 1, Unset) == Success(Walk(|buf|, apps[0])))
      && (|apps| > 1 ==> TemplateWalk(buf, i + 1, Unset) == Success(Walk(end, apps[0]))
                         && WalkChain(buf, end, apps[1..]))
  }

  /** Chained walks decode to their entries, in order. */
  lemma {:induction false} ChainDecodes(buf: seq<byte>, i: nat, apps: seq<Application>)
    requires apps != [] && forall k :: 0 <= k < |apps| ==> Encodable(apps[k])
    requires WalkChain(buf, i, apps)
    ensures DirectoryScan(buf, i) == Success(apps)
    decreases |apps|
  {
    assert Encodable(apps[0]);
    var end := i + 16 + |apps[0].name.value|;
    if |apps| > 1 {
      ChainDecodes(buf, end, apps[1..]);
      OpenTemplate(buf, i, Walk(end, apps[0]));
    } else {
      OpenTemplate(buf, i, Walk(|buf|, apps[0]));
      assert DirectoryScan(buf, |buf|) == Success([]);
    }
    assert [apps[0]] + apps[1..] == apps;
  }

  /** Quirk-free templates laid out by index, then inert bytes, are walked through one by one. */
  lemma {:induction false} ChainFromLayout(buf: seq<byte>, i: nat, j: nat, apps: seq<Application>)
    requires forall k :: 0 <= k < |apps| ==> Encodable(apps[k]) && QuirkFree(apps[k])
    requires j <= |buf| && DirectoryAt(buf, i, j, apps)
    requires forall k :: j <= k < |buf| ==> Inert(buf[k])
    ensures WalkChain(buf, i, apps)
    decreases |apps|
  {
    if apps != [] {
      assert Encodable(apps[0]);
      var end := i + 16 + |apps[0].name.value|;
      FirstEntry(buf, i, j, apps, end);
      if |apps| > 1 {
        WalkStops(buf, end, apps[0]);
        ChainFromLayout(buf, end, j, apps[1..]);
      } else {
        InertWalk(buf, end, apps[0]);
      }
    }
  }

  /** The first template is walked through in full; the next one, if any, starts right after it. */
  lemma FirstEntry(buf: seq<byte>, i: nat, j: nat, apps: seq<Application>, end: nat)
    requires apps != [] && forall k :: 0 <= k < |apps| ==> Encodable(apps[k]) && QuirkFree(apps[k])
    requires j <= |buf| && DirectoryAt(buf, i, j, apps)
    requires forall k :: j <= k < |buf| ==> Inert(buf[k])
    requires end == i + 16 + |apps[0].name.value|
    ensures i < end <= j && buf[i] == ApplicationTemplate
    ensures |apps| > 1 ==> end < |buf| && buf[end] == ApplicationTemplate
    ensures |apps| == 1 ==> end == j
    ensures WalksThrough(buf, i, end, apps[0])
  {
    var app := apps[0];
    assert Encodable(app) && QuirkFree(app) && TemplateAt(buf, i, app);
    if |apps| > 1 {
      assert Encodable(apps[1]);
      assert TemplateAt(buf, end, apps[1..][0]);
    }
    TemplateWalkAsWritten(buf, i, app);
  }

  /**
    On quirk-free templates the as-written `getAll` agrees with the corrected one: a raw PPSE
    reply of reader status, the encoded templates and the status word 90 00 yields exactly
    the encoded entries under both, whatever stale bytes follow.
  */
  lemma GetAllAgreesWhenQuirkFree(status: byte, apps: seq<Application>, stale: seq<byte>)
    requires forall k :: 0 <= k < |apps| ==> Encodable(apps[k]) && QuirkFree(apps[k])
    requires status != ApplicationTemplate
    ensures var raw := [status] + EncodeDirectory(apps) + Framing.StatusOk;
            GetAll(|raw|, raw + stale) == GetAllFixed(|raw|, raw + stale) == Success(apps)
  {
    var raw := [status] + EncodeDirectory(apps) + Framing.StatusOk;
    GetAllRoundTrip(status, apps, stale);
    Framing.FramingRoundTrip(status, EncodeDirectory(apps), stale);
    assert (raw + stale)[..|raw|] == raw;
    ReplyAsWritten(status, apps);
  }

  /** The as-written scan of the raw reply: status byte, quirk-free templates, 90 00. */
  lemma ReplyAsWritten(status: byte, apps: seq<Application>)
    requires forall k :: 0 <= k < |apps| ==> Encodable(apps[k]) && QuirkFree(apps[k])
    requires status != ApplicationTemplate
    ensures DirectoryScan([status] + EncodeDirectory(apps) + Framing.StatusOk, 0) == Success(apps)
  {
    var raw := [status] + EncodeDirectory(apps) + Framing.StatusOk;
    var j := 1 + |EncodeDirectory(apps)|;
    RawLayout(status, apps, raw, j);
    DecodesAfterStatus(raw, j, apps);
  }

  lemma DecodesAfterStatus(raw: seq<byte>, j: nat, apps: seq<Application>)
    requires forall k :: 0 <= k < |apps| ==> Encodable(apps[k]) && QuirkFree(apps[k])
    requires 1 <= j <= |raw| && raw[0] != ApplicationTemplate
    requires DirectoryAt(raw, 1, j, apps)
    requires forall k :: j <= k < |raw| ==> Inert(raw[k])
    ensures DirectoryScan(raw, 0) == Success(apps)
  {
    SkipPlainAsWritten(raw, 0, 1);
    LaidOutDecodes(raw, 1, j, apps);
  }

  lemma RawLayout(status: byte, apps: seq<Application>, raw: seq<byte>, j: nat)
    requires forall k :: 0 <= k < |apps| ==> Encodable(apps[k])
    requires raw == [status] + EncodeDirectory(apps) + Framing.StatusOk && j == 1 + |EncodeDirectory(apps)|
    ensures 1 <= j <= |raw| && raw[0] == status
    ensures DirectoryAt(raw, 1, j, apps)
    ensures forall k :: j <= k < |raw| ==> Inert(raw[k])
  {
    assert raw[1..j] == EncodeDirectory(apps);
    assert raw[j] == 0x90 && raw[j + 1] == 0x00 && |raw| == j + 2;
    DirectoryLaidOut(raw, 1, j, apps);
  }


}

module DirectoryExamples {
  import opened Bytes
  import opened Directory

  const VisaAid: Aid := [0xA0, 0x00, 0x00, 0x00, 0x03, 0x10, 0x10]

  /** A raw `SELECT PPSE` reply: reader status, one template labelled `text`, status word. */
  function OneTemplateReply(text: seq<byte>): seq<byte>
    requires |text| == 4
  {
    [0x00, ApplicationTemplate, 0x12, AidTag, 7] + VisaAid + [LabelTag, 4] + text
      + [PriorityTag, 1, 1, 0x90, 0x00]
  }

  /** The as-written scan decodes a template labelled "VISA" into one complete entry. */
  lemma UpperCaseLabelDecodes()
    ensures DirectoryScan(OneTemplateReply([0x56, 0x49, 0x53, 0x41]), 0)
            == Success([Application(Some(VisaAid), Some([0x56, 0x49, 0x53, 0x41]), Some(1))])
  {
    var buf := OneTemplateReply([0x56, 0x49, 0x53, 0x41]);
    assert buf[5..12] == VisaAid;
    assert buf[14..18] == [0x56, 0x49, 0x53, 0x41];
    var a1 := Unset.(aid := Some(VisaAid));
    var a2 := a1.(name := Some([0x56, 0x49, 0x53, 0x41]));
    var a3 := a2.(priority := Some(1));
    assert TemplateStep(buf, 2, Unset) == Success(Walk(3, Unset));
    assert TemplateStep(buf, 3, Unset) == Success(Walk(17, a2));
    assert TemplateStep(buf, 17, a2) == Success(Walk(18, a2));
    assert TemplateStep(buf, 18, a2) == Success(Walk(21, a3));
    assert TemplateStep(buf, 21, a3) == Success(Walk(22, a3));
    assert TemplateStep(buf, 22, a3) == Success(Walk(23, a3));
    assert TemplateWalk(buf, 2, Unset) == Success(Walk(23, a3));
    assert DirectoryScan(buf, 23) == Success([]);
    assert |buf| == 23 && buf[1] == ApplicationTemplate;
    var r1 := DirectoryScan(buf, 1);
    assert r1.Success?;
    assert r1.value == [a3];
  }

  /**
    The as-written defect: with the label "Visa" its last byte is 0x61, the walk stops on it
    and the outer scan opens a second, phantom entry there. The real entry loses its priority
    and the phantom one carries it.
  */
  lemma PhantomApplication()
    ensures DirectoryScan(OneTemplateReply([0x56, 0x69, 0x73, 0x61]), 0)
            == Success([Application(Some(VisaAid), Some([0x56, 0x69, 0x73, 0x61]), None),
                        Application(None, None, Some(1))])
  {
    var buf := OneTemplateReply([0x56, 0x69, 0x73, 0x61]);
    assert buf[5..12] == VisaAid;
    assert buf[14..18] == [0x56, 0x69, 0x73, 0x61];
    var a2 := Unset.(aid := Some(VisaAid), name := Some([0x56, 0x69, 0x73, 0x61]));
    var b := Unset.(priority := Some(1));
    assert TemplateStep(buf, 2, Unset) == Success(Walk(3, Unset));
    assert TemplateStep(buf, 3, Unset) == Success(Walk(17, a2));
    assert TemplateWalk(buf, 2, Unset) == Success(Walk(17, a2));
    assert TemplateStep(buf, 18, Unset) == Success(Walk(21, b));
    assert TemplateStep(buf, 21, b) == Success(Walk(22, b));
    assert TemplateStep(buf, 22, b) == Success(Walk(23, b));
    assert TemplateWalk(buf, 18, Unset) == Success(Walk(23, b));
    assert DirectoryScan(buf, 23) == Success([]);
    var r17 := DirectoryScan(buf, 17);
    assert r17.Success? && r17.value == [b];
    var r1 := DirectoryScan(buf, 1);
    assert r1.Success? && r1.value == [a2, b];
  }

  /** The corrected scan decodes the same "Visa" reply into the one intended entry. */
  lemma PhantomApplicationFixed()
    ensures DirectoryScanFixed(OneTemplateReply([0x56, 0x69, 0x73, 0x61]), 0)
            == Success([Application(Some(VisaAid), Some([0x56, 0x69, 0x73, 0x61]), Some(1))])
  {
    var buf := OneTemplateReply([0x56, 0x69, 0x73, 0x61]);
    assert buf[5..12] == VisaAid;
    assert buf[14..18] == [0x56, 0x69, 0x73, 0x61];
    var a1 := Unset.(aid := Some(VisaAid));
    var a2 := a1.(name := Some([0x56, 0x69, 0x73, 0x61]));
    var a3 := a2.(priority := Some(1));
    assert TemplateFields(buf, 3, 21, Unset) == TemplateFields(buf, 12, 21, a1);
    assert TemplateFields(buf, 12, 21, a1) == TemplateFields(buf, 18, 21, a2);
    assert TemplateFields(buf, 18, 21, a2) == Success(a3);
    assert DirectoryScanFixed(buf, 23) == Success([]);
    assert DirectoryScanFixed(buf, 22) == Success([]);
    assert DirectoryScanFixed(buf, 21) == Success([]);
    var r1 := DirectoryScanFixed(buf, 1);
    assert r1.Success? && r1.value == [a3];
  }
}
