/**
  The application directory scan of `getAll` (applicationhelper.cc:53-103), as written, and a
  corrected template walk bounded by each template's own length.
*/
module Directory {
  import opened Bytes
  import opened Framing

  /** An application identifier is exactly 7 bytes. */
  type Aid = s: seq<byte> | |s| == 7 witness [0, 0, 0, 0, 0, 0, 0]

  /**
    One directory entry. A default-constructed `Application` holds indeterminate fields, so a
    field that the template never set is `None`.
  */
  datatype Application = Application(aid: Option<Aid>, name: Option<seq<byte>>, priority: Option<byte>)

  const Unset := Application(None, None, None)

  const ApplicationTemplate: byte := 0x61
  const AidTag: byte := 0x4F
  const PriorityTag: byte := 0x87
  const LabelTag: byte := 0x50

  /** A position in the scan together with the entry being filled in. */
  datatype Walk = Walk(pos: nat, app: Application)

  // ---------------------------------------------------------------------------------------
  // As written
  // ---------------------------------------------------------------------------------------

  /**
    One pass through the body of the inner `while` (applicationhelper.cc:72-94) at index `i`:
    the identifier probe, the priority probe at the index the identifier branch left behind,
    one step, then the label probe. The label probe runs without a bound check; a probe past
    the reply reads a stale byte of the receive buffer, which the model takes as not being
    the label tag.
  */
  function TemplateStep(buf: seq<byte>, i: nat, app: Application): (r: Result<Walk>)
    requires i < |buf|
    ensures r.Success? ==> i < r.value.pos <= |buf|
  {
    var w1 :-
      if buf[i] == AidTag then
        (var len :- At(buf, i + 1);
         if len != 7 then Failure(InvalidAid(len as nat))
         else
           var aid :- Take(buf, i + 2, 7);
           Success(Walk(i + 8, app.(aid := Some(aid)))))
      else Success(Walk(i, app));
    var w2 :-
      if buf[w1.pos] == PriorityTag then
        (var p :- At(buf, w1.pos + 2);
         Success(Walk(w1.pos + 2, w1.app.(priority := Some(p)))))
      else Success(w1);
    var k := w2.pos + 1;
    if k < |buf| && buf[k] == LabelTag then
      var len :- At(buf, k + 1);
      var text :- Take(buf, k + 2, len as nat);
      Success(Walk(k + 1 + len as nat, w2.app.(name := Some(text))))
    else Success(Walk(k, w2.app))
  }

  /**
    The inner `while` of `getAll`: runs template steps from `i` until the end of the reply or
    a byte 0x61 at the position a step left behind.
  */
  function TemplateWalk(buf: seq<byte>, i: nat, app: Application): (r: Result<Walk>)
    requires i <= |buf|
    ensures r.Success? ==> i <= r.value.pos <= |buf|
    ensures r.Success? ==> r.value.pos == |buf| || buf[r.value.pos] == ApplicationTemplate
    decreases |buf| - i
  {
    if i == |buf| || buf[i] == ApplicationTemplate then Success(Walk(i, app))
    else
      var w :- TemplateStep(buf, i, app);
      TemplateWalk(buf, w.pos, w.app)
  }

  /**
    The outer `for` of `getAll` from index `i`: every byte 0x61 it meets opens an entry, whose
    walk ends where the next entry (or the end) begins; `--i` followed by `++i` resumes the
    outer scan exactly there. Each entry consumes one 0x61 byte of the reply.
  */
  function DirectoryScan(buf: seq<byte>, i: nat): (r: Result<seq<Application>>)
    requires i <= |buf|
    ensures r.Success? ==> |r.value| <= Count(buf[i..], ApplicationTemplate)
    decreases |buf| - i
  {
    if i == |buf| then Success([])
    else if buf[i] != ApplicationTemplate then
      var rest :- DirectoryScan(buf, i + 1);
      CountSkip(buf, i, i + 1);
      Success(rest)
    else
      var w :- TemplateWalk(buf, i + 1, Unset);
      var rest :- DirectoryScan(buf, w.pos);
      CountSkip(buf, i + 1, w.pos);
      CountCons(buf, i);
      Success([w.app] + rest)
  }

  /** Dropping a prefix of a suffix never increases the number of template bytes it holds. */
  lemma {:induction false} CountSkip(buf: seq<byte>, i: nat, j: nat)
    requires i <= j <= |buf|
    ensures Count(buf[j..], ApplicationTemplate) <= Count(buf[i..], ApplicationTemplate)
    decreases j - i
  {
    if i < j {
      assert buf[i..][1..] == buf[i + 1..];
      CountSkip(buf, i + 1, j);
    }
  }

  lemma CountCons(buf: seq<byte>, i: nat)
    requires i < |buf| && buf[i] == ApplicationTemplate
    ensures Count(buf[i..], ApplicationTemplate) == 1 + Count(buf[i + 1..], ApplicationTemplate)
  {
    assert buf[i..][1..] == buf[i + 1..];
  }

  /**
    `getAll` after `SELECT PPSE`: a failed exchange gives the empty list; otherwise the RAW
    receive buffer `abtRx[0..szRx)` is scanned, reader status byte and status word included.
  */
  function GetAll(szRx: int, rx: seq<byte>): (r: Result<seq<Application>>)
    requires szRx <= |rx|
    ensures ExecuteCommand(szRx, rx) == [] ==> r == Success([])
    ensures r.Success? && ExecuteCommand(szRx, rx) != [] ==>
              |r.value| <= Count(rx[..szRx], ApplicationTemplate)
  {
    if ExecuteCommand(szRx, rx) == [] then Success([])
    else DirectoryScan(rx[..szRx], 0)
  }

  // ---------------------------------------------------------------------------------------
  // Corrected: each template's fields walked as tag, length, value within the template
  // ---------------------------------------------------------------------------------------

  /**
    The fields of one template region `[p, end)`: a tag byte, a length byte and that many value
    bytes, none of them allowed to cross `end`. Unknown tags are stepped over whole.
  */
  function TemplateFields(buf: seq<byte>, p: nat, end: nat, app: Application): (r: Result<Application>)
    requires end <= |buf|
    decreases end - p
  {
    if p >= end then Success(app)
    else if p + 1 >= end then Failure(Truncated)
    else
      var len := buf[p + 1] as nat;
      if p + 2 + len > end then Failure(Truncated)
      else
        var value := buf[p + 2..p + 2 + len];
        var app' :-
          if buf[p] == AidTag then
            (if len != 7 then Failure(InvalidAid(len)) else Success(app.(aid := Some(value))))
          else if buf[p] == PriorityTag then
            (if len == 0 then Failure(Truncated) else Success(app.(priority := Some(value[0]))))
          else if buf[p] == LabelTag then Success(app.(name := Some(value)))
          else Success(app);
        TemplateFields(buf, p + 2 + len, end, app')
  }

  /**
    The directory scan with the intended template bounds: a byte 0x61 opens a template whose
    length byte delimits its fields, and the scan resumes right after the template.
  */
  function DirectoryScanFixed(buf: seq<byte>, i: nat): (r: Result<seq<Application>>)
    requires i <= |buf|
    ensures r.Success? ==> |r.value| <= Count(buf[i..], ApplicationTemplate)
    decreases |buf| - i
  {
    if i == |buf| then Success([])
    else if buf[i] != ApplicationTemplate then
      var rest :- DirectoryScanFixed(buf, i + 1);
      CountSkip(buf, i, i + 1);
      Success(rest)
    else if i + 1 == |buf| then Failure(Truncated)
    else
      var end := i + 2 + buf[i + 1] as nat;
      if end > |buf| then Failure(Truncated)
      else
        var app :- TemplateFields(buf, i + 2, end, Unset);
        var rest :- DirectoryScanFixed(buf, end);
        CountSkip(buf, i + 1, end);
        CountCons(buf, i);
        Success([app] + rest)
  }

  /** `getAll` with the corrected scan. */
  function GetAllFixed(szRx: int, rx: seq<byte>): (r: Result<seq<Application>>)
    requires szRx <= |rx|
    ensures ExecuteCommand(szRx, rx) == [] ==> r == Success([])
    ensures r.Success? && ExecuteCommand(szRx, rx) != [] ==>
              |r.value| <= Count(rx[..szRx], ApplicationTemplate)
  {
    if ExecuteCommand(szRx, rx) == [] then Success([])
    else DirectoryScanFixed(rx[..szRx], 0)
  }
}
