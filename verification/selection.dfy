/** `selectByPriority` (applicationhelper.cc:105-139): choosing an entry and laying out SELECT. */
module Selection {
  import opened Bytes
  import opened Directory

  /**
    The first entry, in list order, whose priority indicator equals `priority`. Where the
    source falls back to a default-constructed entry, the model reports `NoApplication`.
  */
  function ChooseByPriority(apps: seq<Application>, priority: byte): (r: Result<Application>)
    ensures r.Success? <==> exists k :: 0 <= k < |apps| && apps[k].priority == Some(priority)
    ensures r.Failure? ==> r.error == NoApplication(priority)
    ensures r.Success? ==>
              exists k :: 0 <= k < |apps| && apps[k] == r.value && apps[k].priority == Some(priority)
                          && forall j :: 0 <= j < k ==> apps[j].priority != Some(priority)
  {
    if apps == [] then Failure(NoApplication(priority))
    else if apps[0].priority == Some(priority) then Success(apps[0])
    else
      var r := ChooseByPriority(apps[1..], priority);
      if r.Success? then
        ghost var k :| 0 <= k < |apps| - 1 && apps[1..][k] == r.value
                       && apps[1..][k].priority == Some(priority)
                       && forall j :: 0 <= j < k ==> apps[1..][j].priority != Some(priority);
        assert apps[k + 1] == r.value;
        assert forall j :: 1 <= j < k + 1 ==> apps[j] == apps[1..][j - 1];
        r
      else
        assert forall k :: 1 <= k < |apps| ==> apps[k] == apps[1..][k - 1];
        r
  }

  /**
    The SELECT-by-name command: the header, the identifier length 7, the seven identifier
    bytes and the zero Le that `bzero` leaves at the end. The command's size is kept in a
    single byte (applicationhelper.cc:119), so header plus 9 bytes must stay below 256.
  */
  function SelectCommand(header: seq<byte>, aid: Aid): (cmd: seq<byte>)
    requires |header| + 9 <= 255
    ensures |cmd| == |header| + 9
    ensures cmd[..|header|] == header && cmd[|cmd| - 1] == 0x00
  {
    header + [7] + aid + [0x00]
  }

  /** The identifier a SELECT command carries: Lc bytes after the header's Lc byte. */
  function SelectedAid(cmd: seq<byte>, headerLength: nat): Result<seq<byte>>
  {
    var lc :- At(cmd, headerLength);
    Take(cmd, headerLength + 1, lc as nat)
  }

  /** Reading Lc and the data field back out of a SELECT command gives the identifier. */
  lemma SelectCommandRoundTrip(header: seq<byte>, aid: Aid)
    requires |header| + 9 <= 255
    ensures SelectedAid(SelectCommand(header, aid), |header|) == Success(aid)
  {
    var cmd := SelectCommand(header, aid);
    assert cmd[|header|] == 7;
    assert cmd[|header| + 1..|header| + 8] == aid;
  }

  /** Entry `k` is the first, in list order, whose priority indicator equals `priority`. */
  predicate FirstWithPriority(apps: seq<Application>, priority: byte, k: int)
  {
    0 <= k < |apps| && apps[k].priority == Some(priority)
    && forall j :: 0 <= j < k ==> apps[j].priority != Some(priority)
  }

  /**
    `selectByPriority` up to the transmission: choose the first entry with the requested
    priority and build its SELECT command. Fails with `NoApplication` exactly when no entry
    has that priority, with `MissingAid` exactly when the chosen entry never received one,
    and otherwise always builds the command.
  */
  function SelectByPriority(apps: seq<Application>, priority: byte, header: seq<byte>): (r: Result<seq<byte>>)
    requires |header| + 9 <= 255
    ensures r == Failure(NoApplication(priority)) <==>
              forall k :: 0 <= k < |apps| ==> apps[k].priority != Some(priority)
    ensures r == Failure(MissingAid) <==>
              exists k :: FirstWithPriority(apps, priority, k) && apps[k].aid.None?
    ensures r.Success? || r == Failure(MissingAid) || r == Failure(NoApplication(priority))
    ensures r.Success? ==>
              exists k :: 0 <= k < |apps| && apps[k].priority == Some(priority)
                          && (forall j :: 0 <= j < k ==> apps[j].priority != Some(priority))
                          && apps[k].aid.Some? && r.value == SelectCommand(header, apps[k].aid.value)
                          && SelectedAid(r.value, |header|) == Success(apps[k].aid.value)
  {
    var app :- ChooseByPriority(apps, priority);
    if app.aid.None? then Failure(MissingAid)
    else
      SelectCommandRoundTrip(header, app.aid.value);
      Success(SelectCommand(header, app.aid.value))
  }
}
