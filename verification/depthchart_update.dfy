/** The depth-chart update action: assigns a player to a (team, position,
    depth level) slot named by position and depth-level names, and refuses a
    slot that is already filled. */
module DepthChartUpdate {
  import opened Common
  import opened Db

  /** The four fields of a valid submission, all non-empty. */
  datatype Fields = Fields(playerId: string, position: string, depthLevel: string, teamId: string)

  /** `json({status: 'error', submission}, {status: 400})` or `json({})`. */
  datatype Response = BadRequest | Ok

  /** The update schema: four required, non-empty string fields. */
  function ParseForm(form: FormData): (r: Option<Fields>)
    ensures r.Some? <==>
      (forall k :: k in {"playerId", "position", "depthLevel", "teamId"} ==> k in form && form[k] != "")
    ensures r.Some? ==>
      && r.value.playerId == form["playerId"] && r.value.position == form["position"]
      && r.value.depthLevel == form["depthLevel"] && r.value.teamId == form["teamId"]
  {
    var playerId := ConformField(form, "playerId");
    var position := ConformField(form, "position");
    var depthLevel := ConformField(form, "depthLevel");
    var teamId := ConformField(form, "teamId");
    if playerId.Some? && position.Some? && depthLevel.Some? && teamId.Some? then
      Some(Fields(playerId.value, position.value, depthLevel.value, teamId.value))
    else
      None
  }

  /** Some row of the table has this name. */
  predicate NameExists(rows: seq<NamedRow>, name: string) {
    exists i :: 0 <= i < |rows| && rows[i].name == name
  }

  /** The row with this id has this name (the join `{ position: { name } }`). */
  predicate HasName(rows: seq<NamedRow>, id: string, name: string) {
    exists i :: 0 <= i < |rows| && rows[i].id == id && rows[i].name == name
  }

  /** `findFirst({ where: { name }, select: { id } })`: the id of the first
      row with that name. */
  function FirstIdByName(rows: seq<NamedRow>, name: string): (r: Option<string>)
    ensures r.Some? <==> NameExists(rows, name)
    ensures r.Some? ==> exists i :: 0 <= i < |rows| && rows[i].name == name && rows[i].id == r.value
                                    && forall j :: 0 <= j < i ==> rows[j].name != name
  {
    if |rows| == 0 then None
    else if rows[0].name == name then Some(rows[0].id)
    else
      var rest := FirstIdByName(rows[1..], name);
      if rest.Some? then
        ghost var i :| 0 <= i < |rows[1..]| && rows[1..][i].name == name && rows[1..][i].id == rest.value
                       && forall j :: 0 <= j < i ==> rows[1..][j].name != name;
        assert rows[i + 1].name == name && rows[i + 1].id == rest.value;
        rest
      else
        rest
  }

  /** The existence check: some row of `teamId` fills the slot whose position
      and depth level carry these names. */
  predicate SlotTaken(entries: seq<DepthChartRow>, positions: seq<NamedRow>, depthLevels: seq<NamedRow>,
                      teamId: string, position: string, depthLevel: string)
  {
    exists i :: 0 <= i < |entries| && entries[i].teamId == teamId
                && HasName(positions, entries[i].positionId, position)
                && HasName(depthLevels, entries[i].depthLevelId, depthLevel)
  }

  /** The row the action inserts, or None when it answers 400. */
  function Planned(positions: seq<NamedRow>, depthLevels: seq<NamedRow>, entries: seq<DepthChartRow>, form: FormData)
    : (r: Option<DepthChartRow>)
    ensures r.Some? <==>
      && ParseForm(form).Some?
      && NameExists(positions, ParseForm(form).value.position)
      && NameExists(depthLevels, ParseForm(form).value.depthLevel)
      && !SlotTaken(entries, positions, depthLevels, ParseForm(form).value.teamId,
                    ParseForm(form).value.position, ParseForm(form).value.depthLevel)
    ensures r.Some? ==>
      && r.value.playerId == form["playerId"] && r.value.teamId == form["teamId"]
      && HasName(positions, r.value.positionId, form["position"])
      && HasName(depthLevels, r.value.depthLevelId, form["depthLevel"])
    ensures r.Some? ==>
      && r.value.positionId == FirstIdByName(positions, form["position"]).value
      && r.value.depthLevelId == FirstIdByName(depthLevels, form["depthLevel"]).value
  {
    match ParseForm(form)
    case None => None
    case Some(f) =>
      var positionId := FirstIdByName(positions, f.position);
      var depthLevelId := FirstIdByName(depthLevels, f.depthLevel);
      if positionId.None? || depthLevelId.None? then None
      else if SlotTaken(entries, positions, depthLevels, f.teamId, f.position, f.depthLevel) then None
      else Some(DepthChartRow(depthLevelId.value, f.playerId, positionId.value, f.teamId))
  }

  /** The action: validate, look up the slot and the two ids, refuse a missing
      name or a filled slot, otherwise insert one row. */
  method Action(db: Database, form: FormData) returns (r: Response)
    modifies db`depthCharts
    ensures r == if Planned(db.positions, db.depthLevels, old(db.depthCharts), form).Some? then Ok else BadRequest
    ensures db.depthCharts ==
      match Planned(db.positions, db.depthLevels, old(db.depthCharts), form)
      case Some(row) => old(db.depthCharts) + [row]
      case None => old(db.depthCharts)
    ensures SlotsUnique(old(db.depthCharts)) ==> SlotsUnique(db.depthCharts)
    ensures old(db.Valid()) ==> db.Valid()
  {
    var submission := ParseForm(form);
    if submission.None? {
      return BadRequest;
    }
    var f := submission.value;
    var depthChartExists := SlotTaken(db.depthCharts, db.positions, db.depthLevels, f.teamId, f.position, f.depthLevel);
    var positionId := FirstIdByName(db.positions, f.position);
    var depthLevelId := FirstIdByName(db.depthLevels, f.depthLevel);
    if positionId.None? {
      return BadRequest;
    }
    if depthLevelId.None? {
      return BadRequest;
    }
    if depthChartExists {
      return BadRequest;
    }
    var row := DepthChartRow(depthLevelId.value, f.playerId, positionId.value, f.teamId);
    InsertKeepsSlotsUnique(db.positions, db.depthLevels, db.depthCharts, form);
    db.depthCharts := db.depthCharts + [row];
    r := Ok;
  }

  /** A submission missing any of the four fields is refused. */
  lemma MissingFieldRejected(positions: seq<NamedRow>, depthLevels: seq<NamedRow>, entries: seq<DepthChartRow>,
                             form: FormData, key: string)
    requires key in {"playerId", "position", "depthLevel", "teamId"}
    requires key !in form || form[key] == ""
    ensures Planned(positions, depthLevels, entries, form) == None
  {
  }

  /** An unknown position name or depth-level name is refused. */
  lemma UnknownNameRejected(positions: seq<NamedRow>, depthLevels: seq<NamedRow>, entries: seq<DepthChartRow>, form: FormData)
    requires ParseForm(form).Some?
    requires !NameExists(positions, form["position"]) || !NameExists(depthLevels, form["depthLevel"])
    ensures Planned(positions, depthLevels, entries, form) == None
  {
  }

  /** Inserting the planned row keeps at most one row per slot. */
  lemma InsertKeepsSlotsUnique(positions: seq<NamedRow>, depthLevels: seq<NamedRow>, entries: seq<DepthChartRow>, form: FormData)
    requires Planned(positions, depthLevels, entries, form).Some?
    ensures SlotsUnique(entries) ==> SlotsUnique(entries + [Planned(positions, depthLevels, entries, form).value])
  {
    var row := Planned(positions, depthLevels, entries, form).value;
    var all := entries + [row];
    forall i | 0 <= i < |entries|
      ensures Slot(all[i]) != Slot(all[|entries|])
    {
    }
  }

  /** Once a submission has succeeded, submitting it again is refused: a
      filled slot is never overwritten. */
  lemma {:induction false} ResubmitRejected(positions: seq<NamedRow>, depthLevels: seq<NamedRow>, entries: seq<DepthChartRow>, form: FormData)
    requires Planned(positions, depthLevels, entries, form).Some?
    ensures Planned(positions, depthLevels, entries + [Planned(positions, depthLevels, entries, form).value], form) == None
  {
    var row := Planned(positions, depthLevels, entries, form).value;
    var f := ParseForm(form).value;
    var after := entries + [row];
    assert after[|entries|] == row;
    assert SlotTaken(after, positions, depthLevels, f.teamId, f.position, f.depthLevel);
  }

  /** The player id is stored but never checked: two submissions that differ
      only in a (non-empty) player id are accepted or refused alike, so one
      player may fill several slots. */
  lemma PlayerIdNotChecked(positions: seq<NamedRow>, depthLevels: seq<NamedRow>, entries: seq<DepthChartRow>,
                           form: FormData, otherPlayer: string)
    requires otherPlayer != ""
    requires "playerId" in form && form["playerId"] != ""
    ensures Planned(positions, depthLevels, entries, form).Some?
        <==> Planned(positions, depthLevels, entries, form["playerId" := otherPlayer]).Some?
  {
    var other := form["playerId" := otherPlayer];
    assert forall k :: k != "playerId" ==> (k in form <==> k in other);
    assert forall k :: k != "playerId" && k in form ==> form[k] == other[k];
  }
}
