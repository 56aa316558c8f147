/** The player editor's action: on `update-status`, set one player's status
    and answer with every status. */
module PlayerEditor {
  import opened Common
  import opened Db

  const UpdateStatus := "update-status"

  datatype Response =
    | NoResponse                          // an actionId the action does not handle
    | Idle                                // the form was not submitted
    | Error(issues: seq<Issue>)           // status 400
    | RecordNotFound                      // the database refuses to update a missing row
    | PlayerStatus(statuses: seq<NamedRow>)

  datatype Outcome = Outcome(response: Response, players: map<string, PlayerProfile>)

  /** `UpdatePlayerStatusSchema`: both fields required (an empty value counts
      as missing); every missing field is reported. */
  function Issues(form: FormData): (r: seq<Issue>)
    ensures r == [] <==> "statusId" in form && form["statusId"] != "" && "playerId" in form && form["playerId"] != ""
    ensures forall i :: 0 <= i < |r| ==> r[i].Required?
  {
    (if ConformField(form, "statusId").None? then [Required("statusId")] else [])
    + (if ConformField(form, "playerId").None? then [Required("playerId")] else [])
  }

  /** The action on the players table, with the status table it lists. */
  function Step(players: map<string, PlayerProfile>, statuses: seq<NamedRow>, form: FormData, submitted: bool): (r: Outcome)
    ensures !r.response.PlayerStatus? ==> r.players == players
    ensures r.response.PlayerStatus? ==> r.players.Keys == players.Keys && r.response.statuses == statuses
  {
    if RawField(form, "actionId") != Some(UpdateStatus) then Outcome(NoResponse, players)
    else if !submitted then Outcome(Idle, players)
    else if Issues(form) != [] then Outcome(Error(Issues(form)), players)
    else if form["playerId"] !in players then Outcome(RecordNotFound, players)
    else
      var playerId := form["playerId"];
      Outcome(PlayerStatus(statuses), players[playerId := players[playerId].(statusId := form["statusId"])])
  }

  /** The route action on the database. */
  method Action(db: Database, form: FormData, submitted: bool) returns (r: Response)
    modifies db`players
    ensures Outcome(r, db.players) == Step(old(db.players), db.statuses, form, submitted)
    ensures old(db.Valid()) ==> db.Valid()
  {
    var actionId := RawField(form, "actionId");
    if actionId != Some(UpdateStatus) {
      return NoResponse;
    }
    var issues := Issues(form);
    if !submitted {
      return Idle;
    }
    if issues != [] {
      return Error(issues);
    }
    var playerId := form["playerId"];
    if playerId !in db.players {
      return RecordNotFound;
    }
    db.players := db.players[playerId := db.players[playerId].(statusId := form["statusId"])];
    r := PlayerStatus(db.statuses);
  }

  /** An update succeeds exactly when the actionId is `update-status`, the
      form is submitted, both fields are non-empty and the player exists. */
  lemma UpdateSucceedsIff(players: map<string, PlayerProfile>, statuses: seq<NamedRow>, form: FormData, submitted: bool)
    ensures Step(players, statuses, form, submitted).response.PlayerStatus? <==>
      && RawField(form, "actionId") == Some(UpdateStatus) && submitted
      && "statusId" in form && form["statusId"] != "" && "playerId" in form && form["playerId"] != ""
      && form["playerId"] in players
  {
  }

  /** On success only the named player's status changes: its other columns
      and every other player are as before. */
  lemma OnlyStatusChanges(players: map<string, PlayerProfile>, statuses: seq<NamedRow>, form: FormData, submitted: bool)
    requires Step(players, statuses, form, submitted).response.PlayerStatus?
    ensures var after := Step(players, statuses, form, submitted).players;
      && after[form["playerId"]].statusId == form["statusId"]
      && after[form["playerId"]].firstName == players[form["playerId"]].firstName
      && after[form["playerId"]].lastName == players[form["playerId"]].lastName
      && after[form["playerId"]].jerseyNumber == players[form["playerId"]].jerseyNumber
      && forall p :: p in players && p != form["playerId"] ==> after[p] == players[p]
  {
  }

  /** Any other actionId, or none, gets no response and changes nothing. */
  lemma OtherActionIgnored(players: map<string, PlayerProfile>, statuses: seq<NamedRow>, form: FormData, submitted: bool)
    requires RawField(form, "actionId") != Some(UpdateStatus)
    ensures Step(players, statuses, form, submitted) == Outcome(NoResponse, players)
  {
  }

  /** Setting a status twice leaves what setting it once left. */
  lemma {:induction false} UpdateIdempotent(players: map<string, PlayerProfile>, statuses: seq<NamedRow>, form: FormData)
    requires Step(players, statuses, form, true).response.PlayerStatus?
    ensures var once := Step(players, statuses, form, true);
      Step(once.players, statuses, form, true) == once
  {
    var once := Step(players, statuses, form, true);
    var playerId := form["playerId"];
    assert once.players[playerId := once.players[playerId].(statusId := form["statusId"])] == once.players;
  }
}
