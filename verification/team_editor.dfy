/** The team editor's action: validate a team form and create or overwrite
    one team row (an upsert keyed by the submitted id). */
module TeamEditor {
  import opened Common
  import opened Db

  const NameMinLength: nat := 3
  const NameMaxLength: nat := 20
  const CuidLength: nat := 30
  /** The key looked up when no id was submitted. */
  const NewTeamKey := "__new_team__"

  /** A submission that passed `TeamEditorSchema`. */
  datatype Submission = Submission(id: Option<string>, team: Team)

  datatype Response =
    | RedirectToLogin              // no signed-in user
    | Idle                         // the form was not submitted
    | Error(issues: seq<Issue>)    // status 400 with every issue found
    | Saved(teamId: string)        // the id of the created or updated team

  datatype Outcome = Outcome(response: Response, teams: map<string, Team>)

  /** An id field: exactly `CuidLength` UTF-16 code units. */
  predicate CuidField(form: FormData, key: string) {
    key in form && Utf16Length(form[key]) == CuidLength
  }

  /** The fields of the team form hold a valid team. */
  predicate ValidTeamForm(form: FormData) {
    && "name" in form && NameMinLength <= Utf16Length(form["name"]) <= NameMaxLength
    && CuidField(form, "associationId") && CuidField(form, "levelId") && CuidField(form, "caliberId")
    && CuidField(form, "coachId") && CuidField(form, "seasonId")
  }

  /** Every issue of `TeamEditorSchema`, field by field in schema order; the
      optional id never raises one. */
  function Issues(form: FormData): (r: seq<Issue>)
    ensures r == [] <==> ValidTeamForm(form)
    ensures forall i :: 0 <= i < |r| ==> !r[i].Custom? && r[i].path != "id"
  {
    StringFieldIssues(form, "name", NameMinLength, NameMaxLength)
    + StringFieldIssues(form, "associationId", CuidLength, CuidLength)
    + StringFieldIssues(form, "levelId", CuidLength, CuidLength)
    + StringFieldIssues(form, "caliberId", CuidLength, CuidLength)
    + StringFieldIssues(form, "coachId", CuidLength, CuidLength)
    + StringFieldIssues(form, "seasonId", CuidLength, CuidLength)
  }

  /** The parsed submission of a valid form: the six columns and the id, if
      one was sent non-empty. */
  function Parse(form: FormData): (r: Submission)
    requires ValidTeamForm(form)
    ensures r.id == ConformField(form, "id")
    ensures r.team.name == form["name"] && r.team.associationId == form["associationId"]
    ensures r.team.levelId == form["levelId"] && r.team.caliberId == form["caliberId"]
    ensures r.team.coachId == form["coachId"] && r.team.seasonId == form["seasonId"]
  {
    Submission(ConformField(form, "id"),
      Team(form["name"], form["associationId"], form["levelId"], form["caliberId"], form["coachId"], form["seasonId"]))
  }

  /** The key the upsert looks up. */
  function UpsertKey(id: Option<string>): (r: string)
    ensures id.Some? ==> r == id.value
    ensures id.None? ==> r == NewTeamKey
  {
    match id
    case Some(teamId) => teamId
    case None => NewTeamKey
  }

  /** The upsert: overwrite the row under the key when there is one,
      otherwise create a row under the id the database generates. */
  function Upsert(teams: map<string, Team>, key: string, team: Team, newId: string): (r: Outcome)
    requires newId !in teams
    ensures key in teams ==> r == Outcome(Saved(key), teams[key := team])
    ensures key !in teams ==> r == Outcome(Saved(newId), teams[newId := team])
  {
    if key in teams then Outcome(Saved(key), teams[key := team])
    else Outcome(Saved(newId), teams[newId := team])
  }

  /** The action on a teams table. */
  function Step(teams: map<string, Team>, userId: Option<string>, form: FormData, submitted: bool, newId: string): (r: Outcome)
    requires newId !in teams
    ensures !r.response.Saved? ==> r.teams == teams
    ensures r.response.Saved? ==> r.teams.Keys == teams.Keys + {r.response.teamId}
  {
    if userId.None? then Outcome(RedirectToLogin, teams)
    else if !submitted then Outcome(Idle, teams)
    else if Issues(form) != [] then Outcome(Error(Issues(form)), teams)
    else
      var submission := Parse(form);
      Upsert(teams, UpsertKey(submission.id), submission.team, newId)
  }

  /** The route action on the database. `userId` is the signed-in user, if
      any. */
  method Action(db: Database, userId: Option<string>, form: FormData, submitted: bool, newId: string) returns (r: Response)
    requires newId !in db.teams
    modifies db`teams
    ensures Outcome(r, db.teams) == Step(old(db.teams), userId, form, submitted, newId)
    ensures old(db.Valid()) ==> db.Valid()
  {
    if userId.None? {
      return RedirectToLogin;
    }
    var issues := Issues(form);
    if !submitted {
      return Idle;
    }
    if issues != [] {
      return Error(issues);
    }
    var submission := Parse(form);
    var key := UpsertKey(submission.id);
    if key in db.teams {
      db.teams := db.teams[key := submission.team];
      r := Saved(key);
    } else {
      db.teams := db.teams[newId := submission.team];
      r := Saved(newId);
    }
  }

  /** A form is saved exactly when a user is signed in, the form is submitted,
      the name has 3 to 20 code units and each of the five ids exactly 30. */
  lemma SavedIff(teams: map<string, Team>, userId: Option<string>, form: FormData, submitted: bool, newId: string)
    requires newId !in teams
    ensures Step(teams, userId, form, submitted, newId).response.Saved? <==>
      userId.Some? && submitted && ValidTeamForm(form)
  {
  }

  /** Without an id a new team is created from the six fields, under a fresh
      id, as long as no team has the key `__new_team__`. */
  lemma CreateWithoutId(teams: map<string, Team>, userId: string, form: FormData, newId: string)
    requires newId !in teams && NewTeamKey !in teams
    requires ValidTeamForm(form) && ("id" !in form || form["id"] == "")
    ensures Step(teams, Some(userId), form, true, newId) == Outcome(Saved(newId), teams[newId := Parse(form).team])
    ensures |Step(teams, Some(userId), form, true, newId).teams| == |teams| + 1
  {
  }

  /** With the id of an existing team, that team's six columns are
      overwritten and no other team changes. */
  lemma UpdateExisting(teams: map<string, Team>, userId: string, form: FormData, newId: string)
    requires newId !in teams
    requires ValidTeamForm(form) && "id" in form && form["id"] != "" && form["id"] in teams
    ensures var r := Step(teams, Some(userId), form, true, newId);
      && r.response == Saved(form["id"])
      && r.teams.Keys == teams.Keys
      && r.teams[form["id"]] == Parse(form).team
      && forall t :: t in teams && t != form["id"] ==> r.teams[t] == teams[t]
  {
  }

  /** An id that names no team does not become the key: the team is created
      under the id the database generates. */
  lemma UnknownIdCreatesFresh(teams: map<string, Team>, userId: string, form: FormData, newId: string)
    requires newId !in teams
    requires ValidTeamForm(form) && "id" in form && form["id"] != "" && form["id"] !in teams
    ensures Step(teams, Some(userId), form, true, newId) == Outcome(Saved(newId), teams[newId := Parse(form).team])
  {
  }

  /** Resubmitting an update leaves the table as the first submission left
      it. */
  lemma {:induction false} UpdateIdempotent(teams: map<string, Team>, userId: string, form: FormData, newId: string, otherId: string)
    requires newId !in teams
    requires ValidTeamForm(form) && "id" in form && form["id"] != "" && form["id"] in teams
    requires otherId !in Step(teams, Some(userId), form, true, newId).teams
    ensures var once := Step(teams, Some(userId), form, true, newId);
      Step(once.teams, Some(userId), form, true, otherId) == once
  {
    UpdateExisting(teams, userId, form, newId);
    var once := Step(teams, Some(userId), form, true, newId);
    UpdateExisting(once.teams, userId, form, otherId);
    assert once.teams[form["id"] := Parse(form).team] == once.teams;
  }

  /** Resubmitting a create is not idempotent: each submission without an id
      adds a team. */
  lemma {:induction false} CreateTwiceAddsTwo(teams: map<string, Team>, userId: string, form: FormData, newId: string, otherId: string)
    requires newId !in teams && NewTeamKey !in teams && otherId != newId && otherId !in teams && NewTeamKey != newId
    requires ValidTeamForm(form) && "id" !in form
    ensures var once := Step(teams, Some(userId), form, true, newId);
      |Step(once.teams, Some(userId), form, true, otherId).teams| == |teams| + 2
  {
    CreateWithoutId(teams, userId, form, newId);
    var once := Step(teams, Some(userId), form, true, newId);
    assert otherId !in once.teams;
    CreateWithoutId(once.teams, userId, form, otherId);
  }

  /** Without a signed-in user nothing is parsed or written. */
  lemma AnonymousRedirected(teams: map<string, Team>, form: FormData, submitted: bool, newId: string)
    requires newId !in teams
    ensures Step(teams, None, form, submitted, newId) == Outcome(RedirectToLogin, teams)
  {
  }
}
