/** The admin calibers page's action: delete a caliber by id, unless no
    caliber has that id or some team still belongs to it. */
module AdminCalibers {
  import opened Common
  import opened Db

  const ReferencedMessage := "Some teams belong to this caliber; caliber cannot be deleted."

  datatype Response =
    | InvalidCaliberId              // the thrown 400: no caliberId field
    | CaliberNotFound               // the thrown 404
    | Refused(errors: seq<string>)  // status 400: teams still belong to it
    | Deleted(errors: seq<string>)  // `{ status: 'success', errors: [] }`

  /** Some team belongs to the caliber. */
  predicate Referenced(teams: map<string, Team>, caliberId: string) {
    exists t :: t in teams && teams[t].caliberId == caliberId
  }

  /** Every team belongs to a stored caliber. */
  ghost predicate TeamsHaveCalibers(calibers: map<string, string>, teams: map<string, Team>) {
    forall t :: t in teams ==> teams[t].caliberId in calibers
  }

  /** What the action answers, given the calibers and teams tables. */
  function Decide(calibers: map<string, string>, teams: map<string, Team>, form: FormData): (r: Response)
    ensures r.Deleted? <==> "caliberId" in form && form["caliberId"] in calibers && !Referenced(teams, form["caliberId"])
    ensures r.Deleted? ==> r.errors == []
    ensures r.Refused? ==> r.errors == [ReferencedMessage]
  {
    match RawField(form, "caliberId")
    case None => InvalidCaliberId
    case Some(caliberId) =>
      if caliberId !in calibers then CaliberNotFound
      else if Referenced(teams, caliberId) then Refused([ReferencedMessage])
      else Deleted([])
  }

  /** The calibers table after the action: only a `Deleted` answer removes a row. */
  function After(calibers: map<string, string>, teams: map<string, Team>, form: FormData): (r: map<string, string>)
    ensures Decide(calibers, teams, form).Deleted? ==> r == calibers - {form["caliberId"]} && |r| == |calibers| - 1
    ensures !Decide(calibers, teams, form).Deleted? ==> r == calibers
  {
    if Decide(calibers, teams, form).Deleted? then calibers - {form["caliberId"]} else calibers
  }

  /** The action on the database: look the caliber up with its teams, refuse
      a missing or referenced caliber, otherwise delete it. */
  method Action(db: Database, form: FormData) returns (r: Response)
    modifies db`calibers
    ensures r == Decide(old(db.calibers), db.teams, form)
    ensures db.calibers == After(old(db.calibers), db.teams, form)
    ensures TeamsHaveCalibers(old(db.calibers), db.teams) ==> TeamsHaveCalibers(db.calibers, db.teams)
    ensures NamesDistinct(old(db.calibers)) ==> NamesDistinct(db.calibers)
    ensures old(db.Valid()) ==> db.Valid()
  {
    var caliberId := RawField(form, "caliberId");
    if caliberId.None? {
      return InvalidCaliberId;
    }
    var id := caliberId.value;
    if id !in db.calibers {
      return CaliberNotFound;
    }
    var teamsOfCaliber := Referenced(db.teams, id);
    if teamsOfCaliber {
      return Refused([ReferencedMessage]);
    }
    DeleteKeepsTeamsHaveCalibers(db.calibers, db.teams, form);
    db.calibers := db.calibers - {id};
    r := Deleted([]);
  }

  /** A caliber that some team belongs to is never deleted: the answer is the
      400 with the explanatory error and the table is unchanged. */
  lemma ReferencedNotDeleted(calibers: map<string, string>, teams: map<string, Team>, form: FormData)
    requires "caliberId" in form && form["caliberId"] in calibers && Referenced(teams, form["caliberId"])
    ensures Decide(calibers, teams, form) == Refused([ReferencedMessage])
    ensures After(calibers, teams, form) == calibers
  {
  }

  /** A form without a caliber id is the thrown 400; an id no caliber has is
      the thrown 404. */
  lemma MissingCases(calibers: map<string, string>, teams: map<string, Team>, form: FormData)
    ensures "caliberId" !in form ==> Decide(calibers, teams, form) == InvalidCaliberId
    ensures "caliberId" in form && form["caliberId"] !in calibers ==> Decide(calibers, teams, form) == CaliberNotFound
  {
  }

  /** Deleting keeps every team attached to a stored caliber, because a
      caliber with teams is never the one deleted. */
  lemma {:induction false} DeleteKeepsTeamsHaveCalibers(calibers: map<string, string>, teams: map<string, Team>, form: FormData)
    ensures TeamsHaveCalibers(calibers, teams) ==> TeamsHaveCalibers(After(calibers, teams, form), teams)
  {
    if TeamsHaveCalibers(calibers, teams) && Decide(calibers, teams, form).Deleted? {
      var id := form["caliberId"];
      forall t | t in teams
        ensures teams[t].caliberId in calibers - {id}
      {
        assert !(teams[t].caliberId == id);
      }
    }
  }
}
