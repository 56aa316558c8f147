/** The user-teams loader: the teams a coach coaches or supports, as
    select-box items, and the team selected by default. */
module UserTeams {
  import opened Common

  /** A team as the loader selects it, with its caliber's and level's names. */
  datatype TeamSummary = TeamSummary(id: string, caliberName: string, levelName: string, name: string)

  /** The coach profile's two team lists. */
  datatype CoachTeams = CoachTeams(coachedTeams: seq<TeamSummary>, supportedTeams: seq<TeamSummary>)

  datatype Item = Item(id: string, caption: string)

  datatype Response =
    | RedirectToLogin
    | Data(items: seq<Item>, defaultTeam: Option<string>)

  /** The teams listed: none without a coach profile, else coached teams then
      supported teams, in order and without removing repeats. */
  function Teams(coachProfile: Option<CoachTeams>): (r: seq<TeamSummary>)
    ensures coachProfile.None? ==> r == []
    ensures coachProfile.Some? ==>
      && |r| == |coachProfile.value.coachedTeams| + |coachProfile.value.supportedTeams|
      && r[..|coachProfile.value.coachedTeams|] == coachProfile.value.coachedTeams
      && r[|coachProfile.value.coachedTeams|..] == coachProfile.value.supportedTeams
  {
    match coachProfile
    case None => []
    case Some(profile) => profile.coachedTeams + profile.supportedTeams
  }

  /** A team's label: level name, caliber name and team name, separated by
      single spaces. */
  function Label(team: TeamSummary): (r: string)
    ensures |r| == |team.levelName| + |team.caliberName| + |team.name| + 2
    ensures r[..|team.levelName|] == team.levelName && r[|team.levelName|] == ' '
    ensures r[|team.levelName| + 1..|team.levelName| + 1 + |team.caliberName|] == team.caliberName
    ensures r[|team.levelName| + 1 + |team.caliberName|] == ' '
    ensures r[|team.levelName| + |team.caliberName| + 2..] == team.name
  {
    team.levelName + " " + team.caliberName + " " + team.name
  }

  function Items(teams: seq<TeamSummary>): (r: seq<Item>)
    ensures |r| == |teams|
    ensures forall i :: 0 <= i < |r| ==> r[i] == Item(teams[i].id, Label(teams[i]))
  {
    seq(|teams|, i requires 0 <= i < |teams| => Item(teams[i].id, Label(teams[i])))
  }

  /** The default team's predicate builds an object, which is always truthy. */
  predicate DefaultTeamPredicate(team: TeamSummary) {
    true
  }

  /** `find(accept)?.id`: the id of the first team `accept` holds for. */
  function FindId(teams: seq<TeamSummary>, accept: TeamSummary -> bool): (r: Option<string>)
    ensures r.Some? ==> exists i :: 0 <= i < |teams| && accept(teams[i]) && teams[i].id == r.value
                                    && forall j :: 0 <= j < i ==> !accept(teams[j])
    ensures r.None? ==> forall i :: 0 <= i < |teams| ==> !accept(teams[i])
  {
    if |teams| == 0 then None
    else if accept(teams[0]) then Some(teams[0].id)
    else
      var rest := FindId(teams[1..], accept);
      if rest.Some? then
        ghost var i :| 0 <= i < |teams[1..]| && accept(teams[1..][i]) && teams[1..][i].id == rest.value
                       && forall j :: 0 <= j < i ==> !accept(teams[1..][j]);
        assert accept(teams[i + 1]) && teams[i + 1].id == rest.value;
        rest
      else
        rest
  }

  /** The loader once the user's coach profile, if any, is fetched. */
  function Loader(userId: Option<string>, coachProfile: Option<CoachTeams>): (r: Response)
    ensures userId.None? <==> r.RedirectToLogin?
    ensures r.Data? ==> r.items == Items(Teams(coachProfile)) && r.defaultTeam == FindId(Teams(coachProfile), DefaultTeamPredicate)
  {
    if userId.None? then RedirectToLogin
    else
      var teams := Teams(coachProfile);
      Data(Items(teams), FindId(teams, DefaultTeamPredicate))
  }

  /** The default team is the first team listed, and there is none only when
      the list is empty. */
  lemma {:induction false} DefaultIsFirst(teams: seq<TeamSummary>)
    ensures FindId(teams, DefaultTeamPredicate) == if |teams| == 0 then None else Some(teams[0].id)
  {
  }

  /** Without a coach profile a signed-in user gets no items and no default. */
  lemma NoProfileNoTeams(userId: string)
    ensures Loader(Some(userId), None) == Data([], None)
  {
  }

  /** With a coach profile the items list coached teams, then supported
      teams, and the default is the first coached team if there is one. */
  lemma CoachedFirst(userId: string, profile: CoachTeams)
    requires |profile.coachedTeams| > 0
    ensures var r := Loader(Some(userId), Some(profile));
      && |r.items| == |profile.coachedTeams| + |profile.supportedTeams|
      && (forall i :: 0 <= i < |profile.coachedTeams| ==> r.items[i].id == profile.coachedTeams[i].id)
      && (forall j :: 0 <= j < |profile.supportedTeams| ==>
            r.items[|profile.coachedTeams| + j].id == profile.supportedTeams[j].id)
      && r.defaultTeam == Some(profile.coachedTeams[0].id)
  {
    var teams := Teams(Some(profile));
    DefaultIsFirst(teams);
    assert teams[0] == profile.coachedTeams[0];
    forall j | 0 <= j < |profile.supportedTeams|
      ensures teams[|profile.coachedTeams| + j] == profile.supportedTeams[j]
    {
    }
  }
}
