/** The home page loader's redirect choice. */
module Home {
  import opened Common
  import Permissions

  datatype Response =
    | Logout                       // signed in but no user row: sign out, back to "/"
    | Redirect(to: string)
    | EmptyBody                    // `json({})`

  /** The loader, given the session's user id (if any) and the users table. An
      empty id is falsy, so it counts as signed out. */
  function Loader(userId: Option<string>, users: map<string, Permissions.User>): (r: Response)
    ensures r.Logout? <==> userId.Some? && userId.value != "" && userId.value !in users
    ensures r == Redirect("/admin") <==>
      userId.Some? && userId.value != "" && userId.value in users
      && users[userId.value].coachProfile.None? && users[userId.value].adminProfile.Some?
    ensures r.Redirect? && r.to != "/admin" ==>
      userId.Some? && userId.value != "" && userId.value in users && users[userId.value].coachProfile.Some?
      && r.to == "/coach/" + users[userId.value].coachProfile.value.id
  {
    var user := if userId.Some? && userId.value != "" && userId.value in users then Some(users[userId.value]) else None;
    if userId.Some? && userId.value != "" && user.None? then Logout
    else if user.Some? && user.value.coachProfile.Some? then Redirect("/coach/" + user.value.coachProfile.value.id)
    else if user.Some? && user.value.adminProfile.Some? then Redirect("/admin")
    else EmptyBody
  }

  /** A coach is sent to their coach page, admin profile or not: the coach
      check comes first. */
  lemma CoachFirst(userId: string, users: map<string, Permissions.User>)
    requires userId != "" && userId in users && users[userId].coachProfile.Some?
    ensures Loader(Some(userId), users) == Redirect("/coach/" + users[userId].coachProfile.value.id)
  {
  }

  /** No redirect happens for a signed-out visitor or for a user with neither
      a coach nor an admin profile (a player, say). */
  lemma EmptyBodyIff(userId: Option<string>, users: map<string, Permissions.User>)
    ensures Loader(userId, users) == EmptyBody <==>
      userId.None? || userId.value == ""
      || (userId.value in users && users[userId.value].coachProfile.None? && users[userId.value].adminProfile.None?)
  {
  }
}
