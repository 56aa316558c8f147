/** The role gates: a request passes a gate when its user's profile of the
    matching kind holds a role with the gate's name. */
module Permissions {
  import opened Common

  datatype Permission = Permission(access: string, action: string, description: string, entity: string, id: string)
  datatype Role = Role(id: string, name: string, permissions: seq<Permission>)
  /** A coach, player or admin profile with its roles. */
  datatype Profile = Profile(id: string, firstName: string, lastName: string, roles: seq<Role>)
  datatype User = User(id: string, email: string, image: Option<string>,
                       coachProfile: Option<Profile>, playerProfile: Option<Profile>, adminProfile: Option<Profile>)

  /** The user record every gate returns. */
  datatype GateUser = GateUser(adminProfile: Option<Profile>, email: string, id: string, image: Option<string>)

  datatype GateResult =
    | RedirectToLogin                 // no signed-in user
    | Forbidden(requiredRole: string) // the thrown 403
    | Authorized(user: GateUser)

  /** The profile holds some role with this name. */
  predicate HasRole(profile: Option<Profile>, roleName: string) {
    profile.Some? && exists i :: 0 <= i < |profile.value.roles| && profile.value.roles[i].name == roleName
  }

  function Selected(user: User): (r: GateUser)
    ensures r.id == user.id && r.email == user.email && r.image == user.image && r.adminProfile == user.adminProfile
  {
    GateUser(user.adminProfile, user.email, user.id, user.image)
  }

  /** `requireCoach`: the signed-in user, provided their coach profile has a
      role named `coach`. */
  function RequireCoach(users: map<string, User>, userId: Option<string>): (r: GateResult)
    ensures r.RedirectToLogin? <==> userId.None?
    ensures r.Authorized? <==> userId.Some? && userId.value in users && HasRole(users[userId.value].coachProfile, "coach")
    ensures r.Authorized? ==> r.user == Selected(users[userId.value])
    ensures r.Forbidden? ==> r.requiredRole == "coach"
  {
    match userId
    case None => RedirectToLogin
    case Some(id) =>
      if id in users && HasRole(users[id].coachProfile, "coach") then Authorized(Selected(users[id]))
      else Forbidden("coach")
  }

  /** `requirePlayer`: the same gate on the player profile and role `player`. */
  function RequirePlayer(users: map<string, User>, userId: Option<string>): (r: GateResult)
    ensures r.RedirectToLogin? <==> userId.None?
    ensures r.Authorized? <==> userId.Some? && userId.value in users && HasRole(users[userId.value].playerProfile, "player")
    ensures r.Authorized? ==> r.user == Selected(users[userId.value])
    ensures r.Forbidden? ==> r.requiredRole == "player"
  {
    match userId
    case None => RedirectToLogin
    case Some(id) =>
      if id in users && HasRole(users[id].playerProfile, "player") then Authorized(Selected(users[id]))
      else Forbidden("player")
  }

  /** `requireAdmin`: the same gate on the admin profile and role `admin`. */
  function RequireAdmin(users: map<string, User>, userId: Option<string>): (r: GateResult)
    ensures r.RedirectToLogin? <==> userId.None?
    ensures r.Authorized? <==> userId.Some? && userId.value in users && HasRole(users[userId.value].adminProfile, "admin")
    ensures r.Authorized? ==> r.user == Selected(users[userId.value])
    ensures r.Forbidden? ==> r.requiredRole == "admin"
  {
    match userId
    case None => RedirectToLogin
    case Some(id) =>
      if id in users && HasRole(users[id].adminProfile, "admin") then Authorized(Selected(users[id]))
      else Forbidden("admin")
  }

  /** The gates are independent: an admin whose coach profile lacks the
      `coach` role is refused by the coach gate and admitted by the admin
      gate, and both gates return the same record shape for one user. */
  lemma {:induction false} AdminIsNotCoach(users: map<string, User>, id: string)
    requires id in users
    requires HasRole(users[id].adminProfile, "admin") && !HasRole(users[id].coachProfile, "coach")
    ensures RequireCoach(users, Some(id)) == Forbidden("coach")
    ensures RequireAdmin(users, Some(id)) == Authorized(Selected(users[id]))
  {
  }

  /** Only the coach profile's roles count for the coach gate: a user without
      a coach profile is refused, whatever roles their player profile holds
      (a `coach` role there included). */
  lemma {:induction false} RoleOnWrongProfile(users: map<string, User>, id: string)
    requires id in users && users[id].coachProfile.None?
    ensures RequireCoach(users, Some(id)) == Forbidden("coach")
  {
  }
}
