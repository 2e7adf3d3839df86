/**
 * The operators hook: every row of `user_roles` joined with the first profile of the same
 * user, with the display name falling back from the profile to the role row.
 */
module Operators {
  import opened Wrappers
  import opened Store

  datatype Operator = Operator(
    id: string,
    userId: string,
    role: Option<string>,
    displayName: Option<string>,
    createdAt: string)

  /** `profiles.find(p => p.user_id === userId)`: the position of the first matching profile. */
  function FindProfile(profiles: seq<Profile>, userId: string): (r: Option<nat>)
    ensures r.Some? ==> r.value < |profiles| && profiles[r.value].userId == userId
    ensures r.Some? ==> forall j :: 0 <= j < r.value ==> profiles[j].userId != userId
    ensures r.None? ==> forall j :: 0 <= j < |profiles| ==> profiles[j].userId != userId
    decreases |profiles|
  {
    if profiles == [] then None
    else if profiles[0].userId == userId then Some(0)
    else
      var r := FindProfile(profiles[1..], userId);
      if r.None? then None else Some(r.value + 1)
  }

  /** `profile?.display_name || role?.display_name || null`. */
  function DisplayName(profile: Option<Profile>, role: UserRole): (r: Option<string>)
    ensures r.Some? ==> r.value != ""
    ensures profile.Some? && Truthy(profile.value.displayName) ==> r == profile.value.displayName
    ensures !(profile.Some? && Truthy(profile.value.displayName)) ==> r == OrNull(role.displayName)
  {
    if profile.Some? && Truthy(profile.value.displayName) then profile.value.displayName
    else if Truthy(role.displayName) then role.displayName
    else None
  }

  /** One operator from one role row. */
  function JoinOperator(role: UserRole, profiles: seq<Profile>): Operator
  {
    var idx := FindProfile(profiles, role.userId);
    var profile := if idx.Some? then Some(profiles[idx.value]) else None;
    Operator(role.id, role.userId, role.role, DisplayName(profile, role), role.createdAt)
  }

  /** `roles.map(...)`: one operator per role row, in the rows' order. */
  function CombineOperators(roles: seq<UserRole>, profiles: seq<Profile>): (r: seq<Operator>)
    ensures |r| == |roles|
    ensures forall i :: 0 <= i < |r| ==> r[i] == JoinOperator(roles[i], profiles)
  {
    seq(|roles|, i requires 0 <= i < |roles| => JoinOperator(roles[i], profiles))
  }

  /** The hook's outcome, and whether it asked the store for profiles. */
  datatype OperatorsLoad = OperatorsLoad(result: Result<seq<Operator>, string>, profilesQueried: bool)

  /** `useOperators`: role rows (newest first, as the store returns them), then profiles. */
  function LoadOperators(
    rolesReply: Result<seq<UserRole>, string>,
    profilesReply: Result<seq<Profile>, string>): (r: OperatorsLoad)
    ensures rolesReply.Err? ==> r == OperatorsLoad(Err(rolesReply.error), false)
    ensures rolesReply == Ok([]) ==> r == OperatorsLoad(Ok([]), false)
    ensures rolesReply.Ok? && rolesReply.value != [] ==> r.profilesQueried
    ensures rolesReply.Ok? && rolesReply.value != [] && profilesReply.Err? ==> r.result == Err(profilesReply.error)
    ensures rolesReply.Ok? && rolesReply.value != [] && profilesReply.Ok? ==>
              r.result == Ok(CombineOperators(rolesReply.value, profilesReply.value))
    ensures r.result.Ok? ==> rolesReply.Ok? && |r.result.value| == |rolesReply.value|
  {
    if rolesReply.Err? then OperatorsLoad(Err(rolesReply.error), false)
    else if rolesReply.value == [] then OperatorsLoad(Ok([]), false)
    else if profilesReply.Err? then OperatorsLoad(Err(profilesReply.error), true)
    else OperatorsLoad(Ok(CombineOperators(rolesReply.value, profilesReply.value)), true)
  }

  /** Each operator copies id, user id, role and creation time from its role row, and takes
      its display name from the first profile of that user when that name is non-empty,
      else from the role row when non-empty, else none. */
  lemma OperatorFields(roles: seq<UserRole>, profiles: seq<Profile>, i: int)
    requires 0 <= i < |roles|
    ensures var op := CombineOperators(roles, profiles)[i];
            op.id == roles[i].id && op.userId == roles[i].userId && op.role == roles[i].role
            && op.createdAt == roles[i].createdAt
    ensures var op := CombineOperators(roles, profiles)[i];
            var k := FindProfile(profiles, roles[i].userId);
            if k.Some? && Truthy(profiles[k.value].displayName) then op.displayName == profiles[k.value].displayName
            else op.displayName == OrNull(roles[i].displayName)
  {
  }

  /** A later profile of the same user never supplies the name. */
  lemma FirstProfileWins(role: UserRole, p: Profile, q: Profile)
    requires p.userId == role.userId && q.userId == role.userId
    requires Truthy(p.displayName)
    ensures JoinOperator(role, [p, q]).displayName == p.displayName
  {
  }
}
