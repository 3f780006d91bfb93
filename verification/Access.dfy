/** System roles, environment roles and their delegation (backend/app/services/access.py,
    backend/app/api/auth_routes.py, backend/app/api/routes.py). */
module Access {
  import opened Common

  const SystemRoles: set<string> := {"admin", "auditor", "user", "authenticated"}
  const EnvironmentRoles: set<string> := {"environment-admin", "environment-user", "environment-auditor"}
  const GroupRole: map<string, string> :=
    map["admins" := "admin", "auditors" := "auditor", "users" := "user", "authenticated" := "authenticated"]

  datatype Assignment = Assignment(role: string, scope: string, environmentId: string, principalType: string,
                                   principalId: string)

  /** The tables that decide access. Group names by id; memberships as (group id, user id). */
  datatype Directory = Directory(groups: map<string, string>, memberships: set<(string, string)>,
                                 assignments: map<string, Assignment>, environments: set<string>)

  // ----- Profiles -----

  datatype Profile = Profile(systemRoles: set<string>, environmentRoles: map<string, set<string>>)

  /** The row concerns this user, directly or through a group. */
  predicate Concerns(dir: Directory, userId: string, row: Assignment)
  {
    (row.principalType == "user" && row.principalId == userId) ||
    (row.principalType == "group" && row.principalId in dir.groups && (row.principalId, userId) in dir.memberships)
  }

  predicate GrantsSystem(dir: Directory, userId: string, row: Assignment, role: string)
  {
    Concerns(dir, userId, row) && row.scope == "system" && row.role in SystemRoles && row.role == role
  }

  predicate GrantsOn(dir: Directory, userId: string, row: Assignment, environmentId: string, role: string)
  {
    Concerns(dir, userId, row) && row.scope == "environment" && row.environmentId == environmentId &&
    environmentId != "" && row.role in EnvironmentRoles && row.role == role
  }

  /** The user holds the system role: by being signed in, by a built-in group, or by an assignment. */
  predicate HoldsSystem(dir: Directory, userId: string, role: string)
  {
    role == "authenticated" ||
    (exists m :: m in dir.memberships && m.1 == userId && m.0 in dir.groups &&
      dir.groups[m.0] in GroupRole && GroupRole[dir.groups[m.0]] == role) ||
    (exists id :: id in dir.assignments && GrantsSystem(dir, userId, dir.assignments[id], role))
  }

  predicate HoldsOn(dir: Directory, userId: string, environmentId: string, role: string)
  {
    exists id :: id in dir.assignments && GrantsOn(dir, userId, dir.assignments[id], environmentId, role)
  }

  ghost predicate IsProfile(dir: Directory, userId: string, profile: Profile)
  {
    (forall role :: role in profile.systemRoles <==> HoldsSystem(dir, userId, role)) &&
    (forall e :: e in profile.environmentRoles ==> profile.environmentRoles[e] != {}) &&
    (forall e, role :: role in RolesOn(profile, e) <==> HoldsOn(dir, userId, e, role))
  }

  /** One assignment added to the role sets built so far. */
  function AddRow(profile: Profile, row: Assignment): Profile
  {
    if row.scope == "system" && row.role in SystemRoles then
      profile.(systemRoles := profile.systemRoles + {row.role})
    else if row.scope == "environment" && row.environmentId != "" && row.role in EnvironmentRoles then
      var before := RolesOn(profile, row.environmentId);
      profile.(environmentRoles := profile.environmentRoles[row.environmentId := before + {row.role}])
    else profile
  }

  lemma AddRowAdds(profile: Profile, row: Assignment)
    ensures forall role :: role in AddRow(profile, row).systemRoles <==>
      role in profile.systemRoles || (row.scope == "system" && row.role in SystemRoles && role == row.role)
    ensures forall e, role :: role in RolesOn(AddRow(profile, row), e) <==>
      role in RolesOn(profile, e) ||
      (row.scope == "environment" && row.environmentId == e && e != "" && row.role in EnvironmentRoles &&
       role == row.role)
    ensures forall e :: e in AddRow(profile, row).environmentRoles ==>
      e in profile.environmentRoles || RolesOn(AddRow(profile, row), e) != {}
    ensures forall e :: e in profile.environmentRoles ==> RolesOn(profile, e) <= RolesOn(AddRow(profile, row), e)
  {
  }

  predicate GrantedOn(dir: Directory, ids: set<string>, userId: string, environmentId: string, role: string)
  {
    exists id :: id in ids && id in dir.assignments && GrantsOn(dir, userId, dir.assignments[id], environmentId, role)
  }

  method LoadProfile(dir: Directory, userId: string) returns (profile: Profile)
    ensures IsProfile(dir, userId, profile)
  {
    var grouped := set m | m in dir.memberships && m.1 == userId && m.0 in dir.groups && dir.groups[m.0] in GroupRole
                     :: GroupRole[dir.groups[m.0]];
    profile := Profile(grouped, map[]);
    var todo := set id | id in dir.assignments && Concerns(dir, userId, dir.assignments[id]);
    ghost var done: set<string> := {};
    while todo != {}
      invariant forall id :: id in todo + done <==> id in dir.assignments && Concerns(dir, userId, dir.assignments[id])
      invariant forall role :: role in profile.systemRoles <==>
        role in grouped || exists id :: id in done && GrantsSystem(dir, userId, dir.assignments[id], role)
      invariant forall e :: e in profile.environmentRoles ==> profile.environmentRoles[e] != {}
      invariant forall e, role :: role in RolesOn(profile, e) <==> GrantedOn(dir, done, userId, e, role)
      decreases todo
    {
      var id :| id in todo;
      AddRowAdds(profile, dir.assignments[id]);
      forall e, role ensures GrantedOn(dir, done + {id}, userId, e, role) <==>
        GrantedOn(dir, done, userId, e, role) || GrantsOn(dir, userId, dir.assignments[id], e, role) {
      }
      todo, done := todo - {id}, done + {id};
      profile := AddRow(profile, dir.assignments[id]);
    }
    forall e, role ensures GrantedOn(dir, done, userId, e, role) <==> HoldsOn(dir, userId, e, role) {
    }
    profile := profile.(systemRoles := profile.systemRoles + {"authenticated"});
  }

  // ----- What a profile allows -----

  predicate IsSystemAdmin(profile: Profile) { "admin" in profile.systemRoles }

  predicate SeesAllEnvironments(profile: Profile) { profile.systemRoles * {"admin", "auditor"} != {} }

  /** None stands for every environment. */
  function VisibleEnvironments(profile: Profile): Option<set<string>>
  {
    if SeesAllEnvironments(profile) then None else Some(profile.environmentRoles.Keys)
  }

  function RolesOn(profile: Profile, environmentId: string): set<string>
  {
    if environmentId in profile.environmentRoles then profile.environmentRoles[environmentId] else {}
  }

  predicate CanRead(profile: Profile, environmentId: string)
  {
    SeesAllEnvironments(profile) || environmentId in profile.environmentRoles
  }

  predicate CanOperate(profile: Profile, environmentId: string)
  {
    IsSystemAdmin(profile) || RolesOn(profile, environmentId) * {"environment-admin", "environment-user"} != {}
  }

  predicate CanAdminister(profile: Profile, environmentId: string)
  {
    IsSystemAdmin(profile) || "environment-admin" in RolesOn(profile, environmentId)
  }

  predicate CanCreateEnvironment(profile: Profile)
  {
    IsSystemAdmin(profile) || "user" in profile.systemRoles
  }

  /** In every state administering implies operating implies reading, and the environments a user can
      read are the ones the lists show. */
  lemma PermissionsNest(dir: Directory, userId: string, profile: Profile, environmentId: string)
    requires IsProfile(dir, userId, profile)
    ensures CanAdminister(profile, environmentId) ==> CanOperate(profile, environmentId)
    ensures CanOperate(profile, environmentId) ==> CanRead(profile, environmentId)
    ensures CanRead(profile, environmentId) <==>
      VisibleEnvironments(profile).None? || environmentId in VisibleEnvironments(profile).value
    ensures CanRead(profile, environmentId) <==>
      HoldsSystem(dir, userId, "admin") || HoldsSystem(dir, userId, "auditor") ||
      exists role :: HoldsOn(dir, userId, environmentId, role)
  {
    if IsSystemAdmin(profile) { assert "admin" in profile.systemRoles * {"admin", "auditor"}; }
    if SeesAllEnvironments(profile) {
      var role :| role in profile.systemRoles * {"admin", "auditor"};
      assert HoldsSystem(dir, userId, role);
    }
    if HoldsSystem(dir, userId, "auditor") { assert "auditor" in profile.systemRoles * {"admin", "auditor"}; }
    if "environment-admin" in RolesOn(profile, environmentId) {
      assert "environment-admin" in RolesOn(profile, environmentId) * {"environment-admin", "environment-user"};
    }
    if environmentId in profile.environmentRoles {
      var role :| role in profile.environmentRoles[environmentId];
      assert HoldsOn(dir, userId, environmentId, role);
    }
  }

  /** Which roles each permission takes. */
  lemma PermissionsByRole(dir: Directory, userId: string, profile: Profile, environmentId: string)
    requires IsProfile(dir, userId, profile)
    ensures CanOperate(profile, environmentId) <==>
      HoldsSystem(dir, userId, "admin") || HoldsOn(dir, userId, environmentId, "environment-admin") ||
      HoldsOn(dir, userId, environmentId, "environment-user")
    ensures CanAdminister(profile, environmentId) <==>
      HoldsSystem(dir, userId, "admin") || HoldsOn(dir, userId, environmentId, "environment-admin")
    ensures CanCreateEnvironment(profile) <==> HoldsSystem(dir, userId, "admin") || HoldsSystem(dir, userId, "user")
  {
    var roles := RolesOn(profile, environmentId);
    assert roles * {"environment-admin", "environment-user"} != {} <==>
      "environment-admin" in roles || "environment-user" in roles by {
      if "environment-admin" in roles {
        assert "environment-admin" in roles * {"environment-admin", "environment-user"};
      }
      if "environment-user" in roles { assert "environment-user" in roles * {"environment-admin", "environment-user"}; }
    }
  }

  // ----- Requests -----

  /** New row ids are chosen by the server. namesakes: how many rows have the name or the slug. */
  datatype Request =
    | CreateAssignment(actor: string, newId: string, row: Assignment)
    | DeleteAssignment(actor: string, id: string)
    | CreateEnvironment(actor: string, newId: string, newAssignmentId: string, namesakes: nat)
    | DeleteEnvironment(actor: string, environmentId: string)

  predicate Administers(dir: Directory, actor: string, environmentId: string)
  {
    HoldsSystem(dir, actor, "admin") || HoldsOn(dir, actor, environmentId, "environment-admin")
  }

  /** The status code of a refusal, checks in the order of the handlers. */
  function Refusal(dir: Directory, request: Request): Option<int>
  {
    match request
    case CreateAssignment(actor, newId, row) =>
      if row.scope == "environment" && (row.role !in EnvironmentRoles || row.environmentId == "") then Some(400)
      else if row.scope == "environment" && !Administers(dir, actor, row.environmentId) then Some(403)
      else if row.scope == "system" && !HoldsSystem(dir, actor, "admin") then Some(403)
      else if row.scope == "system" && row.role !in SystemRoles then Some(400)
      else if row.scope != "environment" && row.scope != "system" then Some(400)
      else if row.principalType != "user" && row.principalType != "group" then Some(400)
      else if newId in dir.assignments || Stored(row) in dir.assignments.Values || !FitsColumns(Stored(row))
      then Some(409)
      else None
    case DeleteAssignment(actor, id) =>
      if id !in dir.assignments then Some(404)
      else
        var row := dir.assignments[id];
        if row.scope == "system" && !HoldsSystem(dir, actor, "admin") then Some(403)
        else if row.scope == "environment" && !Administers(dir, actor, row.environmentId) then Some(403)
        else if row.principalType == "group" && row.principalId in dir.groups &&
                dir.groups[row.principalId] in {"admins", "auditors"} && row.scope == "system" then Some(400)
        else None
    case CreateEnvironment(actor, newId, newAssignmentId, namesakes) =>
      if !HoldsSystem(dir, actor, "admin") && !HoldsSystem(dir, actor, "user") then Some(403)
      else if namesakes == 1 then Some(409)
      else if namesakes > 1 then Some(500)
      else if newId in dir.environments || newAssignmentId in dir.assignments ||
              CreatorRow(newId, actor) in dir.assignments.Values
      then Some(500)
      else None
    case DeleteEnvironment(actor, environmentId) =>
      if !Administers(dir, actor, environmentId) then Some(403)
      else if environmentId !in dir.environments then Some(404)
      else None
  }

  /** The creator of an environment administers it. */
  function CreatorRow(environmentId: string, actor: string): Assignment
  {
    Assignment("environment-admin", "environment", environmentId, "user", actor)
  }

  /** Environment and principal ids are VARCHAR(36). */
  predicate FitsColumns(row: Assignment)
  {
    |row.environmentId| <= 36 && |row.principalId| <= 36
  }

  /** A system assignment is stored without an environment. */
  function Stored(row: Assignment): Assignment
  {
    if row.scope == "environment" then row else row.(environmentId := "")
  }

  function WithoutEnvironment(assignments: map<string, Assignment>, environmentId: string): map<string, Assignment>
  {
    map id | id in assignments && assignments[id].environmentId != environmentId :: assignments[id]
  }

  function Step(dir: Directory, request: Request): Directory
  {
    if Refusal(dir, request).Some? then dir
    else match request
      case CreateAssignment(actor, newId, row) => dir.(assignments := dir.assignments[newId := Stored(row)])
      case DeleteAssignment(actor, id) => dir.(assignments := dir.assignments - {id})
      case CreateEnvironment(actor, newId, newAssignmentId, namesakes) =>
        dir.(environments := dir.environments + {newId},
             assignments := dir.assignments[newAssignmentId := CreatorRow(newId, actor)])
      case DeleteEnvironment(actor, environmentId) =>
        dir.(environments := dir.environments - {environmentId},
             assignments := WithoutEnvironment(dir.assignments, environmentId))
  }

  function Run(dir: Directory, requests: seq<Request>): Directory
    decreases |requests|
  {
    if requests == [] then dir else Run(Step(dir, requests[0]), requests[1..])
  }

  // ----- The handlers -----

  class AccessStore {
    var groups: map<string, string>
    var memberships: set<(string, string)>
    var assignments: map<string, Assignment>
    var environments: set<string>

    function Dir(): Directory
      reads this
    {
      Directory(groups, memberships, assignments, environments)
    }

    constructor (dir: Directory)
      ensures Dir() == dir
    {
      groups, memberships, assignments, environments := dir.groups, dir.memberships, dir.assignments, dir.environments;
    }

    method Create(actor: string, newId: string, payload: Assignment) returns (code: int)
      modifies this`assignments
      ensures Dir() == Step(old(Dir()), CreateAssignment(actor, newId, payload))
      ensures code ==
        match Refusal(old(Dir()), CreateAssignment(actor, newId, payload)) case Some(c) => c case None => 201
    {
      var profile := LoadProfile(Dir(), actor);
      if payload.scope == "environment" {
        if payload.role !in EnvironmentRoles || payload.environmentId == "" {
          return 400;
        }
        if "admin" !in profile.systemRoles && "environment-admin" !in RolesOn(profile, payload.environmentId) {
          return 403;
        }
      } else if payload.scope == "system" {
        if "admin" !in profile.systemRoles {
          return 403;
        }
        if payload.role !in SystemRoles {
          return 400;
        }
      } else {
        return 400;
      }
      if payload.principalType !in {"user", "group"} {
        return 400;
      }
      var row := Assignment(payload.role, payload.scope,
                            if payload.scope == "environment" then payload.environmentId else "",
                            payload.principalType, payload.principalId);
      if newId in assignments || row in assignments.Values || |row.environmentId| > 36 || |row.principalId| > 36 {
        return 409;
      }
      assignments := assignments[newId := row];
      return 201;
    }

    method Delete(actor: string, id: string) returns (code: int)
      modifies this`assignments
      ensures Dir() == Step(old(Dir()), DeleteAssignment(actor, id))
      ensures code == match Refusal(old(Dir()), DeleteAssignment(actor, id)) case Some(c) => c case None => 204
    {
      var profile := LoadProfile(Dir(), actor);
      if id !in assignments {
        return 404;
      }
      var row := assignments[id];
      if row.scope == "system" && "admin" !in profile.systemRoles {
        return 403;
      }
      if row.scope == "environment" && "admin" !in profile.systemRoles {
        if "environment-admin" !in RolesOn(profile, row.environmentId) {
          return 403;
        }
      }
      if row.principalType == "group" {
        if row.principalId in groups && groups[row.principalId] in {"admins", "auditors"} && row.scope == "system" {
          return 400;
        }
      }
      assignments := assignments - {id};
      return 204;
    }

    method CreateEnv(actor: string, newId: string, newAssignmentId: string, namesakes: nat) returns (code: int)
      modifies this`assignments, this`environments
      ensures Dir() == Step(old(Dir()), CreateEnvironment(actor, newId, newAssignmentId, namesakes))
      ensures code ==
        match Refusal(old(Dir()), CreateEnvironment(actor, newId, newAssignmentId, namesakes))
        case Some(c) => c
        case None => 201
    {
      var profile := LoadProfile(Dir(), actor);
      if !CanCreateEnvironment(profile) {
        return 403;
      }
      if namesakes > 1 {
        return 500;
      }
      if namesakes == 1 {
        return 409;
      }
      var row := Assignment("environment-admin", "environment", newId, "user", actor);
      if newId in environments || newAssignmentId in assignments || row in assignments.Values {
        return 500;
      }
      environments := environments + {newId};
      assignments := assignments[newAssignmentId := row];
      return 201;
    }

    method DeleteEnv(actor: string, environmentId: string) returns (code: int)
      modifies this`assignments, this`environments
      ensures Dir() == Step(old(Dir()), DeleteEnvironment(actor, environmentId))
      ensures code ==
        match Refusal(old(Dir()), DeleteEnvironment(actor, environmentId)) case Some(c) => c case None => 204
    {
      var profile := LoadProfile(Dir(), actor);
      if !CanAdminister(profile, environmentId) {
        return 403;
      }
      if environmentId !in environments {
        return 404;
      }
      var rows := set id | id in assignments && assignments[id].environmentId == environmentId;
      while rows != {}
        invariant rows <= assignments.Keys && environments == old(environments)
        invariant forall id :: id in rows ==> assignments[id].environmentId == environmentId
        invariant WithoutEnvironment(assignments, environmentId) == WithoutEnvironment(old(assignments), environmentId)
        invariant forall id :: id in assignments && assignments[id].environmentId == environmentId ==> id in rows
        decreases rows
      {
        var id :| id in rows;
        rows := rows - {id};
        assignments := assignments - {id};
      }
      assert assignments == WithoutEnvironment(assignments, environmentId);
      environments := environments - {environmentId};
      return 204;
    }
  }

  // ----- Delegation stays local -----

  /** What the handlers keep: two scopes, and only environment rows name an environment. */
  ghost predicate WellFormed(dir: Directory)
  {
    "" !in dir.environments &&
    forall id :: id in dir.assignments ==>
      dir.assignments[id].scope in {"system", "environment"} &&
      (dir.assignments[id].scope == "system" <==> dir.assignments[id].environmentId == "")
  }

  predicate SameRow(a: map<string, Assignment>, b: map<string, Assignment>, id: string)
  {
    (id in a <==> id in b) && (id in a ==> a[id] == b[id])
  }

  predicate IsSystemRow(dir: Directory, id: string)
  {
    id in dir.assignments && dir.assignments[id].scope == "system"
  }

  predicate IsRowOn(dir: Directory, id: string, environmentId: string)
  {
    id in dir.assignments && dir.assignments[id].environmentId == environmentId
  }

  /** The two states have the same system assignments. */
  ghost predicate SameSystemRows(a: Directory, b: Directory)
  {
    a.groups == b.groups && a.memberships == b.memberships &&
    forall id :: IsSystemRow(a, id) || IsSystemRow(b, id) ==> SameRow(a.assignments, b.assignments, id)
  }

  /** The two states have the same assignments on the environment. */
  ghost predicate SameRowsOn(a: Directory, b: Directory, environmentId: string)
  {
    a.groups == b.groups && a.memberships == b.memberships &&
    forall id :: IsRowOn(a, id, environmentId) || IsRowOn(b, id, environmentId) ==>
      SameRow(a.assignments, b.assignments, id)
  }

  lemma SameSystemRoles(a: Directory, b: Directory, userId: string, role: string)
    requires SameSystemRows(a, b)
    ensures HoldsSystem(a, userId, role) <==> HoldsSystem(b, userId, role)
  {
    if id :| id in a.assignments && GrantsSystem(a, userId, a.assignments[id], role) {
      assert IsSystemRow(a, id);
    }
    if id :| id in b.assignments && GrantsSystem(b, userId, b.assignments[id], role) {
      assert IsSystemRow(b, id);
    }
  }

  lemma SameRolesOn(a: Directory, b: Directory, userId: string, environmentId: string, role: string)
    requires SameRowsOn(a, b, environmentId)
    ensures HoldsOn(a, userId, environmentId, role) <==> HoldsOn(b, userId, environmentId, role)
  {
    if id :| id in a.assignments && GrantsOn(a, userId, a.assignments[id], environmentId, role) {
      assert IsRowOn(a, id, environmentId);
    }
    if id :| id in b.assignments && GrantsOn(b, userId, b.assignments[id], environmentId, role) {
      assert IsRowOn(b, id, environmentId);
    }
  }

  /** No system administrator sends requests, and new environments get a non-empty id. */
  ghost predicate ByNonAdmins(dir: Directory, requests: seq<Request>)
  {
    forall r :: r in requests ==> !HoldsSystem(dir, r.actor, "admin") && (r.CreateEnvironment? ==> r.newId != "")
  }

  lemma StepByNonAdmin(dir: Directory, request: Request)
    requires WellFormed(dir) && ByNonAdmins(dir, [request])
    ensures WellFormed(Step(dir, request))
    ensures SameSystemRows(dir, Step(dir, request))
  {
  }

  /** A request by somebody who is no administrator of the environment leaves it alone. */
  lemma StepLeavesAlone(dir: Directory, request: Request, environmentId: string)
    requires WellFormed(dir) && environmentId in dir.environments
    requires !Administers(dir, request.actor, environmentId)
    ensures environmentId in Step(dir, request).environments
    ensures SameRowsOn(dir, Step(dir, request), environmentId)
  {
  }

  /** Main result: whatever users who are not system administrators do, nobody's system roles change. */
  lemma {:induction false} SystemRolesUnchanged(dir: Directory, requests: seq<Request>)
    requires WellFormed(dir) && ByNonAdmins(dir, requests)
    ensures WellFormed(Run(dir, requests)) && SameSystemRows(dir, Run(dir, requests))
    ensures forall userId, role :: HoldsSystem(dir, userId, role) <==> HoldsSystem(Run(dir, requests), userId, role)
    decreases |requests|
  {
    if requests != [] {
      var next := Step(dir, requests[0]);
      assert requests[0] in requests;
      StepByNonAdmin(dir, requests[0]);
      forall r | r in requests[1..] ensures !HoldsSystem(next, r.actor, "admin") {
        SameSystemRoles(dir, next, r.actor, "admin");
      }
      SystemRolesUnchanged(next, requests[1..]);
      SystemRowsTransitive(dir, next, Run(dir, requests));
    }
    forall userId, role ensures HoldsSystem(dir, userId, role) <==> HoldsSystem(Run(dir, requests), userId, role) {
      SameSystemRoles(dir, Run(dir, requests), userId, role);
    }
  }

  lemma SystemRowsTransitive(a: Directory, b: Directory, c: Directory)
    requires SameSystemRows(a, b) && SameSystemRows(b, c)
    ensures SameSystemRows(a, c)
  {
    forall id | IsSystemRow(a, id) || IsSystemRow(c, id) ensures SameRow(a.assignments, c.assignments, id) {
      assert IsSystemRow(b, id);
    }
  }

  lemma RowsOnTransitive(a: Directory, b: Directory, c: Directory, environmentId: string)
    requires SameRowsOn(a, b, environmentId) && SameRowsOn(b, c, environmentId)
    ensures SameRowsOn(a, c, environmentId)
  {
    forall id | IsRowOn(a, id, environmentId) || IsRowOn(c, id, environmentId)
      ensures SameRow(a.assignments, c.assignments, id)
    {
      assert IsRowOn(b, id, environmentId);
    }
  }

  /** Main result: an environment none of the senders administers at the start keeps exactly its
      assignments and still exists at the end of the run, however the senders work together. */
  lemma {:induction false} DelegationStaysLocal(dir: Directory, requests: seq<Request>, environmentId: string)
    requires WellFormed(dir) && ByNonAdmins(dir, requests) && environmentId in dir.environments
    requires forall r :: r in requests ==> !HoldsOn(dir, r.actor, environmentId, "environment-admin")
    ensures environmentId in Run(dir, requests).environments
    ensures SameRowsOn(dir, Run(dir, requests), environmentId)
    ensures forall userId, role :: HoldsOn(dir, userId, environmentId, role) <==>
      HoldsOn(Run(dir, requests), userId, environmentId, role)
    decreases |requests|
  {
    if requests != [] {
      var next := Step(dir, requests[0]);
      assert requests[0] in requests;
      StepByNonAdmin(dir, requests[0]);
      StepLeavesAlone(dir, requests[0], environmentId);
      forall r | r in requests[1..]
        ensures !HoldsSystem(next, r.actor, "admin") && !HoldsOn(next, r.actor, environmentId, "environment-admin")
      {
        SameSystemRoles(dir, next, r.actor, "admin");
        SameRolesOn(dir, next, r.actor, environmentId, "environment-admin");
      }
      DelegationStaysLocal(next, requests[1..], environmentId);
      RowsOnTransitive(dir, next, Run(dir, requests), environmentId);
    }
    forall userId, role
      ensures HoldsOn(dir, userId, environmentId, role) <==> HoldsOn(Run(dir, requests), userId, environmentId, role)
    {
      SameRolesOn(dir, Run(dir, requests), userId, environmentId, role);
    }
  }

  // ----- What a request achieves -----

  /** The row names the user, or a group of the directory with the user in it. */
  predicate NamesUser(dir: Directory, row: Assignment, userId: string)
  {
    if row.principalType == "user" then row.principalId == userId
    else
      row.principalType == "group" && row.principalId in dir.groups && (row.principalId, userId) in dir.memberships
  }

  /** A stored row grants its role: to the user it names, or to the members of the group. */
  lemma RowGrants(dir: Directory, id: string, userId: string)
    requires id in dir.assignments && NamesUser(dir, dir.assignments[id], userId)
    ensures var row := dir.assignments[id];
      (row.scope == "system" && row.role in {"admin", "auditor", "user", "authenticated"} ==>
        HoldsSystem(dir, userId, row.role)) &&
      (row.scope == "environment" && row.environmentId != "" &&
       row.role in {"environment-admin", "environment-user", "environment-auditor"} ==>
         HoldsOn(dir, userId, row.environmentId, row.role))
  {
    var row := dir.assignments[id];
    if row.scope == "system" && row.role in SystemRoles { assert GrantsSystem(dir, userId, row, row.role); }
    if row.scope == "environment" && row.environmentId != "" && row.role in EnvironmentRoles {
      assert GrantsOn(dir, userId, row, row.environmentId, row.role);
    }
  }

  /** Somebody in no group and named by no assignment is authenticated and nothing else. */
  lemma OutsiderHoldsNothing(dir: Directory, userId: string, environmentId: string, role: string)
    requires forall m :: m in dir.memberships ==> m.1 != userId
    requires forall id :: id in dir.assignments && dir.assignments[id].principalType == "user" ==>
      dir.assignments[id].principalId != userId
    ensures HoldsSystem(dir, userId, role) <==> role == "authenticated"
    ensures !HoldsOn(dir, userId, environmentId, role)
  {
  }

  /** The built-in groups give their system role, and everybody signed in is authenticated. */
  lemma BuiltInGroups(dir: Directory, groupId: string, userId: string)
    requires groupId in dir.groups && (groupId, userId) in dir.memberships
    ensures dir.groups[groupId] == "admins" ==> HoldsSystem(dir, userId, "admin")
    ensures dir.groups[groupId] == "auditors" ==> HoldsSystem(dir, userId, "auditor")
    ensures dir.groups[groupId] == "users" ==> HoldsSystem(dir, userId, "user")
    ensures HoldsSystem(dir, userId, "authenticated")
  {
    assert (groupId, userId).0 == groupId;
  }

  /** Main result: an accepted assignment is stored as sent, beside all others, and its user holds the role
      afterwards; a refused one changes nothing. */
  lemma CreatedIsHeld(dir: Directory, actor: string, newId: string, row: Assignment)
    ensures var after := Step(dir, CreateAssignment(actor, newId, row));
      if Refusal(dir, CreateAssignment(actor, newId, row)).Some? then after == dir
      else
        newId !in dir.assignments && after.assignments.Keys == dir.assignments.Keys + {newId} &&
        (forall id :: id in dir.assignments ==> after.assignments[id] == dir.assignments[id]) &&
        after.assignments[newId].role == row.role && after.assignments[newId].scope == row.scope &&
        after.assignments[newId].principalType == row.principalType &&
        after.assignments[newId].principalId == row.principalId &&
        after.assignments[newId].environmentId == (if row.scope == "environment" then row.environmentId else "") &&
        after.environments == dir.environments && after.groups == dir.groups && after.memberships == dir.memberships
    ensures var after := Step(dir, CreateAssignment(actor, newId, row));
      Refusal(dir, CreateAssignment(actor, newId, row)).None? && row.principalType == "user" ==>
        if row.scope == "environment" then HoldsOn(after, row.principalId, row.environmentId, row.role)
        else HoldsSystem(after, row.principalId, row.role)
  {
    if Refusal(dir, CreateAssignment(actor, newId, row)).None? && row.principalType == "user" {
      RowGrants(Step(dir, CreateAssignment(actor, newId, row)), newId, row.principalId);
    }
  }

  /** Exactly who may create which assignment. */
  lemma CreateByRight(dir: Directory, actor: string, newId: string, row: Assignment)
    ensures Refusal(dir, CreateAssignment(actor, newId, row)).None? <==>
      newId !in dir.assignments && row.principalType in {"user", "group"} && |row.principalId| <= 36 &&
      (row.scope == "environment" ==> |row.environmentId| <= 36) &&
      (forall id :: id in dir.assignments ==>
        dir.assignments[id] != if row.scope == "environment" then row else row.(environmentId := "")) &&
      ((row.scope == "system" && HoldsSystem(dir, actor, "admin") &&
        row.role in {"admin", "auditor", "user", "authenticated"}) ||
       (row.scope == "environment" && row.environmentId != "" &&
        row.role in {"environment-admin", "environment-user", "environment-auditor"} &&
        (HoldsSystem(dir, actor, "admin") || HoldsOn(dir, actor, row.environmentId, "environment-admin"))))
  {
  }

  /** An accepted deletion removes that row and nothing else; exactly who may delete which row. */
  lemma DeleteByRight(dir: Directory, actor: string, id: string)
    ensures Refusal(dir, DeleteAssignment(actor, id)).None? <==>
      id in dir.assignments &&
      (dir.assignments[id].scope == "system" ==> HoldsSystem(dir, actor, "admin")) &&
      (dir.assignments[id].scope == "environment" ==>
        HoldsSystem(dir, actor, "admin") ||
        HoldsOn(dir, actor, dir.assignments[id].environmentId, "environment-admin")) &&
      !(dir.assignments[id].scope == "system" && dir.assignments[id].principalType == "group" &&
        dir.assignments[id].principalId in dir.groups &&
        dir.groups[dir.assignments[id].principalId] in {"admins", "auditors"})
    ensures var after := Step(dir, DeleteAssignment(actor, id));
      after == dir.(assignments := after.assignments) &&
      (Refusal(dir, DeleteAssignment(actor, id)).Some? ==> after == dir) &&
      (Refusal(dir, DeleteAssignment(actor, id)).None? ==> after.assignments.Keys == dir.assignments.Keys - {id}) &&
      forall other :: other in after.assignments ==> after.assignments[other] == dir.assignments[other]
  {
  }

  /** An administrator is never forbidden anything, and nobody else may delegate what he does not administer;
      a missing row is reported before, a missing environment after the question of rights; a malformed
      assignment is reported as such to an administrator. */
  lemma CodesByCause(dir: Directory, actor: string, id: string, row: Assignment, environmentId: string,
                     namesakes: nat)
    ensures HoldsSystem(dir, actor, "admin") ==>
      Code(dir, CreateAssignment(actor, id, row)) != 403 && Code(dir, DeleteAssignment(actor, id)) != 403 &&
      Code(dir, CreateEnvironment(actor, environmentId, id, namesakes)) != 403 &&
      Code(dir, DeleteEnvironment(actor, environmentId)) != 403
    ensures Code(dir, DeleteAssignment(actor, id)) == 404 <==> id !in dir.assignments
    ensures Code(dir, DeleteEnvironment(actor, environmentId)) == 404 <==>
      environmentId !in dir.environments &&
      (HoldsSystem(dir, actor, "admin") || HoldsOn(dir, actor, environmentId, "environment-admin"))
    ensures HoldsSystem(dir, actor, "admin") && row.scope == "system" && row.role in EnvironmentRoles ==>
      Code(dir, CreateAssignment(actor, id, row)) == 400
    ensures HoldsSystem(dir, actor, "user") && namesakes == 1 ==>
      Code(dir, CreateEnvironment(actor, environmentId, id, namesakes)) == 409
    ensures !HoldsSystem(dir, actor, "admin") && row.scope == "system" ==>
      Code(dir, CreateAssignment(actor, id, row)) == 403
  {
    assert EnvironmentRoles !! SystemRoles;
  }

  /** The status code of a refusal, or zero. */
  function Code(dir: Directory, request: Request): int
  {
    var refusal := Refusal(dir, request);
    if refusal.Some? then refusal.value else 0
  }

  /** The creator of an environment administers it, and nobody else gained a role on it. */
  lemma CreatorAdministers(dir: Directory, actor: string, newId: string, newAssignmentId: string)
    requires WellFormed(dir) && newId != "" && newId !in dir.environments && newAssignmentId !in dir.assignments
    requires forall id :: id in dir.assignments ==> dir.assignments[id].environmentId != newId
    requires HoldsSystem(dir, actor, "admin") || HoldsSystem(dir, actor, "user")
    ensures var after := Step(dir, CreateEnvironment(actor, newId, newAssignmentId, 0));
      after.environments == dir.environments + {newId} &&
      forall userId, role :: HoldsOn(after, userId, newId, role) <==> userId == actor && role == "environment-admin"
  {
    var after := Step(dir, CreateEnvironment(actor, newId, newAssignmentId, 0));
    RowGrants(after, newAssignmentId, actor);
  }

  /** After its deletion nobody holds a role on an environment, and roles elsewhere are as before. */
  lemma DeletedIsForgotten(dir: Directory, actor: string, environmentId: string)
    requires environmentId in dir.environments
    requires HoldsSystem(dir, actor, "admin") || HoldsOn(dir, actor, environmentId, "environment-admin")
    ensures var after := Step(dir, DeleteEnvironment(actor, environmentId));
      environmentId !in after.environments && after.environments + {environmentId} == dir.environments &&
      (forall userId, role :: !HoldsOn(after, userId, environmentId, role)) &&
      forall userId, e, role :: e != environmentId ==>
        (HoldsOn(after, userId, e, role) <==> HoldsOn(dir, userId, e, role))
  {
    var after := Step(dir, DeleteEnvironment(actor, environmentId));
    forall userId, e, role | e != environmentId
      ensures HoldsOn(after, userId, e, role) <==> HoldsOn(dir, userId, e, role)
    {
      SameRolesOn(dir, after, userId, e, role);
    }
  }

  /** Who may create and delete environments. */
  lemma EnvironmentsByRight(dir: Directory, actor: string, environmentId: string, newAssignmentId: string,
                            namesakes: nat)
    ensures Refusal(dir, DeleteEnvironment(actor, environmentId)).None? <==>
      environmentId in dir.environments &&
      (HoldsSystem(dir, actor, "admin") || HoldsOn(dir, actor, environmentId, "environment-admin"))
    ensures Refusal(dir, CreateEnvironment(actor, environmentId, newAssignmentId, namesakes)).None? ==>
      namesakes == 0 && (HoldsSystem(dir, actor, "admin") || HoldsSystem(dir, actor, "user"))
  {
  }
}
