/** The older, group-only copy of the admin-role procedures (`okta/group.go`),
    and the listing of a group's user ids.

    Its procedures issue the same requests as those of `AdminRoles` with target
    type `groups` (`GroupUpdateMatchesGeneric`); only the wording of the errors
    differs (`AsGroupError`). */
module Group {
  import opened Client
  import AdminRoles

  /** An `okta.User`, of which only the id is read here. */
  datatype User = User(id: string)

  // ---------------------------------------------------------------- user ids

  /** `listGroupUserIds`: the ids of the group's users, in the order the SDK
      listed them. `users` is the SDK's answer to `Group.ListGroupUsers`; its
      error is returned unchanged. */
  method ListGroupUserIds(users: Result<seq<User>>) returns (ids: Result<seq<string>>)
    ensures users.Err? ==> ids == Err(users.error)
    ensures users.Ok? ==>
      ids.Ok? && |ids.value| == |users.value| &&
      forall i :: 0 <= i < |users.value| ==> ids.value[i] == users.value[i].id
  {
    if users.Err? {
      return Err(users.error);
    }
    var arr := users.value;
    var userIdList := new string[|arr|];
    for i := 0 to |arr|
      invariant forall j :: 0 <= j < i ==> userIdList[j] == arr[j].id
    {
      userIdList[i] := arr[i].id;
    }
    return Ok(userIdList[..]);
  }

  // ---------------------------------------------------------------- paths

  /** `/api/v1/groups/{groupId}/roles`: where a group's roles are listed and added. */
  function GroupRolesPath(groupId: string): string
  {
    "/api/v1/groups/" + groupId + "/roles"
  }

  /** `/api/v1/groups/{groupId}/roles/{roleId}`: where one assignment is removed. */
  function GroupRolePath(groupId: string, roleId: string): string
  {
    "/api/v1/groups/" + groupId + "/roles/" + roleId
  }

  function GroupListRequest(groupId: string): Request
  {
    Request(GET, GroupRolesPath(groupId), None)
  }

  function GroupAddRequest(groupId: string, roleType: string): Request
  {
    Request(POST, GroupRolesPath(groupId), Some(Role("", roleType)))
  }

  function GroupRemoveRequest(groupId: string, roleId: string): Request
  {
    Request(DELETE, GroupRolePath(groupId, roleId), None)
  }

  /** The group paths are the generic paths with target type `groups`. */
  lemma GroupPathsAreGenericPaths(groupId: string, roleId: string)
    ensures GroupRolesPath(groupId) == AdminRoles.RolesPath("groups", groupId)
    ensures GroupRolePath(groupId, roleId) == AdminRoles.RolePath("groups", groupId, roleId)
    ensures GroupListRequest(groupId) == AdminRoles.ListRequest("groups", groupId)
    ensures GroupRemoveRequest(groupId, roleId) == AdminRoles.RemoveRequest("groups", groupId, roleId)
    ensures forall roleType :: GroupAddRequest(groupId, roleType) == AdminRoles.AddRequest("groups", groupId, roleType)
  {
  }

  // ---------------------------------------------------------------- specification

  /** The requests the group `assignAdminRolesToGroup` issues for `r` from trace
      position `n`, and the error it returns. */
  function GroupAssignRun(groupId: string, r: seq<string>, n: nat, failing: set<nat>): (run: Run)
    ensures |run.sent| <= |r|
    ensures run.err == None ==> |run.sent| == |r|
    decreases |r|
  {
    if r == [] then Run([], None)
    else
      var prev := GroupAssignRun(groupId, r[..|r| - 1], n, failing);
      var role := r[|r| - 1];
      if prev.err.Some? then prev
      else if role !in AdminRoles.ValidRoles then Run(prev.sent, Some(InvalidRole(role)))
      else
        var req := GroupAddRequest(groupId, role);
        if n + |prev.sent| in failing then Run(prev.sent + [req], Some(Wrapped(AssigningRoles, "Group", RequestFailed(req))))
        else Run(prev.sent + [req], None)
  }

  /** The removals of the loop in `updateAdminRolesOnGroup`, from trace position `n`. */
  function GroupRemoveRun(groupId: string, roles: seq<Role>, n: nat, failing: set<nat>): (run: Run)
    ensures |run.sent| <= |roles|
    ensures run.err == None ==> |run.sent| == |roles|
    decreases |roles|
  {
    if roles == [] then Run([], None)
    else
      var prev := GroupRemoveRun(groupId, roles[..|roles| - 1], n, failing);
      if prev.err.Some? then prev
      else
        var req := GroupRemoveRequest(groupId, roles[|roles| - 1].id);
        if n + |prev.sent| in failing then Run(prev.sent + [req], Some(Wrapped(UpdatingRoles, "Group", RequestFailed(req))))
        else Run(prev.sent + [req], None)
  }

  /** `updateAdminRolesOnGroup`: list, remove each listed role, then assign. */
  function GroupUpdateRun(groupId: string, r: seq<string>, listed: seq<Role>, n: nat, failing: set<nat>): (run: Run)
    ensures 1 <= |run.sent| <= 1 + |listed| + |r|
    ensures run.err == None ==> |run.sent| == 1 + |listed| + |r|
  {
    var list := GroupListRequest(groupId);
    if n in failing then Run([list], Some(Wrapped(UpdatingRoles, "Group", RequestFailed(list))))
    else
      var d := GroupRemoveRun(groupId, listed, n + 1, failing);
      if d.err.Some? then Run([list] + d.sent, d.err)
      else
        var a := GroupAssignRun(groupId, r, n + 1 + |d.sent|, failing);
        Run([list] + d.sent + a.sent, a.err)
  }

  // ---------------------------------------------------------------- agreement with the generic copy

  /** The group copy's wording of an error that the generic code reports for
      target type `groups`: one wrapper naming "Group" directly around the failed
      request, where the generic code has one or two naming "groups". */
  function AsGroupError(e: Error): (g: Error)
    ensures RootCause(g) == RootCause(e)
    ensures e.Wrapped? <==> g.Wrapped?
    ensures e.Wrapped? ==> g.context == e.context && g.target == "Group"
  {
    match e
    case Wrapped(context, _, cause) => Wrapped(context, "Group", RootCause(cause))
    case _ => e
  }

  function AsGroupOutcome(err: Option<Error>): Option<Error>
  {
    if err.Some? then Some(AsGroupError(err.value)) else None
  }

  /** The group assign issues the requests of the generic assign for target type
      `groups`, and reports the same outcome in the group wording. */
  lemma {:induction false} GroupAssignMatchesGeneric(groupId: string, r: seq<string>, n: nat, failing: set<nat>)
    ensures var a := AdminRoles.AssignRun("groups", groupId, r, n, failing);
      GroupAssignRun(groupId, r, n, failing) == Run(a.sent, AsGroupOutcome(a.err))
    decreases |r|
  {
    if r != [] {
      GroupPathsAreGenericPaths(groupId, "");
      GroupAssignMatchesGeneric(groupId, r[..|r| - 1], n, failing);
    }
  }

  /** The same for the removals of the update. */
  lemma {:induction false} GroupRemoveMatchesGeneric(groupId: string, roles: seq<Role>, n: nat, failing: set<nat>)
    ensures var d := AdminRoles.RemoveRun("groups", groupId, roles, n, failing);
      GroupRemoveRun(groupId, roles, n, failing) == Run(d.sent, AsGroupOutcome(d.err))
    decreases |roles|
  {
    if roles != [] {
      GroupPathsAreGenericPaths(groupId, roles[|roles| - 1].id);
      GroupRemoveMatchesGeneric(groupId, roles[..|roles| - 1], n, failing);
    }
  }

  /** `updateAdminRolesOnGroup` issues exactly the requests of `updateAdminRoles`
      for target type `groups`, and fails exactly when it does, with the same
      failed request or invalid name underneath. */
  lemma GroupUpdateMatchesGeneric(groupId: string, r: seq<string>, listed: seq<Role>, n: nat, failing: set<nat>)
    ensures var u := AdminRoles.UpdateRun("groups", groupId, r, listed, n, failing);
      GroupUpdateRun(groupId, r, listed, n, failing) == Run(u.sent, AsGroupOutcome(u.err))
  {
    GroupPathsAreGenericPaths(groupId, "");
    if n !in failing {
      GroupRemoveMatchesGeneric(groupId, listed, n + 1, failing);
      var d := GroupRemoveRun(groupId, listed, n + 1, failing);
      var gd := AdminRoles.DeleteRun("groups", groupId, listed, n, failing);
      assert gd.sent == [GroupListRequest(groupId)] + d.sent;
      if d.err == None {
        GroupAssignMatchesGeneric(groupId, r, n + 1 + |d.sent|, failing);
        var a := GroupAssignRun(groupId, r, n + 1 + |d.sent|, failing);
        assert n + |gd.sent| == n + 1 + |d.sent|;
        assert [GroupListRequest(groupId)] + d.sent + a.sent == gd.sent + a.sent;
      } else {
        AdminRoles.RemoveInOrder("groups", groupId, listed, n + 1, failing);
      }
    }
  }

  // ---------------------------------------------------------------- properties of the group copy

  /** The group assign adds only valid names, each to the group's roles path, in
      input order; it stops at the first invalid name (reported by name) or the
      first failed add (reported as an "Assigning ... to Group" error). */
  lemma GroupAssignStopsAtFirstProblem(groupId: string, r: seq<string>, n: nat, failing: set<nat>)
    ensures var run := GroupAssignRun(groupId, r, n, failing);
      forall i :: 0 <= i < |run.sent| ==> run.sent[i] == GroupAddRequest(groupId, r[i]) && r[i] in AdminRoles.ValidRoles
    ensures var run := GroupAssignRun(groupId, r, n, failing);
      run.err == None <==>
        (forall i :: 0 <= i < |r| ==> r[i] in AdminRoles.ValidRoles) && AdminRoles.AllSucceed(failing, n, |r|)
    ensures var run := GroupAssignRun(groupId, r, n, failing);
      run.err.Some? && run.err.value.InvalidRole? ==>
        |run.sent| < |r| && run.err.value.role == r[|run.sent|] && r[|run.sent|] !in AdminRoles.ValidRoles &&
        AdminRoles.AllSucceed(failing, n, |run.sent|)
    ensures var run := GroupAssignRun(groupId, r, n, failing);
      run.err.Some? && !run.err.value.InvalidRole? ==>
        |run.sent| > 0 && n + |run.sent| - 1 in failing &&
        run.err.value == Wrapped(AssigningRoles, "Group", RequestFailed(run.sent[|run.sent| - 1])) &&
        AdminRoles.AllSucceed(failing, n, |run.sent| - 1)
  {
    GroupAssignMatchesGeneric(groupId, r, n, failing);
    GroupPathsAreGenericPaths(groupId, "");
    AdminRoles.AssignAddsInOrder("groups", groupId, r, n, failing);
    AdminRoles.AssignSucceedsIff("groups", groupId, r, n, failing);
    AdminRoles.AssignStopsAtInvalid("groups", groupId, r, n, failing);
    AdminRoles.AssignStopsAtFailedAdd("groups", groupId, r, n, failing);
  }

  /** The group update lists first and issues nothing else when the list fails;
      it removes the listed roles by id in list order before any add, and adds
      only once the list and every removal succeeded; a failed list or removal
      is the last request, reported in an "Updating Admin Roles On Group" error,
      with no add; and on success it has issued the list, every removal and one
      add per desired name, in order. */
  lemma GroupUpdateRemovesBeforeAdding(groupId: string, r: seq<string>, listed: seq<Role>, n: nat, failing: set<nat>)
    ensures var run := GroupUpdateRun(groupId, r, listed, n, failing);
      run.sent[0] == GroupListRequest(groupId) &&
      (n in failing ==> run.sent == [GroupListRequest(groupId)] && run.err.Some?)
    ensures var run := GroupUpdateRun(groupId, r, listed, n, failing);
      forall j :: 0 <= j < |listed| && j + 1 < |run.sent| && run.sent[j + 1].verb != POST ==>
        run.sent[j + 1] == GroupRemoveRequest(groupId, listed[j].id)
    ensures var run := GroupUpdateRun(groupId, r, listed, n, failing);
      forall i :: 0 <= i < |run.sent| && run.sent[i].verb == POST ==>
        i >= 1 + |listed| && AdminRoles.AllSucceed(failing, n, 1 + |listed|)
    ensures var run := GroupUpdateRun(groupId, r, listed, n, failing);
      forall i, j :: 0 <= i < j < |run.sent| && run.sent[i].verb == POST ==> run.sent[j].verb == POST
    ensures var run := GroupUpdateRun(groupId, r, listed, n, failing);
      !AdminRoles.AllSucceed(failing, n, 1 + |listed|) ==>
        run.err == Some(Wrapped(UpdatingRoles, "Group", RequestFailed(run.sent[|run.sent| - 1]))) &&
        (forall i :: 0 <= i < |run.sent| ==> run.sent[i].verb != POST) &&
        n + |run.sent| - 1 in failing && AdminRoles.AllSucceed(failing, n, |run.sent| - 1)
    ensures var run := GroupUpdateRun(groupId, r, listed, n, failing);
      run.err.Some? && run.err.value.Wrapped? && run.err.value.context == AssigningRoles ==>
        var k := |run.sent| - 2 - |listed|;
        0 <= k < |r| && |run.sent| == 2 + |listed| + k &&
        (forall i :: 0 <= i <= k ==> run.sent[i + 1 + |listed|] == GroupAddRequest(groupId, r[i])) &&
        n + |run.sent| - 1 in failing && AdminRoles.AllSucceed(failing, n, |run.sent| - 1) &&
        run.err.value == Wrapped(AssigningRoles, "Group", RequestFailed(run.sent[|run.sent| - 1]))
    ensures var run := GroupUpdateRun(groupId, r, listed, n, failing);
      run.err.Some? && run.err.value.Wrapped? && run.err.value.context == UpdatingRoles ==>
        forall i :: 0 <= i < |run.sent| ==> run.sent[i].verb != POST
    ensures var run := GroupUpdateRun(groupId, r, listed, n, failing);
      run.err == None <==>
        (forall k :: 0 <= k < |r| ==> r[k] in AdminRoles.ValidRoles) && AdminRoles.AllSucceed(failing, n, 1 + |listed| + |r|)
    ensures var run := GroupUpdateRun(groupId, r, listed, n, failing);
      run.err == None ==>
        (forall j :: 0 <= j < |listed| ==> run.sent[j + 1] == GroupRemoveRequest(groupId, listed[j].id)) &&
        (forall k :: 0 <= k < |r| ==> run.sent[k + 1 + |listed|] == GroupAddRequest(groupId, r[k]))
  {
    GroupUpdateMatchesGeneric(groupId, r, listed, n, failing);
    GroupPathsAreGenericPaths(groupId, "");
    var u := AdminRoles.UpdateRun("groups", groupId, r, listed, n, failing);
    var d := AdminRoles.DeleteRun("groups", groupId, listed, n, failing);
    AdminRoles.DeleteListsThenRemoves("groups", groupId, listed, n, failing);
    AdminRoles.UpdateDeletesBeforeAdding("groups", groupId, r, listed, n, failing);
    AdminRoles.UpdateSucceedsIff("groups", groupId, r, listed, n, failing);
    AdminRoles.UpdateSuccessIsFullReplace("groups", groupId, r, listed, n, failing);
    AdminRoles.UpdateStopsAtFailedAdd("groups", groupId, r, listed, n, failing);
    assert u.sent[..|d.sent|] == d.sent;
    forall j | 0 <= j < |listed|
      ensures j + 1 < |u.sent| && u.sent[j + 1].verb != POST ==>
        u.sent[j + 1] == GroupRemoveRequest(groupId, listed[j].id)
    {
      GroupPathsAreGenericPaths(groupId, listed[j].id);
      if j + 1 < |u.sent| && u.sent[j + 1].verb != POST {
        assert j + 1 < |d.sent|;
        assert u.sent[j + 1] == d.sent[j + 1];
      }
    }
    if u.err == None {
      forall j | 0 <= j < |listed| ensures u.sent[j + 1] == GroupRemoveRequest(groupId, listed[j].id) {
        GroupPathsAreGenericPaths(groupId, listed[j].id);
      }
    }
  }

  // ---------------------------------------------------------------- the procedures

  /** `ApiSupplement.AddRoleToGroup`: POST the role to the group's roles path.
      The query parameters are accepted and not used. */
  method AddRoleToGroup(client: ApiSupplement, groupId: string, body: Role, qp: Option<string>)
    returns (err: Option<Error>)
    modifies client
    ensures var req := Request(POST, GroupRolesPath(groupId), Some(body));
      client.trace == old(client.trace) + [req] &&
      err == if |old(client.trace)| in client.failing then Some(RequestFailed(req)) else None
  {
    var req := Request(POST, GroupRolesPath(groupId), Some(body));
    var ok := client.Execute(req);
    if !ok {
      return Some(RequestFailed(req));
    }
    return None;
  }

  /** `ApiSupplement.ListAssignedRolesToGroup` (group copy): GET the group's roles path. */
  method ListAssignedRolesToGroup(client: ApiSupplement, groupId: string, qp: Option<string>)
    returns (roles: Result<seq<Role>>)
    modifies client
    ensures var req := Request(GET, AdminRoles.WithQuery(GroupRolesPath(groupId), qp), None);
      client.trace == old(client.trace) + [req] &&
      roles == if |old(client.trace)| in client.failing then Err(RequestFailed(req)) else Ok(client.listed)
  {
    var req := Request(GET, AdminRoles.WithQuery(GroupRolesPath(groupId), qp), None);
    var ok := client.Execute(req);
    if !ok {
      return Err(RequestFailed(req));
    }
    return Ok(client.listed);
  }

  /** `ApiSupplement.RemoveRoleFromGroup`: DELETE one assignment of the group. */
  method RemoveRoleFromGroup(client: ApiSupplement, groupId: string, roleId: string, qp: Option<string>)
    returns (err: Option<Error>)
    modifies client
    ensures var req := Request(DELETE, AdminRoles.WithQuery(GroupRolePath(groupId, roleId), qp), None);
      client.trace == old(client.trace) + [req] &&
      err == if |old(client.trace)| in client.failing then Some(RequestFailed(req)) else None
  {
    var req := Request(DELETE, AdminRoles.WithQuery(GroupRolePath(groupId, roleId), qp), None);
    var ok := client.Execute(req);
    if !ok {
      return Some(RequestFailed(req));
    }
    return None;
  }

  /** Once the group assign over the first `k` names has stopped, the rest change nothing. */
  lemma {:induction false} GroupAssignRunStops(groupId: string, r: seq<string>, k: nat, n: nat, failing: set<nat>)
    requires k <= |r|
    requires GroupAssignRun(groupId, r[..k], n, failing).err.Some?
    ensures GroupAssignRun(groupId, r, n, failing) == GroupAssignRun(groupId, r[..k], n, failing)
    decreases |r| - k
  {
    if k < |r| {
      assert r[..|r| - 1][..k] == r[..k];
      GroupAssignRunStops(groupId, r[..|r| - 1], k, n, failing);
    } else {
      assert r[..k] == r;
    }
  }

  /** Once a removal of the group update has failed, the later roles change nothing. */
  lemma {:induction false} GroupRemoveRunStops(groupId: string, roles: seq<Role>, k: nat, n: nat, failing: set<nat>)
    requires k <= |roles|
    requires GroupRemoveRun(groupId, roles[..k], n, failing).err.Some?
    ensures GroupRemoveRun(groupId, roles, n, failing) == GroupRemoveRun(groupId, roles[..k], n, failing)
    decreases |roles| - k
  {
    if k < |roles| {
      assert roles[..|roles| - 1][..k] == roles[..k];
      GroupRemoveRunStops(groupId, roles[..|roles| - 1], k, n, failing);
    } else {
      assert roles[..k] == roles;
    }
  }

  /** `assignAdminRolesToGroup` (group copy): check and add the names one by one. */
  method AssignAdminRolesToGroup(client: ApiSupplement, u: string, r: seq<string>) returns (err: Option<Error>)
    modifies client
    ensures var run := GroupAssignRun(u, r, |old(client.trace)|, client.failing);
      client.trace == old(client.trace) + run.sent && err == run.err
  {
    ghost var start := client.trace;
    for i := 0 to |r|
      invariant var run := GroupAssignRun(u, r[..i], |start|, client.failing);
        client.trace == start + run.sent && run.err == None
    {
      var role := r[i];
      assert r[..i + 1][..i] == r[..i];
      if role in AdminRoles.ValidRoles {
        var addErr := AddRoleToGroup(client, u, Role("", role), None);
        if addErr.Some? {
          GroupAssignRunStops(u, r, i + 1, |start|, client.failing);
          return Some(Wrapped(AssigningRoles, "Group", addErr.value));
        }
      } else {
        GroupAssignRunStops(u, r, i + 1, |start|, client.failing);
        return Some(InvalidRole(role));
      }
    }
    assert r[..|r|] == r;
    return None;
  }

  /** The loop of `updateAdminRolesOnGroup` that removes the listed assignments
      one by one, stopping at the first failed removal. */
  method RemoveListedRoles(client: ApiSupplement, g: string, roles: seq<Role>) returns (err: Option<Error>)
    modifies client
    ensures var run := GroupRemoveRun(g, roles, |old(client.trace)|, client.failing);
      client.trace == old(client.trace) + run.sent && err == run.err
  {
    ghost var start := client.trace;
    for i := 0 to |roles|
      invariant var run := GroupRemoveRun(g, roles[..i], |start|, client.failing);
        client.trace == start + run.sent && run.err == None
    {
      assert roles[..i + 1][..i] == roles[..i];
      var removeErr := RemoveRoleFromGroup(client, g, roles[i].id, None);
      if removeErr.Some? {
        GroupRemoveRunStops(g, roles, i + 1, |start|, client.failing);
        return Some(Wrapped(UpdatingRoles, "Group", removeErr.value));
      }
    }
    assert roles[..|roles|] == roles;
    return None;
  }

  /** `updateAdminRolesOnGroup`: list the group's assignments, remove each by id,
      then assign `r`. */
  method UpdateAdminRolesOnGroup(client: ApiSupplement, g: string, r: seq<string>) returns (err: Option<Error>)
    modifies client
    ensures var run := GroupUpdateRun(g, r, client.listed, |old(client.trace)|, client.failing);
      client.trace == old(client.trace) + run.sent && err == run.err
  {
    var roles := ListAssignedRolesToGroup(client, g, None);
    if roles.Err? {
      return Some(Wrapped(UpdatingRoles, "Group", roles.error));
    }
    ghost var listedAt := client.trace;
    err := RemoveListedRoles(client, g, roles.value);
    assert client.trace == old(client.trace) + ([GroupListRequest(g)] + (client.trace[|listedAt|..]));
    if err.Some? {
      return;
    }
    err := AssignAdminRolesToGroup(client, g, r);
  }
}
