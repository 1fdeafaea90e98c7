/** Admin-role reconciliation for a user or a group (`okta/admin_roles.go`).

    Every procedure is a method over an `ApiSupplement`. Its effect is stated by a
    specification function that gives the requests it issues and the error it
    returns, from the trace position it starts at and the client's oracle. */
module AdminRoles {
  import opened Client

  /** The role types the provider accepts, in the order the source lists them. */
  const ValidRoles: seq<string> := ["SUPER_ADMIN", "ORG_ADMIN", "API_ACCESS_MANAGEMENT_ADMIN", "APP_ADMIN",
                                    "USER_ADMIN", "MOBILE_ADMIN", "READ_ONLY_ADMIN", "HELP_DESK_ADMIN"]

  /** The roles of one target, as `GetAdminRoles` reports them. */
  datatype AdminRole = AdminRole(adminRoles: seq<Role>, targetId: string, targetType: string)

  // ---------------------------------------------------------------- paths

  /** `/api/v1/{targetType}/{targetId}/roles`: where roles are listed and added. */
  function RolesPath(targetType: string, targetId: string): string
  {
    "/api/v1/" + targetType + "/" + targetId + "/roles"
  }

  /** `/api/v1/{targetType}/{targetId}/roles/{roleId}`: where one assignment is removed. */
  function RolePath(targetType: string, targetId: string, roleId: string): string
  {
    "/api/v1/" + targetType + "/" + targetId + "/roles/" + roleId
  }

  /** The query string is appended only when there are parameters. */
  function WithQuery(path: string, qp: Option<string>): string
  {
    if qp.Some? then path + qp.value else path
  }

  function ListRequest(targetType: string, targetId: string): Request
  {
    Request(GET, RolesPath(targetType, targetId), None)
  }

  function AddRequest(targetType: string, targetId: string, roleType: string): Request
  {
    Request(POST, RolesPath(targetType, targetId), Some(Role("", roleType)))
  }

  function RemoveRequest(targetType: string, targetId: string, roleId: string): Request
  {
    Request(DELETE, RolePath(targetType, targetId, roleId), None)
  }

  /** The removal path is the roles path followed by the assignment id, so a
      removal is addressed to exactly one assignment of the target: no other id
      gives the same path. */
  lemma RolePathExtendsRolesPath(targetType: string, targetId: string, roleId: string)
    ensures forall other :: RolePath(targetType, targetId, other) == RolePath(targetType, targetId, roleId) ==>
      other == roleId
  {
    var prefix := RolesPath(targetType, targetId) + "/";
    forall other | RolePath(targetType, targetId, other) == RolePath(targetType, targetId, roleId)
      ensures other == roleId
    {
      assert RolePath(targetType, targetId, other) == prefix + other;
      assert RolePath(targetType, targetId, roleId) == prefix + roleId;
      assert other == (prefix + other)[|prefix|..];
      assert roleId == (prefix + roleId)[|prefix|..];
    }
  }

  // ---------------------------------------------------------------- specification

  /** The requests `assignAdminRolesToGroup` issues for the names `r`, starting at
      trace position `n`, and the error it returns. The names are taken in order;
      each valid one is added at once, and the first invalid name or failed add
      ends the run (`AssignRunStops`). */
  function AssignRun(targetType: string, targetId: string, r: seq<string>, n: nat, failing: set<nat>): (run: Run)
    ensures |run.sent| <= |r|
    ensures run.err == None ==> |run.sent| == |r|
    decreases |r|
  {
    if r == [] then Run([], None)
    else
      var prev := AssignRun(targetType, targetId, r[..|r| - 1], n, failing);
      var role := r[|r| - 1];
      if prev.err.Some? then prev
      else if role !in ValidRoles then Run(prev.sent, Some(InvalidRole(role)))
      else
        var req := AddRequest(targetType, targetId, role);
        if n + |prev.sent| in failing then Run(prev.sent + [req], Some(Wrapped(AssigningRoles, targetType, RequestFailed(req))))
        else Run(prev.sent + [req], None)
  }

  /** The removals of the loop in `deleteAdminRoles` for the listed `roles`,
      starting at trace position `n`: one per role, in order, until one fails. */
  function RemoveRun(targetType: string, targetId: string, roles: seq<Role>, n: nat, failing: set<nat>): (run: Run)
    ensures |run.sent| <= |roles|
    ensures run.err == None ==> |run.sent| == |roles|
    decreases |roles|
  {
    if roles == [] then Run([], None)
    else
      var prev := RemoveRun(targetType, targetId, roles[..|roles| - 1], n, failing);
      if prev.err.Some? then prev
      else
        var req := RemoveRequest(targetType, targetId, roles[|roles| - 1].id);
        if n + |prev.sent| in failing then Run(prev.sent + [req], Some(Wrapped(UpdatingRoles, targetType, RequestFailed(req))))
        else Run(prev.sent + [req], None)
  }

  /** `deleteAdminRoles`: list the current assignments, then remove each. */
  function DeleteRun(targetType: string, targetId: string, listed: seq<Role>, n: nat, failing: set<nat>): (run: Run)
    ensures 1 <= |run.sent| <= 1 + |listed|
    ensures run.err == None ==> |run.sent| == 1 + |listed|
  {
    var req := ListRequest(targetType, targetId);
    if n in failing then Run([req], Some(Wrapped(UpdatingRoles, targetType, RequestFailed(req))))
    else
      var rest := RemoveRun(targetType, targetId, listed, n + 1, failing);
      Run([req] + rest.sent, rest.err)
  }

  /** `updateAdminRoles`: the whole delete phase, then the assign phase. */
  function UpdateRun(targetType: string, targetId: string, r: seq<string>, listed: seq<Role>, n: nat,
                     failing: set<nat>): (run: Run)
    ensures 1 <= |run.sent| <= 1 + |listed| + |r|
    ensures run.err == None ==> |run.sent| == 1 + |listed| + |r|
  {
    var d := DeleteRun(targetType, targetId, listed, n, failing);
    if d.err.Some? then Run(d.sent, Some(Wrapped(UpdatingRoles, targetType, d.err.value)))
    else
      var a := AssignRun(targetType, targetId, r, n + |d.sent|, failing);
      Run(d.sent + a.sent, a.err)
  }

  // ---------------------------------------------------------------- properties of assign

  /** None of the `count` requests from trace position `from` on fails. */
  predicate AllSucceed(failing: set<nat>, from: nat, count: nat)
  {
    forall p: nat :: from <= p < from + count ==> p !in failing
  }

  /** Two adjacent stretches of successful requests make one. */
  lemma AllSucceedJoin(failing: set<nat>, from: nat, count1: nat, count2: nat)
    requires AllSucceed(failing, from, count1) && AllSucceed(failing, from + count1, count2)
    ensures AllSucceed(failing, from, count1 + count2)
  {
    forall p: nat | from <= p < from + count1 + count2 ensures p !in failing {
      if p >= from + count1 {
        assert from + count1 <= p < from + count1 + count2;
      }
    }
  }

  /** A stretch of successful requests splits into two. */
  lemma AllSucceedSplit(failing: set<nat>, from: nat, count1: nat, count2: nat)
    requires AllSucceed(failing, from, count1 + count2)
    ensures AllSucceed(failing, from, count1) && AllSucceed(failing, from + count1, count2)
  {
  }

  /** Once the run over the first `k` names has stopped with an error, the names
      after them change nothing: no further request, the same error. */
  lemma {:induction false} AssignRunStops(targetType: string, targetId: string, r: seq<string>, k: nat, n: nat,
                                          failing: set<nat>)
    requires k <= |r|
    requires AssignRun(targetType, targetId, r[..k], n, failing).err.Some?
    ensures AssignRun(targetType, targetId, r, n, failing) == AssignRun(targetType, targetId, r[..k], n, failing)
    decreases |r| - k
  {
    if k < |r| {
      assert r[..|r| - 1][..k] == r[..k];
      AssignRunStops(targetType, targetId, r[..|r| - 1], k, n, failing);
    } else {
      assert r[..k] == r;
    }
  }

  /** Every add is for the name at the same position of `r`, which is a valid
      role, with that name as the body's type. */
  lemma {:induction false} AssignAddsInOrder(targetType: string, targetId: string, r: seq<string>, n: nat,
                                             failing: set<nat>)
    ensures var run := AssignRun(targetType, targetId, r, n, failing);
      forall i :: 0 <= i < |run.sent| ==>
        run.sent[i] == AddRequest(targetType, targetId, r[i]) && r[i] in ValidRoles
    decreases |r|
  {
    if r != [] {
      var init := r[..|r| - 1];
      AssignAddsInOrder(targetType, targetId, init, n, failing);
      assert forall i :: 0 <= i < |init| ==> init[i] == r[i];
    }
  }

  /** Assigning succeeds exactly when every name is valid and no add fails; it
      has then added every name of `r`, in order. */
  lemma {:induction false} AssignSucceedsIff(targetType: string, targetId: string, r: seq<string>, n: nat,
                                             failing: set<nat>)
    ensures var run := AssignRun(targetType, targetId, r, n, failing);
      run.err == None <==> (forall i :: 0 <= i < |r| ==> r[i] in ValidRoles) && AllSucceed(failing, n, |r|)
    ensures var run := AssignRun(targetType, targetId, r, n, failing);
      run.err == None ==>
        |run.sent| == |r| && forall i :: 0 <= i < |r| ==> run.sent[i] == AddRequest(targetType, targetId, r[i])
    decreases |r|
  {
    AssignAddsInOrder(targetType, targetId, r, n, failing);
    if r != [] {
      var init := r[..|r| - 1];
      AssignSucceedsIff(targetType, targetId, init, n, failing);
      assert forall i :: 0 <= i < |init| ==> init[i] == r[i];
      assert AllSucceed(failing, n, |r|) <==> AllSucceed(failing, n, |init|) && n + |init| !in failing;
    }
  }

  /** An invalid name is reported by name, only after every earlier name was
      added without failure, and nothing after it is attempted. */
  lemma {:induction false} AssignStopsAtInvalid(targetType: string, targetId: string, r: seq<string>, n: nat,
                                                failing: set<nat>)
    ensures var run := AssignRun(targetType, targetId, r, n, failing);
      run.err.Some? && run.err.value.InvalidRole? ==>
        |run.sent| < |r| && run.err.value.role == r[|run.sent|] && r[|run.sent|] !in ValidRoles &&
        AllSucceed(failing, n, |run.sent|)
    decreases |r|
  {
    if r != [] {
      var init := r[..|r| - 1];
      AssignStopsAtInvalid(targetType, targetId, init, n, failing);
      AssignSucceedsIff(targetType, targetId, init, n, failing);
    }
  }

  /** A failed add is the last request issued, it is reported wrapped with the
      target type, and every earlier add succeeded. */
  lemma {:induction false} AssignStopsAtFailedAdd(targetType: string, targetId: string, r: seq<string>, n: nat,
                                                  failing: set<nat>)
    ensures var run := AssignRun(targetType, targetId, r, n, failing);
      run.err.Some? && !run.err.value.InvalidRole? ==>
        |run.sent| > 0 && n + |run.sent| - 1 in failing &&
        run.err.value == Wrapped(AssigningRoles, targetType, RequestFailed(run.sent[|run.sent| - 1])) &&
        AllSucceed(failing, n, |run.sent| - 1)
    decreases |r|
  {
    if r != [] {
      var init := r[..|r| - 1];
      AssignStopsAtFailedAdd(targetType, targetId, init, n, failing);
      AssignSucceedsIff(targetType, targetId, init, n, failing);
    }
  }

  /** Conversely: when the first invalid name is at `k` and none of the `k` adds
      before it fails, exactly those `k` adds are issued and that name is reported. */
  lemma AssignFirstInvalid(targetType: string, targetId: string, r: seq<string>, n: nat, failing: set<nat>, k: nat)
    requires k < |r| && r[k] !in ValidRoles
    requires (forall i :: 0 <= i < k ==> r[i] in ValidRoles) && AllSucceed(failing, n, k)
    ensures var run := AssignRun(targetType, targetId, r, n, failing);
      |run.sent| == k && run.err == Some(InvalidRole(r[k]))
  {
    var upTo := r[..k + 1];
    assert upTo[..k] == r[..k];
    AssignSucceedsIff(targetType, targetId, r[..k], n, failing);
    AssignRunStops(targetType, targetId, r, k + 1, n, failing);
  }

  // ---------------------------------------------------------------- properties of delete

  /** Once a removal has failed, the roles after it change nothing. */
  lemma {:induction false} RemoveRunStops(targetType: string, targetId: string, roles: seq<Role>, k: nat, n: nat,
                                          failing: set<nat>)
    requires k <= |roles|
    requires RemoveRun(targetType, targetId, roles[..k], n, failing).err.Some?
    ensures RemoveRun(targetType, targetId, roles, n, failing) == RemoveRun(targetType, targetId, roles[..k], n, failing)
    decreases |roles| - k
  {
    if k < |roles| {
      assert roles[..|roles| - 1][..k] == roles[..k];
      RemoveRunStops(targetType, targetId, roles[..|roles| - 1], k, n, failing);
    } else {
      assert roles[..k] == roles;
    }
  }

  /** The removals address the listed roles by id, in list order; they all
      succeed exactly when no removal fails, and a failed one is the last issued. */
  lemma {:induction false} RemoveInOrder(targetType: string, targetId: string, roles: seq<Role>, n: nat,
                                         failing: set<nat>)
    ensures var run := RemoveRun(targetType, targetId, roles, n, failing);
      forall i :: 0 <= i < |run.sent| ==> run.sent[i] == RemoveRequest(targetType, targetId, roles[i].id)
    ensures var run := RemoveRun(targetType, targetId, roles, n, failing);
      run.err == None <==> AllSucceed(failing, n, |roles|)
    ensures var run := RemoveRun(targetType, targetId, roles, n, failing);
      run.err.Some? ==>
        |run.sent| > 0 && n + |run.sent| - 1 in failing &&
        run.err.value == Wrapped(UpdatingRoles, targetType, RequestFailed(run.sent[|run.sent| - 1])) &&
        AllSucceed(failing, n, |run.sent| - 1)
    decreases |roles|
  {
    if roles != [] {
      var init := roles[..|roles| - 1];
      RemoveInOrder(targetType, targetId, init, n, failing);
      assert forall i :: 0 <= i < |init| ==> init[i] == roles[i];
      assert AllSucceed(failing, n, |roles|) <==> AllSucceed(failing, n, |init|) && n + |init| !in failing;
    }
  }

  /** `deleteAdminRoles` lists first; when the list fails nothing is removed,
      otherwise the listed roles are removed by id in list order. */
  lemma DeleteListsThenRemoves(targetType: string, targetId: string, listed: seq<Role>, n: nat, failing: set<nat>)
    ensures var run := DeleteRun(targetType, targetId, listed, n, failing);
      run.sent[0] == ListRequest(targetType, targetId) &&
      (n in failing ==> |run.sent| == 1 && run.err.Some?) &&
      (forall j :: 0 <= j < |run.sent| - 1 ==> run.sent[j + 1] == RemoveRequest(targetType, targetId, listed[j].id))
    ensures var run := DeleteRun(targetType, targetId, listed, n, failing);
      run.err == None <==> AllSucceed(failing, n, 1 + |listed|)
  {
    var run := DeleteRun(targetType, targetId, listed, n, failing);
    var list := ListRequest(targetType, targetId);
    if n in failing {
      assert run == Run([list], Some(Wrapped(UpdatingRoles, targetType, RequestFailed(list))));
      assert !AllSucceed(failing, n, 1 + |listed|) by {
        assert n in failing;
      }
    } else {
      var rest := RemoveRun(targetType, targetId, listed, n + 1, failing);
      RemoveInOrder(targetType, targetId, listed, n + 1, failing);
      assert run.sent == [list] + rest.sent && run.err == rest.err;
      forall j | 0 <= j < |run.sent| - 1
        ensures run.sent[j + 1] == RemoveRequest(targetType, targetId, listed[j].id)
      {
        assert run.sent[j + 1] == rest.sent[j];
      }
      assert AllSucceed(failing, n, 1) by {
        forall p: nat | n <= p < n + 1 ensures p !in failing { assert p == n; }
      }
      if AllSucceed(failing, n, 1 + |listed|) {
        AllSucceedSplit(failing, n, 1, |listed|);
      }
      if rest.err == None {
        AllSucceedJoin(failing, n, 1, |listed|);
      }
    }
  }

  /** When deleting fails, the failed request, the list or a removal, is the
      last one issued, every earlier one succeeded, and the "Updating Admin
      Roles" error reports it. */
  lemma DeleteStopsAtFailure(targetType: string, targetId: string, listed: seq<Role>, n: nat, failing: set<nat>)
    ensures var run := DeleteRun(targetType, targetId, listed, n, failing);
      run.err.Some? ==>
        n + |run.sent| - 1 in failing && AllSucceed(failing, n, |run.sent| - 1) &&
        run.err.value == Wrapped(UpdatingRoles, targetType, RequestFailed(run.sent[|run.sent| - 1]))
  {
    var run := DeleteRun(targetType, targetId, listed, n, failing);
    if n !in failing {
      var rest := RemoveRun(targetType, targetId, listed, n + 1, failing);
      RemoveInOrder(targetType, targetId, listed, n + 1, failing);
      if rest.err.Some? {
        assert run.sent == [ListRequest(targetType, targetId)] + rest.sent;
        assert run.sent[|run.sent| - 1] == rest.sent[|rest.sent| - 1];
        assert AllSucceed(failing, n, 1) by {
          forall p: nat | n <= p < n + 1 ensures p !in failing { assert p == n; }
        }
        AllSucceedJoin(failing, n, 1, |rest.sent| - 1);
      }
    }
  }

  // ---------------------------------------------------------------- properties of update

  /** The delete phase is over before the first add: every add comes after the
      list and all the removals, which all succeeded; no list or removal follows
      an add. When the list or a removal fails, that failed request is the last
      one issued, it is what the "Updating Admin Roles" error reports, and no add
      was issued. */
  lemma UpdateDeletesBeforeAdding(targetType: string, targetId: string, r: seq<string>, listed: seq<Role>, n: nat,
                                  failing: set<nat>)
    ensures var run := UpdateRun(targetType, targetId, r, listed, n, failing);
      run.sent[0] == ListRequest(targetType, targetId) &&
      forall j :: 0 <= j < |listed| && j + 1 < |run.sent| ==>
        run.sent[j + 1] == RemoveRequest(targetType, targetId, listed[j].id)
    ensures var run := UpdateRun(targetType, targetId, r, listed, n, failing);
      forall i :: 0 <= i < |run.sent| && run.sent[i].verb == POST ==>
        i >= 1 + |listed| && AllSucceed(failing, n, 1 + |listed|)
    ensures var run := UpdateRun(targetType, targetId, r, listed, n, failing);
      forall i, j :: 0 <= i < j < |run.sent| && run.sent[i].verb == POST ==> run.sent[j].verb == POST
    ensures var run := UpdateRun(targetType, targetId, r, listed, n, failing);
      run.err.Some? && run.err.value.Wrapped? && run.err.value.context == UpdatingRoles ==>
        forall i :: 0 <= i < |run.sent| ==> run.sent[i].verb != POST
    ensures var run := UpdateRun(targetType, targetId, r, listed, n, failing);
      !AllSucceed(failing, n, 1 + |listed|) ==>
        run.err.Some? && run.err.value.Wrapped? && run.err.value.context == UpdatingRoles &&
        (forall i :: 0 <= i < |run.sent| ==> run.sent[i].verb != POST) &&
        n + |run.sent| - 1 in failing && AllSucceed(failing, n, |run.sent| - 1) &&
        RootCause(run.err.value) == RequestFailed(run.sent[|run.sent| - 1])
  {
    var d := DeleteRun(targetType, targetId, listed, n, failing);
    DeleteListsThenRemoves(targetType, targetId, listed, n, failing);
    DeleteStopsAtFailure(targetType, targetId, listed, n, failing);
    assert forall i :: 0 <= i < |d.sent| ==> d.sent[i].verb != POST by {
      forall i | 0 <= i < |d.sent| ensures d.sent[i].verb != POST {
        if i > 0 { assert d.sent[i] == RemoveRequest(targetType, targetId, listed[i - 1].id); }
      }
    }
    if d.err == None {
      var m := n + |d.sent|;
      var a := AssignRun(targetType, targetId, r, m, failing);
      AssignAddsInOrder(targetType, targetId, r, m, failing);
      AssignStopsAtFailedAdd(targetType, targetId, r, m, failing);
      var sent := d.sent + a.sent;
      assert UpdateRun(targetType, targetId, r, listed, n, failing).sent == sent;
      forall j | 0 <= j < |listed| && j + 1 < |sent|
        ensures sent[j + 1] == RemoveRequest(targetType, targetId, listed[j].id)
      {
        assert sent[j + 1] == d.sent[j + 1];
      }
      forall i | 0 <= i < |sent| && sent[i].verb == POST ensures i >= |d.sent| {
      }
      forall i, j | 0 <= i < j < |sent| && sent[i].verb == POST ensures sent[j].verb == POST {
        assert i >= |d.sent|;
        assert sent[j] == a.sent[j - |d.sent|];
      }
    }
  }

  /** An invalid desired name is reported only after the list, every removal
      and the adds of all the names before it succeeded: the trace is the list,
      one removal per listed role in list order, then one add per earlier name
      in order, and the name reported is the first invalid one. */
  lemma UpdateInvalidAfterDeletingAll(targetType: string, targetId: string, r: seq<string>, listed: seq<Role>,
                                      n: nat, failing: set<nat>)
    ensures var run := UpdateRun(targetType, targetId, r, listed, n, failing);
      run.err.Some? && run.err.value.InvalidRole? ==>
        var k := |run.sent| - 1 - |listed|;
        0 <= k < |r| && run.err.value.role == r[k] && r[k] !in ValidRoles &&
        (forall i :: 0 <= i < k ==> r[i] in ValidRoles) &&
        AllSucceed(failing, n, |run.sent|) &&
        run.sent[0] == ListRequest(targetType, targetId) &&
        (forall j :: 0 <= j < |listed| ==> run.sent[j + 1] == RemoveRequest(targetType, targetId, listed[j].id)) &&
        (forall i :: 0 <= i < k ==> run.sent[i + 1 + |listed|] == AddRequest(targetType, targetId, r[i]))
  {
    var d := DeleteRun(targetType, targetId, listed, n, failing);
    DeleteListsThenRemoves(targetType, targetId, listed, n, failing);
    if d.err == None {
      var m := n + |d.sent|;
      var a := AssignRun(targetType, targetId, r, m, failing);
      AssignStopsAtInvalid(targetType, targetId, r, m, failing);
      AssignAddsInOrder(targetType, targetId, r, m, failing);
      var run := UpdateRun(targetType, targetId, r, listed, n, failing);
      assert run.sent == d.sent + a.sent;
      if a.err.Some? && a.err.value.InvalidRole? {
        assert |d.sent| == 1 + |listed|;
        AllSucceedJoin(failing, n, |d.sent|, |a.sent|);
        forall i | 0 <= i < |a.sent| ensures run.sent[i + 1 + |listed|] == AddRequest(targetType, targetId, r[i]) {
          assert run.sent[i + 1 + |listed|] == a.sent[i];
        }
      }
    }
  }

  /** A failed add is reported only after the list and every removal succeeded:
      the trace is then the list, one removal per listed role by id in list
      order, and the adds of the first k + 1 names in order, of which only the
      last failed, and the error is the "Assigning Admin Roles" wrapper around it. */
  lemma UpdateStopsAtFailedAdd(targetType: string, targetId: string, r: seq<string>, listed: seq<Role>, n: nat,
                               failing: set<nat>)
    ensures var run := UpdateRun(targetType, targetId, r, listed, n, failing);
      run.err.Some? && run.err.value.Wrapped? && run.err.value.context == AssigningRoles ==>
        var k := |run.sent| - 2 - |listed|;
        0 <= k < |r| && |run.sent| == 2 + |listed| + k &&
        run.sent[0] == ListRequest(targetType, targetId) &&
        (forall j :: 0 <= j < |listed| ==> run.sent[j + 1] == RemoveRequest(targetType, targetId, listed[j].id)) &&
        (forall i :: 0 <= i <= k ==> run.sent[i + 1 + |listed|] == AddRequest(targetType, targetId, r[i])) &&
        n + |run.sent| - 1 in failing && AllSucceed(failing, n, |run.sent| - 1) &&
        run.err.value == Wrapped(AssigningRoles, targetType, RequestFailed(run.sent[|run.sent| - 1]))
  {
    UpdateFailedAddTrace(targetType, targetId, r, listed, n, failing);
    UpdateFailedAddCause(targetType, targetId, r, listed, n, failing);
  }

  /** The trace part of `UpdateStopsAtFailedAdd`: list, removals, then adds. */
  lemma UpdateFailedAddTrace(targetType: string, targetId: string, r: seq<string>, listed: seq<Role>, n: nat,
                             failing: set<nat>)
    ensures var run := UpdateRun(targetType, targetId, r, listed, n, failing);
      run.err.Some? && run.err.value.Wrapped? && run.err.value.context == AssigningRoles ==>
        |listed| + 2 <= |run.sent| <= |listed| + 1 + |r| &&
        run.sent[0] == ListRequest(targetType, targetId) &&
        (forall j :: 0 <= j < |listed| ==> run.sent[j + 1] == RemoveRequest(targetType, targetId, listed[j].id)) &&
        (forall i :: 0 <= i < |run.sent| - 1 - |listed| ==> run.sent[i + 1 + |listed|] == AddRequest(targetType, targetId, r[i]))
  {
    var run := UpdateRun(targetType, targetId, r, listed, n, failing);
    var d := DeleteRun(targetType, targetId, listed, n, failing);
    if d.err.None? {
      var a := AssignRun(targetType, targetId, r, n + |d.sent|, failing);
      assert run.sent == d.sent + a.sent && run.err == a.err;
      if a.err.Some? && !a.err.value.InvalidRole? {
        DeleteListsThenRemoves(targetType, targetId, listed, n, failing);
        AssignStopsAtFailedAdd(targetType, targetId, r, n + |d.sent|, failing);
        AssignAddsInOrder(targetType, targetId, r, n + |d.sent|, failing);
        assert |run.sent| == 1 + |listed| + |a.sent|;
        assert run.sent[0] == d.sent[0];
        forall j | 0 <= j < |listed| ensures run.sent[j + 1] == RemoveRequest(targetType, targetId, listed[j].id) {
          assert run.sent[j + 1] == d.sent[j + 1];
        }
        forall i | 0 <= i < |a.sent| ensures run.sent[i + 1 + |listed|] == AddRequest(targetType, targetId, r[i]) {
          assert run.sent[i + 1 + |listed|] == a.sent[i];
        }
      }
    }
  }

  /** The failure part of `UpdateStopsAtFailedAdd`: only the last request failed,
      and it is the one the error names. */
  lemma UpdateFailedAddCause(targetType: string, targetId: string, r: seq<string>, listed: seq<Role>, n: nat,
                             failing: set<nat>)
    ensures var run := UpdateRun(targetType, targetId, r, listed, n, failing);
      run.err.Some? && run.err.value.Wrapped? && run.err.value.context == AssigningRoles ==>
        |run.sent| > 0 && n + |run.sent| - 1 in failing && AllSucceed(failing, n, |run.sent| - 1) &&
        run.err.value == Wrapped(AssigningRoles, targetType, RequestFailed(run.sent[|run.sent| - 1]))
  {
    var run := UpdateRun(targetType, targetId, r, listed, n, failing);
    var d := DeleteRun(targetType, targetId, listed, n, failing);
    if d.err.None? {
      var a := AssignRun(targetType, targetId, r, n + |d.sent|, failing);
      assert run.sent == d.sent + a.sent && run.err == a.err;
      if a.err.Some? && !a.err.value.InvalidRole? {
        DeleteListsThenRemoves(targetType, targetId, listed, n, failing);
        AssignStopsAtFailedAdd(targetType, targetId, r, n + |d.sent|, failing);
        assert |run.sent| == |d.sent| + |a.sent|;
        assert run.sent[|run.sent| - 1] == a.sent[|a.sent| - 1];
        AllSucceedJoin(failing, n, |d.sent|, |a.sent| - 1);
      }
    }
  }

  /** Updating succeeds exactly when every desired name is valid and none of
      the list, the removals and the adds fails. */
  lemma UpdateSucceedsIff(targetType: string, targetId: string, r: seq<string>, listed: seq<Role>, n: nat,
                          failing: set<nat>)
    ensures var run := UpdateRun(targetType, targetId, r, listed, n, failing);
      run.err == None <==>
        (forall k :: 0 <= k < |r| ==> r[k] in ValidRoles) && AllSucceed(failing, n, 1 + |listed| + |r|)
  {
    var d := DeleteRun(targetType, targetId, listed, n, failing);
    DeleteListsThenRemoves(targetType, targetId, listed, n, failing);
    if d.err == None {
      var m := n + 1 + |listed|;
      AssignSucceedsIff(targetType, targetId, r, m, failing);
      if AllSucceed(failing, n, 1 + |listed| + |r|) {
        AllSucceedSplit(failing, n, 1 + |listed|, |r|);
      }
      if AllSucceed(failing, m, |r|) {
        AllSucceedJoin(failing, n, 1 + |listed|, |r|);
      }
    } else {
      assert !AllSucceed(failing, n, 1 + |listed| + |r|);
    }
  }

  /** A successful update is a full replace: the list, one removal per listed
      role in list order, then one add per desired name in order. */
  lemma UpdateSuccessIsFullReplace(targetType: string, targetId: string, r: seq<string>, listed: seq<Role>, n: nat,
                                   failing: set<nat>)
    ensures var run := UpdateRun(targetType, targetId, r, listed, n, failing);
      run.err == None ==>
        |run.sent| == 1 + |listed| + |r| &&
        run.sent[0] == ListRequest(targetType, targetId) &&
        (forall j :: 0 <= j < |listed| ==> run.sent[j + 1] == RemoveRequest(targetType, targetId, listed[j].id)) &&
        (forall k :: 0 <= k < |r| ==> run.sent[k + 1 + |listed|] == AddRequest(targetType, targetId, r[k]))
  {
    var d := DeleteRun(targetType, targetId, listed, n, failing);
    DeleteListsThenRemoves(targetType, targetId, listed, n, failing);
    var run := UpdateRun(targetType, targetId, r, listed, n, failing);
    if d.err == None && run.err == None {
      var m := n + 1 + |listed|;
      var a := AssignRun(targetType, targetId, r, m, failing);
      AssignSucceedsIff(targetType, targetId, r, m, failing);
      assert run.sent == d.sent + a.sent;
      forall j | 0 <= j < |listed| ensures run.sent[j + 1] == RemoveRequest(targetType, targetId, listed[j].id) {
        assert run.sent[j + 1] == d.sent[j + 1];
      }
      forall k | 0 <= k < |r| ensures run.sent[k + 1 + |listed|] == AddRequest(targetType, targetId, r[k]) {
        assert run.sent[k + 1 + |listed|] == a.sent[k];
      }
    }
  }

  /** A worked case: one existing `USER_ADMIN` assignment on group g1, desired
      `APP_ADMIN` and `READ_ONLY_ADMIN`, nothing fails. */
  lemma UpdateGroupExample()
    ensures UpdateRun("groups", "g1", ["APP_ADMIN", "READ_ONLY_ADMIN"], [Role("r1", "USER_ADMIN")], 0, {}) ==
      Run([Request(GET, "/api/v1/groups/g1/roles", None),
           Request(DELETE, "/api/v1/groups/g1/roles/r1", None),
           Request(POST, "/api/v1/groups/g1/roles", Some(Role("", "APP_ADMIN"))),
           Request(POST, "/api/v1/groups/g1/roles", Some(Role("", "READ_ONLY_ADMIN")))], None)
  {
    var list := Request(GET, "/api/v1/groups/g1/roles", None);
    var remove := Request(DELETE, "/api/v1/groups/g1/roles/r1", None);
    var add1 := Request(POST, "/api/v1/groups/g1/roles", Some(Role("", "APP_ADMIN")));
    var add2 := Request(POST, "/api/v1/groups/g1/roles", Some(Role("", "READ_ONLY_ADMIN")));
    assert RolesPath("groups", "g1") == "/api/v1/groups/g1/roles";
    assert RolePath("groups", "g1", "r1") == "/api/v1/groups/g1/roles/r1";
    var listed := [Role("r1", "USER_ADMIN")];
    assert listed[..0] == [];
    assert RemoveRun("groups", "g1", listed, 1, {}) == Run([remove], None);
    assert DeleteRun("groups", "g1", listed, 0, {}) == Run([list, remove], None);
    var desired := ["APP_ADMIN", "READ_ONLY_ADMIN"];
    assert desired[..1] == ["APP_ADMIN"] && desired[..1][..0] == [];
    assert AssignRun("groups", "g1", desired[..1], 2, {}) == Run([add1], None);
    assert AssignRun("groups", "g1", desired, 2, {}) == Run([add1, add2], None);
  }

  /** Validation is not done up front: with one existing assignment and the
      desired names `APP_ADMIN` then `NOT_A_ROLE`, the existing role is removed and
      `APP_ADMIN` added before `NOT_A_ROLE` is rejected. */
  lemma UpdateValidatesLate()
    ensures UpdateRun("users", "u1", ["APP_ADMIN", "NOT_A_ROLE"], [Role("r1", "USER_ADMIN")], 0, {}) ==
      Run([Request(GET, "/api/v1/users/u1/roles", None),
           Request(DELETE, "/api/v1/users/u1/roles/r1", None),
           Request(POST, "/api/v1/users/u1/roles", Some(Role("", "APP_ADMIN")))],
          Some(InvalidRole("NOT_A_ROLE")))
  {
    var list := Request(GET, "/api/v1/users/u1/roles", None);
    var remove := Request(DELETE, "/api/v1/users/u1/roles/r1", None);
    var add := Request(POST, "/api/v1/users/u1/roles", Some(Role("", "APP_ADMIN")));
    assert RolesPath("users", "u1") == "/api/v1/users/u1/roles";
    assert RolePath("users", "u1", "r1") == "/api/v1/users/u1/roles/r1";
    var listed := [Role("r1", "USER_ADMIN")];
    assert listed[..0] == [];
    assert RemoveRun("users", "u1", listed, 1, {}) == Run([remove], None);
    assert DeleteRun("users", "u1", listed, 0, {}) == Run([list, remove], None);
    var desired := ["APP_ADMIN", "NOT_A_ROLE"];
    assert desired[..1] == ["APP_ADMIN"] && desired[..1][..0] == [];
    assert AssignRun("users", "u1", desired[..1], 2, {}) == Run([add], None);
    assert "NOT_A_ROLE" !in ValidRoles;
    assert AssignRun("users", "u1", desired, 2, {}) == Run([add], Some(InvalidRole("NOT_A_ROLE")));
  }

  // ---------------------------------------------------------------- the procedures

  /** `ApiSupplement.AddAdminRole`: POST the role to the roles path. The query
      parameters are accepted and not used. */
  method AddAdminRole(client: ApiSupplement, targetType: string, targetId: string, body: Role, qp: Option<string>)
    returns (err: Option<Error>)
    modifies client
    ensures var req := Request(POST, RolesPath(targetType, targetId), Some(body));
      client.trace == old(client.trace) + [req] &&
      err == if |old(client.trace)| in client.failing then Some(RequestFailed(req)) else None
  {
    var req := Request(POST, RolesPath(targetType, targetId), Some(body));
    var ok := client.Execute(req);
    if !ok {
      return Some(RequestFailed(req));
    }
    return None;
  }

  /** `ApiSupplement.ListAssignedRolesToGroup`: GET the roles path. */
  method ListAssignedRolesToGroup(client: ApiSupplement, targetType: string, targetId: string, qp: Option<string>)
    returns (roles: Result<seq<Role>>)
    modifies client
    ensures var req := Request(GET, WithQuery(RolesPath(targetType, targetId), qp), None);
      client.trace == old(client.trace) + [req] &&
      roles == if |old(client.trace)| in client.failing then Err(RequestFailed(req)) else Ok(client.listed)
  {
    var req := Request(GET, WithQuery(RolesPath(targetType, targetId), qp), None);
    var ok := client.Execute(req);
    if !ok {
      return Err(RequestFailed(req));
    }
    return Ok(client.listed);
  }

  /** `ApiSupplement.RemoveAdminRoleHelper`: DELETE one assignment. */
  method RemoveAdminRoleHelper(client: ApiSupplement, targetType: string, targetId: string, roleId: string,
                               qp: Option<string>)
    returns (err: Option<Error>)
    modifies client
    ensures var req := Request(DELETE, WithQuery(RolePath(targetType, targetId, roleId), qp), None);
      client.trace == old(client.trace) + [req] &&
      err == if |old(client.trace)| in client.failing then Some(RequestFailed(req)) else None
  {
    var req := Request(DELETE, WithQuery(RolePath(targetType, targetId, roleId), qp), None);
    var ok := client.Execute(req);
    if !ok {
      return Some(RequestFailed(req));
    }
    return None;
  }

  /** `GetAdminRoles`: the listed roles keep only their type, in list order. */
  method GetAdminRoles(client: ApiSupplement, id: string, targetType: string) returns (result: Result<AdminRole>)
    modifies client
    ensures client.trace == old(client.trace) + [ListRequest(targetType, id)]
    ensures result.Err? <==> |old(client.trace)| in client.failing
    ensures result.Err? ==>
      result.error == Wrapped(GettingRoles, targetType, RequestFailed(ListRequest(targetType, id)))
    ensures result.Ok? ==>
      result.value.targetType == targetType && result.value.targetId == id &&
      |result.value.adminRoles| == |client.listed| &&
      forall i :: 0 <= i < |client.listed| ==> result.value.adminRoles[i] == Role("", client.listed[i].roleType)
  {
    var adminRoleList: seq<Role> := [];
    var values := ListAssignedRolesToGroup(client, targetType, id, None);
    if values.Err? {
      return Err(Wrapped(GettingRoles, targetType, values.error));
    }
    for i := 0 to |values.value|
      invariant |adminRoleList| == i
      invariant forall j :: 0 <= j < i ==> adminRoleList[j] == Role("", values.value[j].roleType)
    {
      adminRoleList := adminRoleList + [Role("", values.value[i].roleType)];
    }
    return Ok(AdminRole(adminRoleList, id, targetType));
  }

  /** `assignAdminRolesToGroup`: check and add the desired names one by one. */
  method AssignAdminRolesToGroup(client: ApiSupplement, targetType: string, targetId: string, r: seq<string>)
    returns (err: Option<Error>)
    modifies client
    ensures var run := AssignRun(targetType, targetId, r, |old(client.trace)|, client.failing);
      client.trace == old(client.trace) + run.sent && err == run.err
  {
    ghost var start := client.trace;
    for i := 0 to |r|
      invariant var run := AssignRun(targetType, targetId, r[..i], |start|, client.failing);
        client.trace == start + run.sent && run.err == None
    {
      var role := r[i];
      assert r[..i + 1][..i] == r[..i];
      if role in ValidRoles {
        var addErr := AddAdminRole(client, targetType, targetId, Role("", role), None);
        if addErr.Some? {
          AssignRunStops(targetType, targetId, r, i + 1, |start|, client.failing);
          return Some(Wrapped(AssigningRoles, targetType, addErr.value));
        }
      } else {
        AssignRunStops(targetType, targetId, r, i + 1, |start|, client.failing);
        return Some(InvalidRole(role));
      }
    }
    assert r[..|r|] == r;
    return None;
  }

  /** `deleteAdminRoles`: list the target's assignments and remove each by id. */
  method DeleteAdminRoles(client: ApiSupplement, targetType: string, targetId: string) returns (err: Option<Error>)
    modifies client
    ensures var run := DeleteRun(targetType, targetId, client.listed, |old(client.trace)|, client.failing);
      client.trace == old(client.trace) + run.sent && err == run.err
  {
    var roles := ListAssignedRolesToGroup(client, targetType, targetId, None);
    if roles.Err? {
      return Some(Wrapped(UpdatingRoles, targetType, roles.error));
    }
    ghost var listedAt := client.trace;
    assert listedAt == old(client.trace) + [ListRequest(targetType, targetId)] && roles.value == client.listed;
    for i := 0 to |roles.value|
      invariant var run := RemoveRun(targetType, targetId, roles.value[..i], |listedAt|, client.failing);
        client.trace == listedAt + run.sent && run.err == None
    {
      assert roles.value[..i + 1][..i] == roles.value[..i];
      var removeErr := RemoveAdminRoleHelper(client, targetType, targetId, roles.value[i].id, None);
      if removeErr.Some? {
        RemoveRunStops(targetType, targetId, roles.value, i + 1, |listedAt|, client.failing);
        ghost var rest := RemoveRun(targetType, targetId, roles.value, |listedAt|, client.failing);
        assert client.trace == old(client.trace) + ([ListRequest(targetType, targetId)] + rest.sent);
        return Some(Wrapped(UpdatingRoles, targetType, removeErr.value));
      }
    }
    assert roles.value[..|roles.value|] == roles.value;
    ghost var rest := RemoveRun(targetType, targetId, roles.value, |listedAt|, client.failing);
    assert client.trace == old(client.trace) + ([ListRequest(targetType, targetId)] + rest.sent);
    return None;
  }

  /** `updateAdminRoles`: remove every current assignment, then assign `r`. */
  method UpdateAdminRoles(client: ApiSupplement, targetType: string, targetId: string, r: seq<string>)
    returns (err: Option<Error>)
    modifies client
    ensures var run := UpdateRun(targetType, targetId, r, client.listed, |old(client.trace)|, client.failing);
      client.trace == old(client.trace) + run.sent && err == run.err
  {
    err := DeleteAdminRoles(client, targetType, targetId);
    if err.Some? {
      return Some(Wrapped(UpdatingRoles, targetType, err.value));
    }
    err := AssignAdminRolesToGroup(client, targetType, targetId, r);
  }
}
