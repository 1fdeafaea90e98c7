# Okta admin-role reconciliation, modelled in Dafny

This project models how the Terraform provider for Okta reconciles the admin
roles of a user or a group. It does this through its `ApiSupplement` client.

- `GetAdminRoles` reads the roles of a target.
- `assignAdminRolesToGroup` checks each desired role name against the eight role
  types Okta accepts and adds it.
- `deleteAdminRoles` lists the target's assignments and removes each by id.
- `updateAdminRoles` does a full replace: delete everything, then assign.
- `okta/group.go` holds an older copy of these procedures, specialised to
  groups, and `listGroupUserIds`.

The Okta server is not modelled. An `ApiSupplement` (module `Client`) records
every request it issues in `trace`: its verb, its path and its body. It answers
from two fixed inputs:

- `listed`: the roles every list request returns;
- `failing`: the trace positions whose request fails.

Each procedure is a method whose postcondition states its whole effect. It ties
the new trace and the returned error to a specification function of the
starting position and the oracle, such as `AssignRun`, `DeleteRun` or
`UpdateRun`. Each of these returns a `Run`: the requests issued, in order, and
the error or none. The lemmas then state what the procedures promise about
those functions:

- which requests are issued, in which order, and to which paths;
- where the loops stop;
- when a procedure succeeds;
- that validation is interleaved with the adds.

Errors are tagged values rather than message text:

- `RequestFailed(request)`;
- `InvalidRole(name)`;
- `Wrapped(context, target, cause)`, one value per `fmt.Errorf` wrapper.

The group copy is proved to issue exactly the requests of the generic code
with target type `groups` (`Group.GroupUpdateMatchesGeneric`). Its errors
differ only in wording (`Group.AsGroupError`):

- they name "Group" instead of "groups";
- a failed list or removal is wrapped once rather than twice.

Module layout:

- `client.dfy`: requests, roles, errors and the client class.
- `admin_roles.dfy`: `okta/admin_roles.go`.
- `group.dfy`: `okta/group.go`.

One point is easy to get wrong, and the model follows the code on it. The
desired role names are not all validated before the first remote call. The
code validates each name only when the loop reaches it. So when the update is
given an invalid name, it has already listed and removed every existing
assignment and added the valid names before that one. It then reports the
error (`AdminRoles.UpdateValidatesLate`,
`AdminRoles.UpdateInvalidAfterDeletingAll`).

## Model

| member | source | states |
|---|---|---|
| Client.ApiSupplement.Execute | okta/admin_roles.go:95-105 | building and sending a request appends it to the trace; it fails exactly when its trace position is a failing one |
| AdminRoles.GetAdminRoles | okta/admin_roles.go:17-36 | issues one list request; fails exactly when it fails, with a "Getting Admin Roles" error for the target type and no roles; otherwise one entry per listed role in list order, keeping only the role type, with target id and type echoed |
| AdminRoles.AddAdminRole | okta/admin_roles.go:92-106 | POSTs the given role to `/api/v1/{targetType}/{targetId}/roles`, without any query string; returns the request's failure |
| AdminRoles.ListAssignedRolesToGroup | okta/admin_roles.go:108-124 | GETs the roles path, with the query string appended only when parameters are given; returns the listed roles or the failure |
| AdminRoles.RemoveAdminRoleHelper | okta/admin_roles.go:126-141 | DELETEs `/api/v1/{targetType}/{targetId}/roles/{roleId}`, with the query string only when parameters are given |
| AdminRoles.RolePathExtendsRolesPath | okta/admin_roles.go:127 | no other assignment id gives the same removal path, so each removal addresses exactly one assignment of the target |
| AdminRoles.AssignRun | okta/admin_roles.go:38-55 | assigning issues at most one request per desired name, and exactly one per name when it succeeds |
| AdminRoles.AssignAdminRolesToGroup | okta/admin_roles.go:38-55 | the trace grows by exactly the requests of `AssignRun` and the error returned is its error |
| AdminRoles.AssignRunStops | okta/admin_roles.go:41-52 | once an invalid name or a failed add has stopped the loop, the later names issue nothing and change nothing |
| AdminRoles.AssignAddsInOrder | okta/admin_roles.go:41-48 | the i-th request is an add of the i-th desired name, which is one of the eight valid role types, with that name as the body's type |
| AdminRoles.AssignSucceedsIff | okta/admin_roles.go:39-54 | assigning succeeds if and only if every name is valid and no add fails; it has then added every name, in input order |
| AdminRoles.AssignStopsAtInvalid | okta/admin_roles.go:41-51 | an invalid-role error names the first name not added, which is invalid, and every earlier add succeeded |
| AdminRoles.AssignStopsAtFailedAdd | okta/admin_roles.go:44-48 | any other error is an "Assigning Admin Roles" error for the target type around the last request, which failed, and every earlier add succeeded |
| AdminRoles.AssignFirstInvalid | okta/admin_roles.go:41-51 | conversely, if the first invalid name is at position k and the k adds before it succeed, exactly those k adds are issued and that name is reported |
| AdminRoles.RemoveRun | okta/admin_roles.go:81-87 | the removal loop issues at most one request per listed role, and one per role when none fails |
| AdminRoles.RemoveRunStops | okta/admin_roles.go:81-87 | after a failed removal, the later roles issue nothing and change nothing |
| AdminRoles.RemoveInOrder | okta/admin_roles.go:81-87 | the i-th removal is addressed to the i-th listed role's id; all succeed if and only if none fails; a failed removal is the last request and is reported wrapped as "Updating Admin Roles" |
| AdminRoles.DeleteRun | okta/admin_roles.go:74-90 | deleting issues the list and at most one removal per listed role, exactly one each on success |
| AdminRoles.DeleteAdminRoles | okta/admin_roles.go:74-90 | the trace grows by exactly the requests of `DeleteRun` and the error returned is its error |
| AdminRoles.DeleteListsThenRemoves | okta/admin_roles.go:75-87 | the first request is the list; if it fails nothing else is issued; every later request removes the listed role at the same position by id; deleting succeeds if and only if none of the requests fails |
| AdminRoles.DeleteStopsAtFailure | okta/admin_roles.go:75-87 | when deleting fails, the failed list or removal is the last request issued, every earlier one succeeded, and the error is the "Updating Admin Roles" wrapper for the target type around that request |
| AdminRoles.UpdateRun | okta/admin_roles.go:58-72 | updating issues at least the list and at most one request per listed role and desired name, exactly that many on success |
| AdminRoles.UpdateAdminRoles | okta/admin_roles.go:58-72 | the trace grows by exactly the requests of `UpdateRun` and the error returned is its error |
| AdminRoles.UpdateDeletesBeforeAdding | okta/admin_roles.go:59-69 | the first request is the list, and each later request before the adds, at position j + 1, removes the j-th listed role by its id; every add comes after the list and all the removals, which all succeeded; no list or removal follows an add; an "Updating Admin Roles" error means no add was issued; if the list or a removal fails, no add is issued and the error's underlying failed request is the last request, every earlier one having succeeded |
| AdminRoles.UpdateInvalidAfterDeletingAll | okta/admin_roles.go:59-69 | an invalid-role error reports the first invalid desired name, at position k; the trace is then the list, one removal per listed role by id in list order, and one add per name before k in order, and every one of those requests succeeded |
| AdminRoles.UpdateSucceedsIff | okta/admin_roles.go:58-72 | updating succeeds if and only if every desired name is valid and none of the list, the removals and the adds fails |
| AdminRoles.UpdateSuccessIsFullReplace | okta/admin_roles.go:58-72 | on success the trace is exactly the list, one removal per listed role by id in list order, and one add per desired name in order |
| AdminRoles.UpdateStopsAtFailedAdd | okta/admin_roles.go:59-69 | an "Assigning Admin Roles" error comes only after the list and every removal: the trace is the list, one removal per listed role by id in order, and the adds of the first k + 1 desired names in order (k < number of names); only that last add failed, every earlier request succeeded, and the error wraps exactly that add |
| AdminRoles.UpdateGroupExample | okta/admin_roles.go:58-72 | group g1 holding one USER_ADMIN assignment, updated to APP_ADMIN and READ_ONLY_ADMIN: GET the roles, DELETE r1, POST both names, no error |
| AdminRoles.UpdateValidatesLate | okta/admin_roles.go:58-72 | user u1 holding one assignment, updated to APP_ADMIN and NOT_A_ROLE: the assignment is removed and APP_ADMIN added before NOT_A_ROLE is rejected |
| Group.ListGroupUserIds | okta/group.go:9-22 | on success the ids have the users' length and the i-th id is the i-th user's id; a listing error is returned unchanged |
| Group.AddRoleToGroup | okta/group.go:70-84 | POSTs the role to `/api/v1/groups/{groupId}/roles`, without any query string |
| Group.ListAssignedRolesToGroup | okta/group.go:86-102 | GETs the group's roles path, with the query string only when parameters are given |
| Group.RemoveRoleFromGroup | okta/group.go:104-119 | DELETEs `/api/v1/groups/{groupId}/roles/{roleId}`, with the query string only when parameters are given |
| Group.GroupPathsAreGenericPaths | okta/group.go:70-119 | the group paths and requests are the generic ones with target type `groups` |
| Group.GroupAssignRun | okta/group.go:24-42 | the group assign issues at most one add per desired name, exactly one per name on success |
| Group.GroupAssignRunStops | okta/group.go:28-38 | once the group assign has stopped, later names change nothing |
| Group.AssignAdminRolesToGroup | okta/group.go:24-42 | the trace grows by exactly the requests of `GroupAssignRun` and the error returned is its error |
| Group.GroupRemoveRun | okta/group.go:53-59 | the group removal loop issues at most one removal per listed role, one each when none fails |
| Group.GroupRemoveRunStops | okta/group.go:53-59 | after a failed group removal, later roles change nothing |
| Group.RemoveListedRoles | okta/group.go:53-59 | the trace grows by exactly the requests of `GroupRemoveRun` and the error returned is its error |
| Group.GroupUpdateRun | okta/group.go:45-68 | the group update issues the list, then at most one request per listed role and desired name, exactly that many on success |
| Group.UpdateAdminRolesOnGroup | okta/group.go:45-68 | the trace grows by exactly the requests of `GroupUpdateRun` and the error returned is its error |
| Group.AsGroupError | okta/group.go:34-57 | the group wording of an error keeps its underlying failed request or invalid name, whether it is wrapped, and the wrapper's context, and names "Group" as the target |
| Group.GroupAssignMatchesGeneric | okta/group.go:24-42 | the group assign issues exactly the requests of the generic assign for target type `groups`, with the same outcome in group wording |
| Group.GroupRemoveMatchesGeneric | okta/group.go:53-59 | the group removal loop issues exactly the requests of the generic one, with the same outcome in group wording |
| Group.GroupUpdateMatchesGeneric | okta/group.go:45-68 | the group update issues exactly the requests of `updateAdminRoles` for `groups`, and fails exactly when it does, with the same cause |
| Group.GroupAssignStopsAtFirstProblem | okta/group.go:26-38 | group adds are of valid names only, to the group's roles path, in input order; success if and only if all names are valid and no add fails; an invalid name is reported by name after the earlier adds succeeded; a failed add is the last request, reported as "Assigning Admin Roles to Group" |
| Group.GroupUpdateRemovesBeforeAdding | okta/group.go:47-61 | the group update lists first and issues nothing more when the list fails; every non-add after it removes the listed role at that position by id; every add comes after the list and all removals, which all succeeded; no removal follows an add; if the list or a removal fails, that request is the last one, every earlier one succeeded, no add is issued, and the error is "Updating Admin Roles On Group" around it; if an add fails, the trace is the list, every removal in order and the adds of the first k + 1 names in order, only the last add failed, and the error is "Assigning Admin Roles" with target "Group" around it; on success, exactly the list, every removal in order and every add in order |

## Left out

- `okta/resource_admin_roles.go` is not part of this model: it holds the Terraform schema and the CRUD callbacks that call these procedures.
- The SDK's `requestExecutor.NewRequest` and `Do`, JSON decoding and HTTP status handling are replaced by the client's oracle. A request that fails while being built is recorded in the trace like one that fails when sent; the oracle does not tell the two apart.
- `query.Params.String()` is taken as an opaque string. The procedures modelled here always pass no parameters.
- What the Okta server does in response is not modelled: whether an added role then appears, whether a removal is idempotent, and which ids it assigns. So nothing is proved about the target's final set of roles, only about the requests issued.
- Every list request returns the same `listed` roles. Each procedure lists at most once, so this loses nothing within one call.
- The exact text of the `fmt.Errorf` messages is not modelled. Errors are tagged with their wrapper's context and target.
- The role returned by `AddAdminRole` and `AddRoleToGroup`, and the `*okta.Response` values, are not modelled; every caller discards them.
- `contains` is not part of this model. It is taken as membership in the sequence of valid names.
- `getOktaClientFromMetadata` and the SDK call `Group.ListGroupUsers` are not modelled. `Group.ListGroupUserIds` takes that call's answer as its parameter, so its group-id parameter is not modelled either.
- Both files declare `assignAdminRolesToGroup` and `ApiSupplement.ListAssignedRolesToGroup` in one Go package, which cannot compile. They are modelled as two modules, `AdminRoles` and `Group`.
- Group.UpdateAdminRolesOnGroup: its removal loop is a separate method, `Group.RemoveListedRoles`. It issues the same requests and returns the same errors.
