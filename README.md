# BoardMaster-Pro backend core in Dafny

This project models the authorization core of the BoardMaster-Pro backend and
the handlers that depend on it.

- **Permission middleware.** `checkProjectAccess` resolves the project id, loads the caller's standing (owner, coarse role, bound custom role) and answers 400, 404 or 403. `requirePermission` is the first-match decision chain over the seven capabilities.
- **Team routes.** The members list, the roles list, the custom-role registry (create, partial update, delete) and membership management (add, partial update, remove).
- **Task, board and project routes.** Access is "owner or member of any role", with owner-only board delete, project update and project delete.
- **Auth routes.** Register with unique emails, login with one uniform failure, `/me`, and the partial profile update.
- **Default-role seeding.** Eight fixed custom roles, inserted if absent per (project, name).
- **Browser-side local project list.** Read with a default, append, filter-delete, and record construction.

The store is a class `Store.Database` with one map per table, from row id to row, plus a fresh-id counter `nextId`. That counter stands for the store's UUID generator. Its invariant `Valid()` holds the store's constraints:
- ids are issued below `nextId`;
- one membership per (project, user);
- the owner is never a member;
- role names are unique per project;
- emails are unique.

Each route handler is a method that changes only the tables it writes (`modifies db`roles, db`nextId`) and states its whole answer and its new state. The permission gate of the team routes is the function `Permissions.Authorize`, which is `checkProjectAccess` followed by `requirePermission`. The partial updates build their `SET` list step by step, as the handlers do. Applying that list is proved equal to a field-wise patch function. The lemmas about the patch functions state what the source promises.

Modules follow the source files:

| module | file |
|---|---|
| `Permissions` | `permissions.dfy` |
| `Team` | `team.dfy` |
| `Tasks` | `tasks.dfy` |
| `Boards` | `boards.dfy` |
| `Projects` | `projects.dfy` |
| `Auth` | `auth.dfy` |
| `DefaultRoles` | `default_roles.dfy` |
| `LocalProjectStorage` | `local_project_storage.dfy` |

`Store` holds the tables, `Rows` holds ordered listings (`ORDER BY`) and the `MAX + 1` position rule, and `Wrappers` holds `Option`, `Result` and `Outcome`.

Where the system's design description and the code disagree, the model follows the code:
- **Deleting a custom role.** This removes the role row only. The description says member references are cleared, but the code does not do that, and the schema that might cascade is not part of this model. `Permissions.DanglingRoleActsAsNoRole` shows that a dangling reference and a cleared one give the same decisions.
- **Duplicate role names.** A duplicate name on create is a 400 with its own message, not a distinct conflict status. A rename onto a taken name is not caught by the update handler, so it answers 500.
- **Order of checks in role update.** The empty patch (400) is checked before the role's existence (404).
- **Project id resolution.** The loader takes the project id only from `params.projectId`, then `params.id`, then `body.projectId`.
- **Task and project routes bypass the gate.** They never consult the permission chain, so viewers create, update and delete tasks. Admins and holders of `canManageProject` cannot update or delete a project.
- **Reachability.** The server mounts only the auth and project routers (`backend/src/server.ts:16-17`). The team, task and board handlers are modelled as written, with no claim that they are reachable.

## Model

| member | source | states |
|---|---|---|
| Permissions.LoadAccess | backend/src/middleware/permissions.ts:33-85 | no project id is a 400; the load succeeds exactly when the resolved project exists and the caller owns it or has a membership; `isOwner` holds iff the caller is the owner; the loaded role is `owner` iff `isOwner` |
| Permissions.RequirePermission | backend/src/middleware/permissions.ts:96-133 | every refusal of the chain is a 403 |
| Permissions.Authorize | backend/src/middleware/permissions.ts:27-133 | passing the gate implies the caller owns or belongs to the project |
| Permissions.AccessOnly | backend/src/middleware/permissions.ts:59-69 | the list routes' gate passes exactly for owners and members |
| Permissions.PermissionRequest.CheckProjectAccess | backend/src/middleware/permissions.ts:27-92 | on success records the project id and the loaded permissions on the request and continues; on failure answers the loader's error and leaves the request unchanged |
| Permissions.OwnerAllowedEverything | backend/src/middleware/permissions.ts:105-107 | the owner is allowed every capability, `isOwner` included |
| Permissions.AdminAllowedAllButOwnerOnly | backend/src/middleware/permissions.ts:110-117 | a non-owner admin is allowed exactly the capabilities other than `isOwner` |
| Permissions.NonOwnerDeniedOwnerOnly | backend/src/middleware/permissions.ts:115-117 | a non-owner is always denied `isOwner` with "Only project owner can perform this action" |
| Permissions.EditDeniedIffViewer | backend/src/middleware/permissions.ts:119-124 | for a non-owner non-admin `canEdit` is denied iff the role is viewer, whatever custom role is bound |
| Permissions.FlagAllowedIffBoundAndSet | backend/src/middleware/permissions.ts:127-133 | for a non-owner non-admin each fine-grained capability is allowed iff a custom role is bound and its flag is set; level and name play no part |
| Permissions.NotLoadedDenied | backend/src/middleware/permissions.ts:98-100 | without loaded permissions every capability is refused with "Permissions not loaded" |
| Permissions.ChainMatchesDesignOrder | backend/src/middleware/permissions.ts:102-133 | the chain decides exactly as an independent statement of the policy that tests `isOwner` first |
| Permissions.FlagsMonotone | backend/src/middleware/permissions.ts:127-131 | turning custom-role flags on never turns an allow into a deny |
| Permissions.BindingRoleMonotone | backend/src/middleware/permissions.ts:102-133 | binding a custom role never turns an allow into a deny |
| Permissions.DanglingRoleActsAsNoRole | backend/src/middleware/permissions.ts:75-84 | a membership pointing at a deleted role decides exactly as one without a role |
| Permissions.ProjectIdPrecedence | backend/src/middleware/permissions.ts:33 | the first present of `params.projectId`, `params.id`, `body.projectId` decides the load |
| Permissions.UnknownProjectIsNotFound | backend/src/middleware/permissions.ts:59-61 | a resolved id with no project row is a 404 "Project not found" |
| Permissions.OutsiderDenied | backend/src/middleware/permissions.ts:64-69 | a user neither owner nor member of an existing project gets 403 "Access denied to this project" from the loader and from every gate |
| Permissions.OwnerHasNoBoundRole | backend/src/middleware/permissions.ts:64-85 | the owner's permissions are `isOwner`, role `owner`, no custom role |
| Permissions.MemberPermissions | backend/src/middleware/permissions.ts:64-85 | a member's permissions are their membership's coarse role and the joined custom role, if the membership names one |
| Permissions.OwnerPassesEveryGate | backend/src/middleware/permissions.ts:105-107 | the owner passes every gate of their project |
| Permissions.RoleManagerScenario | backend/src/middleware/permissions.ts:110-133 | a member whose custom role grants only `canManageRoles` may manage roles and edit but not manage members or act as owner |
| Store.Utf16Length | backend/src/routes/auth.ts:13 | the length zod's `min` and `max` compare (JavaScript's UTF-16 `length`) lies between the number of characters and twice it, and is 0 only for the empty string |
| Store.BmpUtf16LengthIsSize | backend/src/routes/team.ts:12 | for text inside the Basic Multilingual Plane the UTF-16 length is the number of characters |
| Store.AstralCharsCountTwice | backend/src/routes/auth.ts:154-155 | three emoji are three characters but six UTF-16 code units, so they count as six against a `max` bound |
| Store.UserWithEmail | backend/src/routes/auth.ts:27-30 | finds a user row with the given email, or reports that none has it |
| Store.Database.MembershipOf | backend/src/middleware/permissions.ts:53 | finds the membership row of the user in the project, or reports that there is none |
| Rows.NextAfter | backend/src/routes/tasks.ts:84-88 | `COALESCE(MAX(position), -1) + 1`: 0 for no positions, otherwise one past the largest |
| Rows.Listing | backend/src/routes/boards.ts:35-38 | `SELECT ... WHERE ... ORDER BY key`: every kept row once, nothing else, ascending by key |
| Team.RoleUpdates | backend/src/routes/team.ts:145-192 | the SET list is empty iff the patch is, and applying it to any role is the field-wise patch |
| Team.PushFlagColumns | backend/src/routes/team.ts:164-188 | the five flag items extend the SET list to the whole patch |
| Team.SetColumnsIsPatch | backend/src/routes/team.ts:194-200 | applying a SET list to a row is applying the patch it amounts to, later items winning |
| Team.PatchOfColumnsEmpty | backend/src/routes/team.ts:190-192 | a SET list is empty iff the patch it amounts to is |
| Team.PatchRoleFacts | backend/src/routes/team.ts:143-200 | a role update keeps the project and creation time, is idempotent, and the empty patch changes nothing |
| Team.MemberRowReadsOnlyJoinedRows | backend/src/routes/team.ts:39-54 | a member row depends only on the member's user row (email, name, avatar, job title) and on the referenced role's name and description |
| Team.MemberList | backend/src/routes/team.ts:38-74 | the union: every joined membership of the project and the owner row, each once, and nothing else, by join time |
| Team.OwnerListedOnce | backend/src/routes/team.ts:56-72 | the owner appears exactly once, is the only row with role `owner`, and a null membership id marks exactly that row |
| Team.ListMembers | backend/src/routes/team.ts:34-83 | the gate is project access only; on access the answer is the members list |
| Team.ListRoles | backend/src/routes/team.ts:86-100 | the gate is project access only; the answer is the project's roles by creation time |
| Team.CreateRole | backend/src/routes/team.ts:103-137 | `canManageRoles` gate, then the schema (a name of 1 to 255 UTF-16 code units), then a 400 for a name the project already has; otherwise one new role row at a fresh id and nothing else changes |
| Team.RoleNamesArePerProject | backend/src/routes/team.ts:108-133 | creating a role in one project neither frees nor takes any name in another |
| Team.UpdateRole | backend/src/routes/team.ts:140-214 | gate, schema (a new name of 1 to 255 UTF-16 code units), empty patch 400, 404 for a role not in the project, 500 for a rename onto a taken name; otherwise exactly the patched role is written |
| Team.DeleteRole | backend/src/routes/team.ts:217-235 | gate, then 404 for a role not in the project; otherwise only that role row is removed |
| Team.AddMember | backend/src/routes/team.ts:238-299 | gate, email check, 404 for an unknown email, 400 for an existing member, 400 for the owner; otherwise one membership with the requested role (default member) and role id; uniqueness and owner exclusion are preserved |
| Team.MemberUpdates | backend/src/routes/team.ts:307-325 | the SET list is empty iff the patch is, and applying it is the field-wise patch |
| Team.PatchMemberFacts | backend/src/routes/team.ts:311-321 | a member update keeps the project, user and join time, is idempotent, and the empty patch changes nothing |
| Team.UpdateMember | backend/src/routes/team.ts:302-347 | gate, empty patch 400, 404 for a membership not in the project; otherwise exactly the patched membership is written |
| Team.RemoveMember | backend/src/routes/team.ts:350-368 | gate, then 404 for a membership not in the project; otherwise only that membership is removed |
| Tasks.ListTasks | backend/src/routes/tasks.ts:28-60 | 403 unless owner or member; otherwise exactly the tasks on the project's boards, by position |
| Tasks.CreateTask | backend/src/routes/tasks.ts:63-105 | schema, then 403 unless the caller may access the board; otherwise one new task at the next position of its board |
| Tasks.CreatedTaskGoesLast | backend/src/routes/tasks.ts:84-88 | the new task lies after every task of its board, directly after the last one |
| Tasks.FirstTaskAtZero | backend/src/routes/tasks.ts:84-88 | on an empty board the new task is at position 0 |
| Tasks.TaskUpdates | backend/src/routes/tasks.ts:130-172 | the SET list is empty iff the patch is, and applying it is the field-wise patch |
| Tasks.PushTaskPlacementColumns | backend/src/routes/tasks.ts:149-168 | the status, due date, board and position items extend the SET list to the whole patch |
| Tasks.SetTaskColumnsIsPatch | backend/src/routes/tasks.ts:134-176 | applying a SET list to a task is applying the patch it amounts to |
| Tasks.PatchTaskFacts | backend/src/routes/tasks.ts:130-176 | a task update keeps the author, is idempotent, and the empty patch changes nothing |
| Tasks.UpdateTask | backend/src/routes/tasks.ts:108-190 | schema, then 403 for a task the caller may not access (missing included), then the empty patch 400; otherwise exactly the patched task is written |
| Tasks.DeleteTask | backend/src/routes/tasks.ts:193-223 | a missing task and an inaccessible one give the same 403 and change nothing; otherwise only that task is removed |
| Tasks.ViewerMayWriteTasks | backend/src/routes/tasks.ts:113-128 | a viewer without a custom role may access every task of the project although the gate refuses them editing and task deletion |
| Boards.ListBoards | backend/src/routes/boards.ts:16-45 | 403 unless owner or member; otherwise exactly the project's boards, by position |
| Boards.CreateBoard | backend/src/routes/boards.ts:48-90 | schema, then 403 unless owner or member; otherwise one new board at the given position or one past the project's last |
| Boards.CreatedBoardGoesLast | backend/src/routes/boards.ts:67-75 | without a given position the new board lies after every board of the project |
| Boards.DeleteBoard | backend/src/routes/boards.ts:93-119 | only the project's owner deletes a board; a missing board is the same 403 |
| Boards.MembersCannotDeleteBoards | backend/src/routes/boards.ts:98-112 | no member, admins included, is the owner of the board's project |
| Projects.DetailReadsOnlyOwnerRow | backend/src/routes/projects.ts:52-56 | the left join reads only the owner's row: two users tables give the same detail exactly when both have or both lack the owner's row and agree on its email and name |
| Projects.MemberCount | backend/src/routes/projects.ts:27 | `member_count` counts the owner, so it is at least 1 |
| Projects.ListProjects | backend/src/routes/projects.ts:21-44 | every visible project once with its detail and count, nothing else, newest first |
| Projects.SummarisedListing | backend/src/routes/projects.ts:23-36 | summarising the ordered visible projects answers the list query |
| Projects.MemberCountIsParties | backend/src/routes/projects.ts:27 | `member_count` equals the number of distinct people of the project, the owner included |
| Projects.GetProject | backend/src/routes/projects.ts:47-74 | a missing project and one the caller may not see give the same 404; otherwise its detail |
| Projects.SeededCount | backend/src/routes/projects.ts:97-102 | a seeding run attempts at most the eight default templates, all of them when nothing fails; only for a project with no roles yet is every attempt an insert (see Projects.FreshSeedingIsExact) |
| Projects.InsertProject | backend/src/routes/projects.ts:81-84 | the project row takes a fresh id and the store invariant is kept |
| Projects.InsertDefaultBoards | backend/src/routes/projects.ts:86-94 | the boards "To Do", "In Progress", "Done" at positions 0, 1, 2 of the new project take the next three fresh ids, and the store invariant is kept |
| Projects.CreateProject | backend/src/routes/projects.ts:77-112 | empty name is invalid and changes nothing; a failing boards insert answers 500 and leaves the project row without boards or roles (no transaction); otherwise the project is owned by the caller, gets "To Do", "In Progress", "Done" at 0, 1, 2 and the seeded roles, and creation succeeds even when seeding fails |
| Projects.DefaultPrefixDistinct | backend/src/db/seedDefaultRoles.ts:4-85 | any prefix of the default templates, the part a seeding run that stops early inserts, has pairwise distinct names |
| Projects.FreshSeedingIsExact | backend/src/routes/projects.ts:96-102 | seeding a project with no roles using distinct names adds one row per template at consecutive ids, the project gets no other roles, and existing rows are kept |
| Projects.ProjectUpdates | backend/src/routes/projects.ts:130-148 | the SET list is empty iff the patch is, and applying it is the field-wise patch |
| Projects.PatchProjectFacts | backend/src/routes/projects.ts:134-144 | a project update keeps the owner and creation time, is idempotent, and the empty patch changes nothing |
| Projects.UpdateProject | backend/src/routes/projects.ts:115-164 | schema, then 403 for anyone but the owner (missing project included), then the empty patch 400; otherwise only name and description change |
| Projects.DeleteProject | backend/src/routes/projects.ts:167-186 | only the owner deletes; a missing project and a non-owner both get 403 and nothing changes |
| Projects.ProjectManagersCannotChangeProject | backend/src/routes/projects.ts:120-128 | an admin or `canManageProject` holder passes that capability's gate yet is never the owner, so update and delete refuse them |
| Auth.RegisteredUserIsFoundByEmail | backend/src/routes/auth.ts:27-43 | inserting a user whose email no row has keeps emails unique, and the lookup by email (the one login runs, auth.ts:83-86) then finds exactly the new row |
| Auth.Register | backend/src/routes/auth.ts:22-76 | schema (email, password of at least 6 UTF-16 code units); 400 "User already exists" for a taken email with no user added; otherwise one new user at a fresh id and a token for that id |
| Auth.Authenticate | backend/src/routes/auth.ts:83-99 | the credentials identify a user only if the email matches and the password checks against that user's hash |
| Auth.AuthenticateIffCredentialsMatch | backend/src/routes/auth.ts:83-99 | with unique emails, login succeeds iff some user has the email and a hash the password checks against |
| Auth.RegisteredUserCanLogIn | backend/src/routes/auth.ts:37-43 | a freshly registered user is identified by their email and password when the hash checks against it |
| Auth.Login | backend/src/routes/auth.ts:78-122 | an unknown email and a wrong password give the identical 401 "Invalid credentials"; success returns the identified user and a token |
| Auth.ProfileIsRowWithoutHash | backend/src/routes/auth.ts:126-144 | the profile is the user row without its password hash: two rows show the same profile exactly when they differ in the hash at most |
| Auth.Me | backend/src/routes/auth.ts:124-149 | 404 "User not found" for an id with no row; otherwise the profile |
| Auth.ProfileUpdates | backend/src/routes/auth.ts:162-192 | the SET list is empty iff the patch is, and applying it is the field-wise patch |
| Auth.SetProfileColumnsIsPatch | backend/src/routes/auth.ts:166-198 | applying a SET list to a user is applying the patch it amounts to |
| Auth.PatchOfProfileColumnsEmpty | backend/src/routes/auth.ts:190-192 | a SET list is empty iff the patch it amounts to is |
| Auth.PatchProfileFacts | backend/src/routes/auth.ts:162-198 | a profile update keeps email, hash and creation time, is idempotent, and the empty patch changes nothing |
| Auth.UpdateProfile | backend/src/routes/auth.ts:158-217 | schema (name non-empty, URL, bio up to 500 and job title up to 100 UTF-16 code units), empty patch 400, 500 for a missing row; otherwise only the caller's row gets the supplied fields |
| DefaultRoles.DefaultsShape | backend/src/db/seedDefaultRoles.ts:4-85 | eight templates; Scrum Master full with all flags; Product Owner full with only task assignment and project management; the other six with no flags; names pairwise distinct |
| DefaultRoles.SeedDefaultRoles | backend/src/db/seedDefaultRoles.ts:87-111 | the loop's state is the templates inserted in order, each only if its name is absent, stopping at a failing insert and passing the error on |
| DefaultRoles.InsertTemplates | backend/src/db/seedDefaultRoles.ts:87-111 | the loop over a template list: the state after it is the templates inserted in order up to the failing statement, which is reported, and the store invariant is kept |
| DefaultRoles.InsertRole | backend/src/db/seedDefaultRoles.ts:88-106 | one insert with `ON CONFLICT (project_id, name) DO NOTHING`: the row is added under a fresh id only if the project has no role of that name, and names stay unique |
| DefaultRoles.SeededOnlyAdds | backend/src/db/seedDefaultRoles.ts:88-106 | seeding keeps every existing row, a clashing one with its flags; new rows take fresh ids and belong to the seeded project |
| DefaultRoles.SeededHasAllNames | backend/src/db/seedDefaultRoles.ts:88-106 | after seeding the project has a role of every template's name |
| DefaultRoles.SeedingPresentNamesIsNoOp | backend/src/db/seedDefaultRoles.ts:93 | when every name is present seeding changes nothing |
| DefaultRoles.SeedingIsIdempotent | backend/src/db/seedDefaultRoles.ts:88-106 | seeding twice equals seeding once |
| DefaultRoles.SeedingFreshProjectAddsAll | backend/src/db/seedDefaultRoles.ts:88-106 | a project without roles gets exactly one row per template at consecutive ids |
| LocalProjectStorage.WithoutId | src/utils/localProjectStorage.ts:39 | the filter keeps exactly the entries of another id |
| LocalProjectStorage.WithoutIdAppend | src/utils/localProjectStorage.ts:36-40 | filtering distributes over concatenation, so kept entries stay in order |
| LocalProjectStorage.DeleteAbsentIsNoOp | src/utils/localProjectStorage.ts:36-40 | deleting an id no entry has changes nothing |
| LocalProjectStorage.DeleteIsIdempotent | src/utils/localProjectStorage.ts:36-40 | deleting twice is deleting once |
| LocalProjectStorage.SaveThenDeleteRestores | src/utils/localProjectStorage.ts:26-44 | saving a fresh id and deleting it restores the list |
| LocalProjectStorage.LocalStore.GetLocalProjects | src/utils/localProjectStorage.ts:16-24 | reads the stored list, empty when nothing is stored or parsing fails |
| LocalProjectStorage.LocalStore.SaveLocalProject | src/utils/localProjectStorage.ts:26-34 | the list read with the project appended is written back; a refused write changes nothing |
| LocalProjectStorage.LocalStore.DeleteLocalProject | src/utils/localProjectStorage.ts:36-44 | the list read without that id is written back; a refused write changes nothing |
| LocalProjectStorage.Decimal | src/utils/localProjectStorage.ts:49 | the decimal text of the milliseconds is a non-empty string of digits |
| LocalProjectStorage.DecimalRoundTrip | src/utils/localProjectStorage.ts:49 | reading back the decimal text gives the number |
| LocalProjectStorage.LocalId | src/utils/localProjectStorage.ts:49 | a local id begins with "local-" |
| LocalProjectStorage.LocalIdsDifferByTime | src/utils/localProjectStorage.ts:49 | ids made at different milliseconds differ whatever their random suffixes |
| LocalProjectStorage.LocalProjectsDifferByTime | src/utils/localProjectStorage.ts:46-57 | two local projects created at different milliseconds have different ids, so deleting one by id keeps the other |

## Left out

- SQL text, `$n` parameter numbering and the `values` arrays: only the effect of each statement is modelled.
- Concurrency: the check-then-insert of add member and the `MAX + 1` position reads are racy under concurrent requests; the model is sequential.
- Clocks, UUIDs and randomness: timestamps are `now` parameters, UUIDs are the `nextId` counter, and the random id suffix and milliseconds of local projects are parameters.
- bcrypt, JWT and zod's email and URL checks: these are function parameters (`hash`, `verify`, `sign`, `isEmail`, `isUrl`). A malformed UUID in a path or body, which Postgres rejects with a 500, is not modelled; ids are numbers.
- The welcome project created at registration is not part of this model; its failure is swallowed, so the registration answer does not depend on it.
- Auth.Register: changes only the users table, not the projects, boards and tasks the welcome project adds.
- Foreign keys: an owner, board or custom role id that names no row is accepted by the model, where the store would answer 500. That covers the caller of project creation, a task's new board and a membership's role id.
- Cascades of the schema: deleting a project, board or custom role removes that row only. Rows that reference it stay, and the list queries' joins skip them.
- Projects.ListProjects: rows with equal creation times come in the order of project ids, where the store gives no order; the contract only requires descending creation time.
- Team.MemberList: ties in join time are ordered by the sort, where the store gives no order; the contract only requires ascending join time.
- Error lists of schema failures: every schema failure is the single value `Invalid`.
- JSON encoding of the local project list: text that parses to something other than a list of projects is not modelled; `Corrupt` stands for text that does not parse.
- Store errors in general: every handler answers 500 for any error the store raises. The model has only the ones it names: the failing boards insert of project creation, role seeding, the rename onto a taken role name and the missing profile row. Among the rest are a `position` above the range of Postgres `integer`, which the schema's `z.number().int().min(0)` does not bound (tasks.ts:24, boards.ts:12); positions are unbounded in the model.
- Projects.ListProjects: `member_count` is a Postgres `bigint`, which the driver sends as a JSON string such as "3"; the model gives it as a number.
- The response bodies' extra fields (the added member's user object, the full rows `RETURNING *` gives) are modelled as the new row or its id.
