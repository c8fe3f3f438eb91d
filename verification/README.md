# Proofs about the access-control backend

The backend signs users in, keeps their sessions, decides what they may do, and keeps an audit
trail; a script beside it applies database migrations. These files model its logic in Dafny and
prove what each piece is for.

A repository call is one atomic change of a table, and a table is a map from row ids to rows.
A service call is a function from the tables and the request to the new tables and the outcome;
where the source is a class that writes rows, a class with the same fields carries it out
statement by statement and every method is proved to compute that function. The theorems are then
about every sequence of requests, or, for refresh tokens, about every interleaving of steps.

| file | what it holds |
|---|---|
| `AuthModel.dfy`, `AuthService.dfy` | sessions and sign-in: requests as functions, and as a class over the tables |
| `AuthMeaning.dfy` | what each of those requests does, told in the fields of the tables |
| `AuthHistory.dfy` | which tokens are accepted, told from the history of a run |
| `Rotation.dfy` | refresh, sign-in, logout and revocation interleaved step by step |
| `Lockout.dfy` | failed logins over time, and the bound on them |
| `BulkStatus.dfy` | the bulk status update as single ones |
| `Links.dfy`, `RbacModel.dfy`, `RbacInvariant.dfy`, `AccessService.dfy` | roles, groups, modules, permissions: requests, what all of them keep, and the class |
| `RbacMeaning.dfy` | what each of those requests does, told in the tables |
| `RequestFrames.dfy` | which tables and rows a request can change |
| `EffectiveAccess.dfy`, `AccessChanges.dfy`, `Grants.dfy` | the queries on them, what requests do to a user's access, and batches |
| `TenantIsolation.dfy`, `Confinement.dfy`, `TenantEscape.dfy` | requests that carry a tenant's scope, whose requests carry it, and when its callers can get out |
| `RoleCodes.dfy`, `RoleClaim.dfy` | the role claim of a session |
| `JsNumber.dfy`, `Crc32.dfy`, `Migrations.dfy` | the migration script: JavaScript's 32-bit operators, the checksum, the runner |
| `LikeSearch.dfy`, `CsvExport.dfy`, `Paging.dfy` | search, export and pages of the audit trail |
| `Branches.dfy` | branches of a tenant |

## What the proofs found

- A caller's scope is read off the role claim of its token, and a confined caller's requests can
  change that claim: it may create a role of its tenant coded `ADMIN`, since no code is reserved, or
  take an ACTIVE global one, and give it to itself (`TenantEscape.TwoRequestsMakeAdmin`,
  `TenantEscape.AssignmentMakesAdmin`). `TenantEscape.CallersStayConfinedIff` and
  `TenantEscape.OutsidersAreSafeIff` give the exact condition on the tables under which the callers
  of a tenant stay confined, and users outside are safe from them, in every run: no such role may be
  within the tenant's reach, and no such code free in it.
- The module service asks for no scope, so any caller who deletes a module takes its permissions from
  users of every tenant (`TenantEscape.ModuleDeletionReachesOutsideIff`).
- `BranchesService.escapeLike` replaces each special character by a backslash and the two
  characters `$1`, since its pattern has no capture group. `LikeSearch.BranchSearchCorrectIffPlain`
  shows that the search is right exactly for texts without `%`, `_` and `\`, and
  `LikeSearch.BranchSearchFindsWanted` says what it finds otherwise.
- A revoke-all is final only if no sign-in of the user, and no refresh past its conditional update,
  is in flight (`Rotation.RevokeAllIsFinalIff`).
- Setting a user's role by code does nothing when the user once had that role and lost it
  (`AccessChanges.RoleByCodeGivenIff`).
- No request makes a role `SUSPENDED`, so switching a reachable role to INACTIVE and back restores
  every table (`AccessChanges.RoleStatusRestoresOnRuns`). A row written as `SUSPENDED` outside the
  services could not be switched back, because a role request accepts only `ACTIVE` and `INACTIVE`
  (`AccessChanges.RoleStatusRestoresIff`).
- If two migration files share a version, an empty database records both, because the applied
  versions are read once before the loop (`Migrations.RecordedOnceIffDistinct`); a process that dies
  after a script and before its history row makes the next run execute that script again
  (`Migrations.CutInsideRunsScriptTwice`).
- The failure counter is not cleared when a lock runs out, so every later wrong password locks again
  at once; the resulting bound on attempts is exact: possible runs meet it (`Lockout.BoundIsAttained`).

## Model

Every request has a lemma `…Means` that tells its outcomes and its effect in the fields of the tables
before and after it, apart from the function that computes it. The store method of the request
ensures the same and keeps the invariant; store methods have rows of their own where their code does
more than that function's branches.

| member | source | states |
|---|---|---|
| Rotation.RotationSafety | src/auth/auth.service.ts:202-232 | after any interleaving of reads, conditional updates, inserts, logouts, terminations, revoke-alls and deaths: no session row has two successors, the rows of one sign-in form an unforked chain with at most one unrevoked row, and all keep its user and rememberMe flag |
| Rotation.RevokeAllIsFinalIff | src/users/users.service.ts:708-721 | after a revoke-all, no later steps short of a new sign-in give the user an unrevoked session, if and only if no sign-in of theirs and no refresh past its conditional update was in flight |
| Rotation.RunKeepsSound | src/auth/auth.service.ts:395-449 | every interleaving keeps: a replaced row is revoked and older than its successor, and a rotated row has no successor and one request about to give it one |
| Rotation.RefreshIsThreeSteps | src/auth/auth.service.ts:202-232 | a refresh that nothing interrupts, taken step by step, is the whole refresh request |
| Rotation.RefusedRefreshStops | src/auth/auth.service.ts:186-213 | a refresh that is refused takes no step |
| Rotation.LoginIsThreeSteps | src/auth/auth.service.ts:176-181 | so is a successful login, saved row and inserted session |
| Rotation.LogoutIsTwoSteps | src/auth/auth.service.ts:235-254 | so is a logout |
| Rotation.TerminationIsTwoSteps | src/users/users.service.ts:402-429 | so is the termination of one session |
| Rotation.TerminateAllIsOneStep | src/users/users.service.ts:431-440 | and terminating all of a user's sessions is one step |
| AuthHistory.AcceptedIff | src/auth/jwt.strategy.ts:36-65 | after any run of requests an access token is accepted exactly when it was issued and is unexpired, its session was not closed and its owner's sessions were not all revoked since it was created, the session is unexpired, and the owner is live and ACTIVE |
| AuthHistory.FiltersAgree | src/auth/auth.service.ts:220-252 | in every reachable state the filters by is_active, by isRevoked and by both select the same session rows |
| AuthHistory.RevocationPermanent | src/users/users.service.ts:424-440 | once revoked, a session is accepted neither by the guard nor by refresh after any further requests |
| AuthHistory.HashNamesRow | src/auth/auth.service.ts:202-213 | in every reachable state the row found by a token's hash is the row the token was issued for |
| AuthHistory.HandleKeepsCoherent | src/auth/auth.service.ts:395-449 | every request keeps live names unique, sessions active exactly when unrevoked, and issued tokens tied to their row and user |
| AuthMeaning.UnrevokedAreActive | src/users/users.service.ts:708-721 | in coherent tables the bulk update by is_active reaches every unrevoked session |
| AuthMeaning.LoginMeans | src/auth/auth.service.ts:120-181 | tokens are issued exactly when a live user of that name is not locked, is ACTIVE and has that password; then the lockout is cleared and one session of the flag and lifetime asked for is inserted; a locked account answers its lock and changes nothing; a wrong attempt counts one failure, from the fifth on locks for half an hour, and opens no session; nobody else's row changes |
| AuthMeaning.RefreshMeans | src/auth/auth.service.ts:183-233 | tokens are issued exactly for an issued, unexpired refresh token whose row is unrevoked and unexpired and whose owner is live, ACTIVE and of that name; the successor has the row's user, the token's rememberMe flag and the lifetime configured for it, the old row is revoked and everything else stays; a refusal changes nothing |
| AuthMeaning.RegisterMeans | src/auth/auth.service.ts:63-118 | the answers for names and mail addresses in use and for unknown tenants, and the user row and session a registration adds |
| AuthMeaning.CreateUserMeans | src/users/users.service.ts:152-202 | the answers in order, the limit on live users included, and the one row added |
| AuthMeaning.UpdateUserMeans | src/users/users.service.ts:204-244 | it succeeds exactly for a live user in scope whose new mail address no live user has; only the address and a given status are written, and no session or lockout changes |
| AuthMeaning.ChangePasswordMeans | src/auth/auth.service.ts:256-305 | it succeeds exactly for a valid token, the right current password and a complex new one that differs; only the password and the owner's sessions, all revoked, change |
| AuthMeaning.ComplexIff | src/auth/auth.service.ts:373-383 | the five complexity rules: eight characters, an upper-case letter, a lower-case letter, a digit and something else |
| AuthMeaning.UpdateStatusMeans | src/users/users.service.ts:246-264 | what `AuthStore.UpdateStatus` ensures, of the request |
| AuthMeaning.BulkUpdateStatusMeans | src/users/users.service.ts:266-311 | what `AuthStore.BulkUpdateStatus` ensures, of the request |
| AuthMeaning.LogoutMeans | src/auth/auth.service.ts:235-254 | what `AuthStore.Logout` ensures, of the request |
| AuthMeaning.ResetPasswordMeans | src/users/users.service.ts:313-328 | what `AuthStore.ResetPassword` ensures, of the request |
| AuthMeaning.DeleteMeans | src/users/users.service.ts:330-343 | what `AuthStore.Delete` ensures, of the request |
| AuthMeaning.TerminateSessionMeans | src/users/users.service.ts:402-429 | what `AuthStore.TerminateSession` ensures, of the request |
| AuthMeaning.TerminateAllMeans | src/users/users.service.ts:431-440 | what `AuthStore.TerminateAllSessions` ensures, of the request |
| AuthServices.AuthStore.Login | src/auth/auth.service.ts:120-181 | the code computes the login transition and has the effect `AuthMeaning.LoginMeans` tells |
| AuthServices.AuthStore.Refresh | src/auth/auth.service.ts:183-233 | the code finds the row by hash, revokes it conditionally and inserts the successor, with the effect `AuthMeaning.RefreshMeans` tells |
| AuthServices.AuthStore.ChangePassword | src/auth/auth.service.ts:256-299 | it succeeds exactly for a valid token, the right current password and a complex new one that differs; then the new password is set and every session of the user, the asking one included, is revoked while nobody else's row or session changes; a refusal changes nothing |
| AuthServices.AuthStore.BulkUpdateStatus | src/users/users.service.ts:266-311 | the loop over the loaded users writes the status of exactly the live users in scope among the ids, with the same effect on each, and returns their number |
| AuthServices.AuthStore.TerminateSession | src/users/users.service.ts:402-422 | it succeeds exactly for a session of a live user who is of the caller's tenant or of none; that session is revoked, none of its tokens is accepted and every other row stays |
| AuthServices.AuthStore.Logout | src/auth/auth.service.ts:235-254 | an issued refresh token closes its session, found by hash, and nothing else; any other token changes nothing |
| AuthServices.AuthStore.BuildSession | src/auth/auth.service.ts:395-449 | two tokens of the flag asked for are issued with the configured lifetimes, the new row carries the refresh token's hash and expiry, every other row stays, and for a usable user both tokens are accepted at once |
| AuthServices.AuthStore.UpdateStatus | src/users/users.service.ts:246-264 | it succeeds exactly for a live user in scope: the status is written, ACTIVE clears the lockout, LOCKED and INACTIVE sign the user out, and every other field, user and session stays; a refusal changes nothing |
| AuthServices.AuthStore.ResetPassword | src/users/users.service.ts:313-328 | it succeeds exactly for a live user in scope: the password is set, every session of the user is revoked, and nothing else changes; a refusal changes nothing |
| AuthServices.AuthStore.Delete | src/users/users.service.ts:330-343 | it succeeds exactly for another live user in scope, who is deleted and signed out while nothing else changes; a refusal changes nothing |
| AuthServices.AuthStore.TerminateAllSessions | src/users/users.service.ts:431-440 | for a live user in scope every session is revoked, nothing else changes, and the count is the number of those that were unrevoked before |
| Lockout.RunKeepsLocks | src/auth/auth.service.ts:130-178 | in every reachable state an account has a lock time exactly when its failure counter is at least five |
| Lockout.LockoutEffect | src/users/users.service.ts:254-257 | success and ACTIVE updates clear the lockout, an evaluated wrong password counts, and no other request touches it |
| Lockout.AttemptsAreBounded | src/auth/auth.service.ts:49-50 | from a cleared account, over any run without a clearing request, evaluated attempts number at most 5 + floor(D / 1800000) |
| Lockout.BoundIsAttained | src/auth/auth.service.ts:130-178 | for every n from five on there is a possible run, with a forward clock and without a clearing request, of n evaluated wrong passwords that meets the bound |
| BulkStatus.BulkRefinesSingles | src/users/users.service.ts:266-311 | the bulk update leaves the tables as single updates over the same live in-scope ids do, in any order and with any repetition |
| BulkStatus.BulkTouchesTargetsOnly | src/users/users.service.ts:308-310 | it returns the number of distinct live in-scope ids and changes nobody else's row or sessions |
| RbacInvariant.RunKeepsValid | src/modules/modules.service.ts:176-215 | every run keeps: a live grant names a live permission and a live permission a live module; permission codes and operations, module, role and group codes are unique over deleted rows too; one link row per pair; live memberships and role links stay within their tenant |
| RbacInvariant.ModuleDeleteKeepsValid | src/modules/modules.service.ts:180-213 | the two-level cascade leaves no live grant of a deleted permission and no live permission of the deleted module |
| RbacInvariant.PermissionKeepsValid | src/permissions/permissions.service.ts:104-178 | create, update (also to another module) and delete keep the invariant; delete can because it refuses a permission with live grants |
| RbacInvariant.GroupKeepsValid | src/groups/groups.service.ts:146-298 | group requests keep live memberships and roles inside the group's tenant and off deleted groups |
| RbacMeaning.CreateModuleMeans | src/modules/modules.service.ts:133-155 | it succeeds exactly for a code no row has and a status ACTIVE, INACTIVE or none; one row of that code and status is added |
| RbacMeaning.UpdateModuleMeans | src/modules/modules.service.ts:157-174 | it succeeds exactly for a live module that is no system module and such a status, which alone is written |
| RbacMeaning.DeleteModuleMeans | src/modules/modules.service.ts:176-215 | it succeeds exactly for a live module that is no system module; it, its permissions and their live grants are marked deleted, and no other row changes |
| RbacMeaning.CreatePermissionMeans | src/permissions/permissions.service.ts:104-128 | it succeeds exactly for a live module, a code no row has and an operation no row of the module has; one row of these is added |
| RbacMeaning.UpdatePermissionMeans | src/permissions/permissions.service.ts:130-156 | it succeeds exactly for a live permission, a live module and a code and operation no other row has; that row gets them |
| RbacMeaning.DeletePermissionMeans | src/permissions/permissions.service.ts:158-178 | it succeeds exactly for a live permission nobody is granted, which is marked deleted |
| RbacMeaning.CreateRoleMeans | src/roles/roles.service.ts:166-196 | the answers in order, and the one row added with the tenant, code and status it should have |
| RbacMeaning.UpdateRoleMeans | src/roles/roles.service.ts:198-216 | it succeeds exactly for a live role that is no system role and, for a confined caller, of its tenant; the status alone is written |
| RbacMeaning.DeleteRoleMeans | src/roles/roles.service.ts:218-232 | it succeeds exactly for such a role, which is marked deleted |
| RbacMeaning.GrantPermissionMeans | src/roles/roles.service.ts:249-261 | it succeeds exactly for such a role and a live permission, granted or not; that pair is joined and no other changes |
| RbacMeaning.RevokePermissionMeans | src/roles/roles.service.ts:263-286 | it succeeds exactly for such a role and a permission it is granted; that pair is parted and no other changes |
| RbacMeaning.BatchPermissionsMeans | src/roles/roles.service.ts:288-311 | a batch revoke succeeds on every such role and parts exactly the ids; a batch grant succeeds exactly when every id is a live permission, and joins exactly those before the first that is not |
| RbacMeaning.CreateGroupMeans | src/groups/groups.service.ts:120-144 | the answers in order, and the one row added |
| RbacMeaning.UpdateGroupMeans | src/groups/groups.service.ts:146-170 | it succeeds exactly for a live group in scope and its own tenant; only a given status is written |
| RbacMeaning.DeleteGroupMeans | src/groups/groups.service.ts:172-209 | it succeeds exactly for a live group in scope; it is marked deleted and exactly its memberships and roles are parted |
| RbacMeaning.AddMemberMeans | src/groups/groups.service.ts:224-274 | it succeeds exactly when group and user are found, share the tenant and are not joined, first time or again, each refusal having its own condition; that pair is joined and nothing else changes |
| RbacMeaning.RemoveMemberMeans | src/groups/groups.service.ts:276-298 | it succeeds exactly for a member of a group in scope; that pair is parted and nothing else changes |
| RbacMeaning.AssignGroupRoleMeans | src/groups/groups.service.ts:318-362 | it succeeds exactly for a group in scope and a live ACTIVE role, global or of its tenant, not joined yet; that pair is joined and nothing else changes |
| RbacMeaning.RevokeGroupRoleMeans | src/groups/groups.service.ts:364-386 | it succeeds exactly for a role the group has; that pair is parted and nothing else changes |
| RbacMeaning.AssignUserRoleMeans | src/users/users.service.ts:517-561 | it succeeds exactly for a user in scope and a live ACTIVE role, global or of its tenant, not joined yet; that pair is joined and nothing else changes |
| RbacMeaning.RevokeUserRoleMeans | src/users/users.service.ts:563-585 | it succeeds exactly for a role the user has; that pair is parted and nothing else changes |
| RbacMeaning.RoleByCodeMeans | src/users/users.service.ts:841-852 | exactly the live global role of the code is joined to the user, unless they have a row, live or not |
| RbacMeaning.CreateUserMeans | src/users/users.service.ts:152-202 | in the access tables: the answers for tenants, the row added and the role given by code |
| RbacMeaning.UpdateUserMeans | src/users/users.service.ts:204-244 | in the access tables: it succeeds exactly for a user in scope, and only gives the role by code |
| RbacMeaning.DeleteUserMeans | src/users/users.service.ts:330-343 | in the access tables: it succeeds exactly for another live user in scope, who alone is marked deleted |
| RbacMeaning.RegisterUserMeans | src/auth/auth.service.ts:82-114 | in the access tables: one user of a live tenant or of none is added |
| EffectiveAccess.QueriesAgreeOnEveryRun | src/auth/auth.service.ts:334-346 | after any run both permission queries, of which only one joins modules, return the same codes, and the listing has each code once |
| EffectiveAccess.ListingIsExact | src/users/users.service.ts:604-657 | a permission is listed exactly when the user has it directly or through a group; the row tells its code and operation, its live module and that module's code, and the flags say exactly how it is held, despite repeated rows of the UNION ALL |
| EffectiveAccess.SourcesAreLinks | src/auth/effective-access.query.ts:6-31 | a source row for a role exists exactly when a live link to that ACTIVE role exists, directly or through a live membership of an ACTIVE group |
| EffectiveAccess.SourcesStayInTenant | src/users/users.service.ts:659-675 | after any run every source row of a user is a global role or one of the user's tenant |
| EffectiveAccess.ListingShowsSources | src/users/users.service.ts:442-515 | the role listing, less direct roles that are not ACTIVE, has exactly one row for each source row |
| EffectiveAccess.ListedDirectly | src/users/users.service.ts:447-454 | a direct role of any status is listed exactly for a live assignment of a role that is not deleted |
| EffectiveAccess.ListedThroughGroup | src/users/users.service.ts:467-493 | a group role is listed exactly for a live membership in a live ACTIVE group that has that live ACTIVE role |
| TenantIsolation.ConfinedRunsStayInside | src/roles/roles.service.ts:378-397 | over any run of role, group and user requests that carry one tenant's scope, users of other tenants and of none keep their rows, role sources and effective permissions; which callers' requests carry it is the subject of the rows below |
| Confinement.TokenReadsClaim | src/auth/auth.service.ts:323-332 | the flag a sign-in gives a token is what `isPlatformAdmin` reads off the claim drawn up from the tables, in whatever order the codes come |
| Confinement.ScopeTells | src/users/users.controller.ts:246-252 | a platform administrator is unconfined, anybody else confined to their tenant, and refused without one |
| Confinement.TenantlessCallsAreRefused | src/users/users.controller.ts:246-252 | a caller without a tenant who is no platform administrator changes no role, group or user |
| Confinement.UserCommandMeans | src/users/users.controller.ts:84-110 | each user endpoint has the effect of its service request, with the caller as the actor and the role mapped to a code |
| Confinement.ConfinedCallIsScoped | src/users/users.controller.ts:246-252 | while no caller of a tenant is platform administrator, every role, group and user request they make carries that tenant's scope |
| Confinement.RunKeepsShut | src/roles/roles.service.ts:455-464 | if no administrator's role is within a tenant's reach and no caller of it is one, no sign-ins, registrations and calls of its users change that |
| Confinement.ShutRunsKeepOutsiders | src/roles/roles.controller.ts:184-190 | and in all such runs users outside keep their rows and role sources, and their effective permissions too unless the calls touch modules or permissions |
| TenantEscape.CallersStayConfinedIff | src/roles/roles.controller.ts:184-190 | callers of a tenant stay confined in every run if and only if none is unconfined now and the tables leave them no way out: no live administrator's role, global or of the tenant, that is ACTIVE or theirs to activate, and no administrator's code free in a live tenant |
| TenantEscape.OutsidersAreSafeIff | src/users/users.controller.ts:246-252 | a live user outside keeps its row and role sources in every run of the tenant's callers if and only if the same condition holds |
| TenantEscape.TwoRequestsMakeAdmin | src/roles/roles.service.ts:166-196 | where ADMIN is free in a live tenant, a confined caller who creates a role of that code and takes it holds ADMIN |
| TenantEscape.AssignmentMakesAdmin | src/users/users.service.ts:659-675 | a confined caller who assigns a user of its tenant any ACTIVE administrator's role, global or of the tenant, makes that user hold the code |
| TenantEscape.ModuleDeletionReachesOutsideIff | src/modules/modules.service.ts:176-215 | a deletion of a module by any live caller leaves a user's permissions unchanged exactly when none of them is of that module |
| AccessChanges.GroupDeleteTakesItsSources | src/groups/groups.service.ts:172-209 | deleting a group leaves every user the permissions the other sources give, flags included, and no live membership or role of the group |
| AccessChanges.GroupSuspensionTakesItsSources | src/groups/groups.service.ts:146-170 | so does switching it away from ACTIVE |
| AccessChanges.RoleRemovalTakesItsSources | src/roles/roles.service.ts:198-232 | so does deleting a mutable role or making it INACTIVE |
| AccessChanges.ModuleDeleteTakesItsPermissions | src/modules/modules.service.ts:176-215 | deleting a module takes from every user's listing exactly the rows of that module |
| AccessChanges.GroupStatusRestores | src/groups/groups.service.ts:159-166 | switching a group to any status and back restores every table |
| AccessChanges.RoleStatusRestoresIff | src/roles/roles.service.ts:207-212 | switching a role to INACTIVE and back restores every table, exactly when its status was not SUSPENDED, which only a row written outside the services can be |
| AccessChanges.RoleStatusRestoresOnRuns | src/roles/roles.service.ts:550-556 | no request suspends a role, so after any run from tables without suspended roles the switch and back restores every table |
| AccessChanges.MemberReturnsIff | src/groups/groups.service.ts:224-298 | a removed member can be added again exactly while the user is not deleted, which restores every table; otherwise the request is refused |
| AccessChanges.GroupRoleReturnsIff | src/groups/groups.service.ts:318-386 | a role revoked from a group can be assigned again exactly while it is ACTIVE, which restores every table |
| AccessChanges.UserRoleReturnsIff | src/users/users.service.ts:517-585 | the same for a role revoked from a user |
| AccessChanges.GrantReturns | src/roles/roles.service.ts:249-286 | a revoked permission can always be granted again, which restores every table |
| AccessChanges.RoleByCodeGivenIff | src/users/users.service.ts:841-852 | naming a role by code makes it the user's exactly when the user has it or never had a row for it, and touches no other pair |
| Grants.GrantAllGrows | src/roles/roles.service.ts:301-310 | a batch grant grants the ids before the first that is not a live permission, revives rows rather than add a second for a pair, and succeeds exactly when there is no such id |
| Grants.BatchGrantIsUnion | src/roles/roles.service.ts:288-352 | a successful batch grant makes the role's grants old plus ids, as single grants in any order and with repetition do; other roles keep theirs and pairs keep one row |
| Grants.BatchGrantIsIdempotent | src/roles/roles.service.ts:313-352 | the same batch again succeeds and changes nothing |
| Grants.BatchRevokeIsDifference | src/roles/roles.service.ts:354-376 | a batch revoke makes the role's grants old less ids, equals single revokes in any order with refusals for absent ones, leaves other roles alone and is idempotent |
| AccessServices.AccessStore.BatchPermissions | src/roles/roles.service.ts:288-311 | the loop computes the batch, keeping the grants made before a refusal, and keeps the invariant |
| AccessServices.AccessStore.UpsertGrant | src/roles/roles.service.ts:313-352 | the code finds, keeps, revives or inserts the row of the pair |
| AccessServices.AccessStore.DeleteModuleTree | src/modules/modules.service.ts:180-213 | the loops soft-delete the live grants of the live children, then the children, then the module |
| AccessServices.AccessStore.DeleteGroup | src/groups/groups.service.ts:172-209 | the code computes the deletion with both cascades |
| AccessServices.AccessStore.AssignRole | src/users/users.service.ts:841-852 | the insert that does nothing on conflict, for the one live global role of a code |
| AccessServices.AccessStore.FindMutableRole | src/roles/roles.service.ts:378-397 | it succeeds exactly for a live role that is no system role and, for a confined caller, of its own tenant; a role of another tenant is indistinguishable from a missing one |
| AccessServices.AccessStore.RevokeMany | src/roles/roles.service.ts:354-376 | the loop soft-deletes exactly the live rows of the role for the ids |
| AccessServices.AccessStore.FindAssignableRole | src/groups/groups.service.ts:388-404 | it succeeds exactly for a live ACTIVE role that is global or of the tenant, and forbids only roles of another tenant |
| RoleClaim.ClaimTellsRoles | src/auth/auth.service.ts:323-332 | splitting the claim gives back the user's effective role codes, it is null exactly without any, and it makes the caller platform administrator exactly when the user holds ADMIN or SUPER_ADMIN |
| RoleCodes.SplitUndoesJoinIff | src/auth/user-role.enum.ts:12-17 | splitting undoes joining exactly when every code is non-empty, free of commas and trimmed |
| RoleCodes.ClaimRoundTrip | src/roles/dto/role.dto.ts:23 | codes of the request pattern survive joining and splitting |
| RoleCodes.RequestedRoleIsShown | src/auth/user-role.enum.ts:23-48 | the code a requested role is stored under is shown back as that role, and is a platform administrator's exactly for ADMIN without a tenant |
| Crc32.Compute | scripts/db-setup.js:89-98 | the two nested loops over signed and unsigned 32-bit JavaScript numbers return the CRC-32 of section 8 of RFC 1952 as a signed integer |
| Crc32.RegisterIsTableDriven | scripts/db-setup.js:89-98 | the bit-serial register equals the table-driven one of section 8 of RFC 1952 |
| Crc32.BurstDetected | scripts/db-setup.js:89-98 | buffers that differ only inside one window of at most four bytes have different checksums |
| Crc32.BlockInjective | scripts/db-setup.js:92-96 | a block of at most four bytes is determined by the register before and after it |
| Crc32.Crc32Affine | scripts/db-setup.js:89-98 | the checksum of an exclusive-or of three equally long buffers is the exclusive-or of their checksums |
| Migrations.Database.Migrate | scripts/db-setup.js:342-387 | the loop, stopped after any number of migrations, computes the run and reports whether it finished |
| Migrations.InterruptedRunsConverge | scripts/db-setup.js:342-387 | any sequence of runs, each cut between two migrations, records each version once with increasing ranks; a finished one leaves what an uninterrupted ascending run leaves, and another run changes nothing |
| Migrations.CollectedRunsConverge | scripts/db-setup.js:311-387 | for the files of the migration directory, with distinct versions: whatever runs were cut before, a run that finishes has executed their scripts once each in ascending order of version, and another changes nothing |
| Migrations.RunsReachPrefix | scripts/db-setup.js:352-382 | however runs are cut, schema and history are those of the ascending prefix their work adds up to |
| Migrations.CollectIgnoresListingOrder | scripts/db-setup.js:311-330 | with distinct versions the collected list is strictly ascending and independent of the order the directory lists files in |
| Migrations.CollectedTells | scripts/db-setup.js:311-330 | exactly the files whose name has a version are collected, each with its own path and script |
| Migrations.VersionIsDecimal | scripts/db-setup.js:119-122 | a name of V or v, zeros, a decimal number and no further digit has that number as its version |
| Migrations.NoVersionIff | scripts/db-setup.js:119-122 | a name has no version exactly when it does not begin with V or v and a digit |
| Migrations.RecordedOnceIffDistinct | scripts/db-setup.js:342-387 | a run on an empty database records each version once exactly when the versions are distinct |
| Migrations.CutInsideRunsScriptTwice | scripts/db-setup.js:358-379 | after a cut between a script and its history row the next run executes that script again right after its first execution, and the rest once |
| LikeSearch.SearchPatternIsContains | src/audit/audit.service.ts:266-274 | text matches the pattern around an escaped search exactly when it contains the search |
| LikeSearch.EscapeLikeIsEscape | src/audit/audit.service.ts:432-434 | the three replacements one after the other equal one escape character by character |
| LikeSearch.SearchFindsSubstrings | src/audit/audit.service.ts:266-274 | the search keeps a row exactly when a searched column, lower-cased and null as empty, contains the trimmed lower-cased text |
| LikeSearch.BranchSearchFindsWanted | src/branches/branches.service.ts:291-293 | the branch search finds the text in which each special character is followed or replaced as its escape really writes it |
| LikeSearch.BranchSearchCorrectIffPlain | src/branches/branches.service.ts:291-293 | the branch search finds exactly the containing texts if and only if the search has no special character |
| CsvExport.ExportRoundTrip | src/audit/audit.service.ts:136-175 | reading an export by the quoting rules of section 2 of RFC 4180 gives the header and the exact values of the rows within the cap, null as empty |
| CsvExport.ExportTellsRows | src/audit/audit.service.ts:143-174 | a reader gets one record for each of the first ten thousand rows, whose value under each name of the header is that field of the row, null as empty |
| CsvExport.ReadBackField | src/audit/audit.service.ts:436-442 | one escaped field is read back exactly, whatever commas, quotes and line breaks it holds |
| Paging.PagesPartition | src/audit/audit.service.ts:92-115 | pages 0 to totalPages-1 one after the other are the whole list |
| Paging.LastIffNoneFollow | src/audit/audit.service.ts:107-114 | `last` holds exactly when (page+1)*size covers the total, and exactly when every later page is empty |
| Paging.PageTells | src/audit/audit.service.ts:107-115 | a page tells the page and size asked for and the total, holds exactly its slice, and totalPages is the least number of pages that hold every row |
| Paging.UnlimitedPage | src/audit/audit.service.ts:107-115 | size 0 gives one page, the last, with every row |
| Branches.RunKeepsValid | src/branches/branches.service.ts:127-250 | every run keeps: at most one live headquarters and at most maxBranches live branches per tenant, and codes unique over deleted rows too |
| Branches.HeadquartersGoesLast | src/branches/branches.service.ts:222-250 | deleting the headquarters succeeds exactly when it is the last live branch, and leaves none |
| Branches.CodesStayTaken | src/branches/branches.service.ts:330-373 | a code once used by a tenant stays taken in every later state |
| Branches.CreateMeans | src/branches/branches.service.ts:127-161 | it succeeds exactly in a live tenant one may write to, with a code no row of it has, room below the limit and no live headquarters when it is to be one; the row added has the tenant, code and flag asked for and is ACTIVE |
| Branches.UpdateMeans | src/branches/branches.service.ts:163-206 | it succeeds exactly for a live branch in scope and its own tenant, unless it would become a second headquarters; only the flag and a given status are written |
| Branches.UpdateStatusMeans | src/branches/branches.service.ts:208-220 | the status alone of a live branch in scope is written |
| Branches.DeleteMeans | src/branches/branches.service.ts:222-250 | it succeeds exactly for a live branch in scope, unless it is the headquarters and another live branch exists; the row alone is marked deleted |
| Branches.BranchesService.Create | src/branches/branches.service.ts:127-175 | the code computes the creation with its refusals in order |

## Left out

- bcrypt, SHA-256 and JWT signing: a password matches when it equals the stored one, a token stands for its own hash, and a token verifies when it was issued.
- Random identifiers: a new id is one no row has; in the access tables it is the next number.
- JWT expiry counts seconds; token and session expiry here use one millisecond clock.
- TypeORM, PostgreSQL, HTTP, cookies, controllers, DTO validation, configuration and Docker scripts are not part of this model.
- Two requests between a check and the write that follows it, outside refresh: the code uses no transaction there, so those theorems are about whole requests.
- Audit rows, and the columns that only record who and when (grantedAt, joinedAt, deletedBy, logoutAt, updatedAt).
- Names and descriptions of modules, permissions, roles and groups, which no rule reads.
- Codes arrive trimmed and upper-cased; collation order of result rows: a permission listing is a set, and a role claim any duplicate-free order.
- UsersService.create and register in the access model: the checks of names and of maxUsers, which can only refuse; maxUsers is no invariant, because register does not check it.
- UsersService.create in `AuthModel` takes maxUsers as a parameter of the request, and the temporary password it draws.
- TenantEscape.CallersStayConfinedIff: tokens do not expire there, any live user can sign in and any live tenant be registered with; passwords, account status, expiry and revocation are those of `AuthModel`. Calls are those of one tenant's users, and tenants stay live or not as they are.
- AccessServices.AccessStore: creation, update and deletion of users appear as requests of `RbacModel` only; their code is `AuthServices.AuthStore` where it touches sessions.
- AccessServices.AccessStore.DeleteGroup: the two bulk SQL updates are written as the loop over the same rows.
- A failedLoginAttempts column that is null is read as 0.
- The flywayDescription and script checksum columns of the history table; version numbers above 2^53, which JavaScript rounds.
- LOWER and toLowerCase are parameters of the search, and characters stand for UTF-16 units.
- LikeSearch.BranchSearchFindsWanted: says what the branch search finds, not the substring search its name promises, because the code does not do that search; the exact condition is `LikeSearch.BranchSearchCorrectIffPlain`.
- Paging.LastIffNoneFollow: size 0, where the code returns one unlimited page, is told by `Paging.UnlimitedPage`.
- A migration that fails half-way through its own script: what PostgreSQL keeps of it is not modelled.
- Dashboard, tenant CRUD, login history and group listings, which would add only easy members.
