# Route policy and table state of the JESA punch-list front end

This project models the core of the JESA punch-list web front end, a Next.js
application with three parts:

- an authentication middleware that decides, for every request, whether it
  passes, goes to sign-in, or is redirected by the user's role;
- the role resolver behind it, which reads the user's role from the `users`
  table;
- a set of admin tables (users, projects, project assignments, systems and
  punches). Each table keeps a local copy of a server list and patches it
  after the server accepts an edit or a deletion.

The model has these parts:

- **`Middleware`** (`middleware.dfy`): the handler as one pure function
  `Decide`. Its inputs are the request's URL and pathname, the optional
  `userId` and the role lookup.
  - Each branch is proved as its own lemma.
  - `DecideIsPolicy` proves that the handler equals an independent five-row
    policy table, `Policy` over `Classify`.
  - `RedirectsSettle` proves that following its redirects always ends in a
    pass-through within two hops.
- **`Roles`** (`roles.dfy`): the `users` query with `.single()` semantics over
  a store value, `getRoleFromDb` collapsing every failure to `None`, and
  `checkRoleFromDb` as a comparison of role names.
- **`UserTable`, `ProjectTable`, `ProjectsAssign`, `PunchTable`**: each
  component's state is a `class` with `seq` fields. Each handler is a method
  that mirrors the source's early returns (confirm declined, response not ok)
  and otherwise replaces the list with a pure function of the old one. What
  is proved about those functions, by operation:
  - edits (`UserTable.WithEdit`, `ProjectTable.WithEdit`,
    `PunchTable.WithStatus`): length and positions are kept; matching entries
    take the new values and the others are unchanged; the key column is
    unchanged, so unique keys stay unique; applying the same edit twice
    equals applying it once (for the status update, the later status wins);
    an edit after the deletion of the same key changes nothing.
  - deletions (`UserTable.WithoutUser`, `ProjectTable.WithoutProject`,
    `ProjectsAssign.WithoutAssignment`): no entry with the key remains; the
    kept entries keep their relative order and their number of occurrences;
    deleting an absent key changes nothing and deleting twice equals deleting
    once; unique keys stay unique.
- **`SystemTable`, `ProjectsAssign`, `ProjectFilter`**: the "filter by
  project" selection and the name-or-`-` columns.
- **`ArrayOps`, `Keyed`, `JsValues`, `Wrappers`**: the `Array.prototype.filter`
  and `map` semantics, remove-by-key and update-by-key, JavaScript
  truthiness and `??`.

Modelling decisions:

- **Role lookup.** The role lookup is a parameter `string -> Option<Role>`,
  and it is one fixed function per request. The guards ask it twice (first
  `checkRoleFromDb`, then `getRoleFromDb`), and the model assumes both calls
  give the same answer.
- **Roles.** A role is `Admin | Completion | Other(name)`. The source takes
  the stored string with an unchecked cast, so any string can come back.
  Every role comparison in the source compares strings, and the model does
  the same, through `RoleName`.
- **Route matchers.** `isPublicRoute` is exact equality with the three
  listed paths. The admin and completion matchers are prefix tests on
  `/admin` and `/completion`, which is how `'/admin(.*)'` reads, so
  `/administrator` counts as an admin path. `isPublicRoute` lists three
  plain paths without `(.*)`, so a public path is an exact match.
- **`userId` and the cells.** `userId` is tested for truthiness, so an empty
  id counts as signed out. The cell fallbacks use truthiness or `null`
  tests exactly as each source line does.

## Model

| member | source | states |
|---|---|---|
| Middleware.Decide | src/middleware.ts:15-57 | public paths always pass; the result is a sign-in exactly when the path is not public and there is no user id; a sign-in returns to the full request URL; every redirect target is one of `/admin/dashboard`, `/completion`, `/`, `/auth/sign-in` |
| Middleware.IsPublicRoute | src/middleware.ts:6-10 | holds exactly for `/auth/sign-in`, `/auth/sign-up` and `/auth/reset-password` |
| Middleware.IsAdminRoute | src/middleware.ts:12 | holds exactly for the paths that start with `/admin` |
| Middleware.IsCompletionRoute | src/middleware.ts:13 | holds exactly for the paths that start with `/completion` |
| Middleware.AdminAndCompletionDisjoint | src/middleware.ts:12-13 | no path matches both the admin and the completion matcher |
| Middleware.PublicAndRootUnscoped | src/middleware.ts:6-13 | the three public paths and `/` match neither guarded area |
| Middleware.TargetsClassified | src/middleware.ts:30-51 | `/admin/dashboard` is admin-only, `/completion` is completion-only, `/auth/sign-in` is public, and the other targets are not public |
| Middleware.UnauthenticatedSignsIn | src/middleware.ts:23-25 | any non-public path without a user id gives `SignIn(req.url)` |
| Middleware.RootRedirectsByRole | src/middleware.ts:27-36 | at `/` with a user: admin goes to `/admin/dashboard`, completion goes to `/completion`, and anything else (a failed lookup too) goes to `/auth/sign-in` |
| Middleware.AdminGuardRedirects | src/middleware.ts:38-45 | a non-admin on an `/admin…` path goes to `/completion` when the role is completion, otherwise to `/` |
| Middleware.CompletionGuardRedirects | src/middleware.ts:47-54 | a non-completion user on a `/completion…` path goes to `/admin/dashboard` when the role is admin, otherwise to `/` |
| Middleware.AuthenticatedPassThrough | src/middleware.ts:38-56 | these pass unchanged: an admin on an admin path, a completion user on a completion path, and any path outside `/`, `/admin…` and `/completion…` |
| Middleware.GuardsLeaveTheirArea | src/middleware.ts:34-51 | admin-guard targets are `/completion` or `/` and not admin paths; completion-guard targets are `/admin/dashboard` or `/` and not completion paths; the root fallback is public |
| Middleware.LookupOnlyWhenAuthenticated | src/middleware.ts:18-28 | for public and signed-out requests, any two lookups give the same decision |
| Middleware.OnlyTheRoleClassMatters | src/middleware.ts:27-54 | two lookups that agree on "is admin" and "is completion" give the same decision |
| Middleware.FailedLookupActsAsUnknownRole | src/middleware.ts:27-54 | a failed lookup decides like any role other than admin and completion |
| Middleware.DecideIsPolicy | src/middleware.ts:15-57 | the handler equals the independent policy table applied to the route class and, for a signed-in user only, to the looked-up role |
| Middleware.RedirectsSettle | src/middleware.ts:27-56 | following a redirect with the same user and role passes within at most one more redirect: there is no redirect loop |
| Middleware.Scenarios | src/middleware.ts:23-54 | six concrete requests: signed-out admin page, admin at root, completion user on an admin page, failed lookup on an admin page, admin on an admin page, `/administrator` |
| Roles.HasRole | src/utils/roles.ts:27 | `role === r` on a lookup result: false for `undefined`, otherwise equality of the role strings |
| Roles.ParseRole | src/utils/roles.ts:22 | the cast keeps the stored string: the role's name is that string, and the result is canonical |
| Roles.ParseRoleName | src/utils/roles.ts:22 | for canonical roles, reading a role's name back gives the role |
| Roles.RowsFor | src/utils/roles.ts:11-14 | the selected rows are rows of the table with the user's uuid, and every such row is selected |
| Roles.SelectRole | src/utils/roles.ts:11-15 | data is returned exactly when there is no error, and exactly when the store answers and one row matches; the data is that row's role |
| Roles.GetRoleFromDb | src/utils/roles.ts:17-22 | `undefined` exactly when there is an error or no data; otherwise a role whose name is the row's role, unchanged |
| Roles.RoleLookup | src/utils/roles.ts:10-22 | `getRoleFromDb` against a fixed store: the query's response read by `GetRoleFromDb` |
| Roles.LookupSelectsSingleRow | src/utils/roles.ts:10-22 | a lookup succeeds exactly when the store answers and exactly one table row has the uuid; the role is then that row's |
| Roles.LookupWithoutSingleRow | src/utils/roles.ts:11-20 | when no table row is the one and only row with the uuid, the lookup gives `undefined` |
| Roles.LookupOfStoredUser | src/utils/roles.ts:10-22 | a user whose uuid no other table row has gets that row's role |
| Roles.RowsForNone | src/utils/roles.ts:14 | a table without a row for the user selects no row |
| Roles.LookupFailures | src/utils/roles.ts:15-20 | no matching row, two matching rows, or an unreachable store each give `undefined` |
| Roles.RowsForCountsMatches | src/utils/roles.ts:14-15 | two matching table rows put at least two rows in the selection, so `.single()` fails |
| Roles.CheckRoleFromDb | src/utils/roles.ts:25-28 | a true check implies the lookup found a role, and finding exactly that role makes the check true |
| Roles.CheckRoleOnFailure | src/utils/roles.ts:17-20 | when the lookup fails, every role check is false |
| Roles.CheckRoleIsEquality | src/utils/roles.ts:25-28 | for the store's lookup and a canonical role, the check holds if and only if the looked-up role equals that role |
| Roles.ChecksExclusive | src/utils/roles.ts:26-27 | no lookup passes both the admin and the completion check |
| UserTable.WithEdit | src/components/userTable.tsx:77-79 | length is kept; every entry with the edited uuid becomes the edited user wholesale; all other entries are unchanged |
| UserTable.WithoutUser | src/components/userTable.tsx:102 | no remaining entry has the uuid; every remaining entry was in the list; every entry with another uuid remains |
| UserTable.EditKeepsUuids | src/components/userTable.tsx:77-79 | an edit keeps the sequence of uuids, so unique uuids stay unique |
| UserTable.EditTwice | src/components/userTable.tsx:77-79 | saving the same edit twice equals saving it once |
| UserTable.DeleteKeepsOrder | src/components/userTable.tsx:102 | a deletion distributes over concatenation, so the kept entries keep their relative order |
| UserTable.DeleteCounts | src/components/userTable.tsx:102 | every entry with another uuid keeps its number of occurrences, and entries with the deleted uuid have none |
| UserTable.DeleteAbsentOrTwice | src/components/userTable.tsx:102 | deleting an absent uuid changes nothing, and deleting the same uuid twice equals deleting it once |
| UserTable.DeleteKeepsUuidsUnique | src/components/userTable.tsx:102 | a deletion keeps uuids unique |
| UserTable.DeleteAfterEdit | src/components/userTable.tsx:77-102 | deleting a user right after editing them equals deleting them alone |
| UserTable.EditAfterDelete | src/components/userTable.tsx:77-102 | saving an edit of a user who has just been deleted changes nothing |
| UserTable.Component.constructor | src/components/userTable.tsx:36-38 | the table starts with no users and no open editor |
| UserTable.Component.OpenEditor | src/components/userTable.tsx:121 | the editor holds the chosen row and the list is unchanged |
| UserTable.Component.HandleEditUser | src/components/userTable.tsx:61-85 | with an ok response, the list becomes `WithEdit` of the old list and the editor is cleared; otherwise both are unchanged; unique uuids stay unique |
| UserTable.Component.HandleDeleteUser | src/components/userTable.tsx:88-107 | only when confirmed and ok does the list become `WithoutUser` of the old list; otherwise it is unchanged; the editor is untouched; unique uuids stay unique |
| ProjectTable.WithEdit | src/components/projectTable.tsx:86-92 | length is kept, as are every entry's uuid, sector and createdAt; entries with the form's uuid take its name and description; all other entries are unchanged |
| ProjectTable.WithoutProject | src/components/projectTable.tsx:64 | no remaining entry has the uuid; every remaining entry was in the list; every entry with another uuid remains |
| ProjectTable.SaveUnchangedForm | src/components/projectTable.tsx:86-118 | with unique uuids, opening the form on a row and saving it unchanged leaves the list as it was |
| ProjectTable.EditTwice | src/components/projectTable.tsx:86-92 | saving the same form twice equals saving it once |
| ProjectTable.EditKeepsUuids | src/components/projectTable.tsx:86-92 | an edit keeps the sequence of uuids, and with it their uniqueness |
| ProjectTable.DeleteKeepsOrder | src/components/projectTable.tsx:64 | a deletion distributes over concatenation, and it keeps the number of occurrences of every entry with another uuid |
| ProjectTable.DeleteAbsentOrTwice | src/components/projectTable.tsx:64 | deleting an absent uuid changes nothing, and deleting the same uuid twice equals deleting it once |
| ProjectTable.EditAfterDelete | src/components/projectTable.tsx:64-92 | saving the form of a project that has just been deleted changes nothing |
| ProjectTable.DeleteKeepsUuidsUnique | src/components/projectTable.tsx:64 | a deletion keeps uuids unique |
| ProjectTable.Component.constructor | src/components/projectTable.tsx:27-35 | the table starts empty, with the dialog closed and a blank form |
| ProjectTable.Component.OpenEdit | src/components/projectTable.tsx:112-119 | the form holds the row's uuid, name and description; the dialog is open; the list is unchanged |
| ProjectTable.Component.HandleEditSave | src/components/projectTable.tsx:71-98 | with an ok response, the list becomes `WithEdit` of the old list and the form, and the dialog closes; otherwise both are unchanged; the form is kept; unique uuids stay unique |
| ProjectTable.Component.HandleDelete | src/components/projectTable.tsx:55-69 | only when confirmed and ok does the list become `WithoutProject`; otherwise it is unchanged; the dialog and form are untouched; unique uuids stay unique |
| ProjectFilter.SelectRows | src/components/projectsAssign.tsx:129-131 | the result is never longer than the input; an empty selection gives every row; otherwise the result holds exactly the rows whose project is present and has the selected uuid |
| ProjectFilter.SelectRowsConcat | src/components/systemTable.tsx:79 | the selection distributes over concatenation, so it keeps the rows' order |
| ProjectFilter.SelectRowsCount | src/components/systemTable.tsx:79 | every selected row occurs as often as in the input; rows that do not match do not occur |
| ProjectFilter.SelectRowsTwice | src/components/systemTable.tsx:78-80 | selecting again on a selected list changes nothing |
| ProjectFilter.ProjectName | src/components/systemTable.tsx:33 | the name of the related project, or `-` when there is none |
| SystemTable.FilteredSystems | src/components/systemTable.tsx:78-80 | the result is never longer than the input; an empty selection gives all systems; otherwise the result holds exactly the systems whose project has the selected uuid |
| SystemTable.FilteredSystemsKeepsOrder | src/components/systemTable.tsx:78-80 | filtering distributes over concatenation and is idempotent |
| SystemTable.UnassignedSystemsHidden | src/components/systemTable.tsx:79 | a system without a project does not occur in any non-empty selection |
| SystemTable.ProjectColumn | src/components/systemTable.tsx:33 | the project's name, or `-` when the project is null |
| ProjectsAssign.FilteredProjectUsers | src/components/projectsAssign.tsx:129-131 | the result is never longer than the input; an empty selection gives every assignment; otherwise the result holds exactly those whose project is present and has the selected uuid |
| ProjectsAssign.FilteredKeepsOrder | src/components/projectsAssign.tsx:129-131 | the filter distributes over concatenation and is idempotent |
| ProjectsAssign.WithoutAssignment | src/components/projectsAssign.tsx:85 | no remaining assignment has the uuid; every remaining one was in the list; every other assignment remains |
| ProjectsAssign.DeleteKeepsOrder | src/components/projectsAssign.tsx:85 | a deletion distributes over concatenation, and it keeps uuids unique |
| ProjectsAssign.DeleteCounts | src/components/projectsAssign.tsx:85 | every other assignment keeps its number of occurrences and the deleted uuid has none; deleting an absent uuid changes nothing; deleting twice equals deleting once |
| ProjectsAssign.ProjectColumn | src/components/projectsAssign.tsx:96 | the project's name, or `-` when the project is null |
| ProjectsAssign.UserColumn | src/components/projectsAssign.tsx:101 | the user's name, or `-` when the user is null |
| ProjectsAssign.AssignedAtCell | src/components/projectsAssign.tsx:106-111 | `-` for a falsy date or an invalid one, otherwise the formatted date |
| ProjectsAssign.Component.constructor | src/components/projectsAssign.tsx:30 | the table starts with no assignments |
| ProjectsAssign.Component.HandleDelete | src/components/projectsAssign.tsx:68-90 | only when confirmed and ok does the list become `WithoutAssignment`; otherwise it is unchanged |
| PunchTable.DisplayValue | src/components/punchTable.tsx:22-23 | `NULL` for null, undefined and the empty string, every other value unchanged, and never empty |
| PunchTable.DisplayValueStable | src/components/punchTable.tsx:22-23 | showing a shown value again gives the same text |
| PunchTable.DateCell | src/components/punchTable.tsx:120-131 | `NULL` (as `displayValue` would show it) for a falsy date, otherwise the formatted date |
| PunchTable.StatusMapEntry | src/components/punchTable.tsx:27-34 | `statusMap` has an own entry exactly for the statuses of `STATUSES` |
| PunchTable.StatusBadge | src/components/punchTable.tsx:27-39 | `OPEN`, `IN_PROGRESS` and `RESOLVED` give `Open`, `In Progress` and `Resolved` with the red, yellow and green classes; any other status shows itself with the gray class |
| PunchTable.GrayExactlyForUnlisted | src/components/punchTable.tsx:20-39 | a badge is gray exactly when its status is not one of `STATUSES` |
| PunchTable.StatusBadgeAsWritten | src/components/punchTable.tsx:36-39 | for every status that is not an inherited `Object.prototype` name, the lookup as written gives the intended badge |
| PunchTable.InheritedStatusLosesFallback | src/components/punchTable.tsx:36-39 | for an inherited name, the lookup as written yields no label and no class, where the fallback meant the status in gray |
| PunchTable.WithStatus | src/components/punchTable.tsx:81-85 | length is kept; apart from `status`, every punch is unchanged; punches with the id take the new status; all other punches are unchanged |
| PunchTable.LaterStatusWins | src/components/punchTable.tsx:81-85 | of two updates of the same punch, the later one wins |
| PunchTable.StatusKeepsIds | src/components/punchTable.tsx:81-85 | an update keeps the sequence of ids, so unique ids stay unique |
| PunchTable.Component.constructor | src/components/punchTable.tsx:51 | the table starts with no punches |
| PunchTable.Component.UpdateStatus | src/components/punchTable.tsx:71-89 | with an ok response, the data becomes `WithStatus` of the old data; otherwise it is unchanged |

## Left out

- Network and services. Every `fetch`, the Supabase client and Clerk's
  `auth()`/`redirectToSignIn` are external I/O.
  - The outcome of each HTTP call is a `responseOk` parameter, and the
    `confirm` dialog answer is a `confirmed` parameter.
  - Identity is an optional `userId`.
  - The store is a `Store` value.
- Initial fetches, the `loading` flags and the `projects` lists fed to the
  select. These are fetch results and loading UI.
- The dialogs' field `onChange` wiring, the `selectedProjectUuid` select, the
  alerts and the console logging. These are UI.
- The `config.matcher` regular expressions in src/middleware.ts:59-64. The
  framework decides with them which requests reach the middleware.
- Clerk's `createRouteMatcher` details. The model does not capture
  trailing slashes, query strings or case handling; it reads the matchers as
  exact paths and literal prefixes.
- Redirect URLs made with `new URL(path, req.url)`. The model keeps only the
  target path; resolution against the origin happens in the platform.
- `new Date(...)`, `isNaN(getTime())` and `toLocaleString()`. These are locale
  and date parsing, passed in as a `format` function.
- Middleware.Decide: `lookup` is one fixed function per request. Two calls to
  the store within one request could in principle see different rows, and
  that race is not modelled.
- Roles.GetRoleFromDb: a `role` column holding SQL `NULL` is not modelled, since
  the row's role is a string.
- The add/assign buttons, the login form, the cards, the sidebar's
  `isActive`, and the page and layout files. They hold no state
  reconciliation or policy of their own.

## Findings

| source | as written | input that shows it | evidently intended | confidence | as-written member | corrected member |
|---|---|---|---|---|---|---|
| src/components/punchTable.tsx:36-39 | `statusMap[status] \|\| fallback` looks the status up on a plain object literal, so inherited `Object.prototype` members are found too | status `"toString"` (or `"constructor"`, `"__proto__"`, …): the lookup finds a truthy inherited member, so the badge's label and class are `undefined` | any status outside `OPEN`, `IN_PROGRESS`, `RESOLVED` shows itself with the gray class | not executed | PunchTable.StatusBadgeAsWritten, PunchTable.InheritedStatusLosesFallback | PunchTable.StatusBadge, PunchTable.GrayExactlyForUnlisted |
