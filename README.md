# foodsharing-backend: permissions, file uploads and groups in Dafny

This project models the core of the foodsharing backend, a Go service that
keeps its state in PostgreSQL:

- **Permissions** (`permission.dfy`, module `Permissions`): a permission is a
  64-bit word in which each of sixteen capabilities owns one bit, assigned in
  declaration order (`Admin` is bit 0, `EditGroup` bit 15). `IsAdmin` and the
  fifteen capability tests are single-mask tests. `Holds(k, p)` is the test
  for the k-th capability, so one lemma can speak about all sixteen tests.
- **Files** (`file.dfy`, module `FileDomain`): the six upload statuses and
  their integer codes 0..5, the three file-type strings, and the file record.
- **The files table** (`files_repo.dfy`, module `FilesRepo`): a class
  `FilesTable` holding the rows (`map<ID, File>`) and the identity sequence.
  Its methods are create, update status, claim, finish upload, and read one
  row. The claim (`GetForUploading`) picks *some* file in `UploadedByClient`.
  In one step it moves that file to `StorageUploadInProgress` and returns it.
  The choice is nondeterministic (`:|`), because the SQL takes `LIMIT 1`
  without an order. The claim is also stated on table values (`ClaimStep`),
  and lemmas about runs of claims are proved there.
- **The groups table** (`groups_repo.dfy`, module `GroupsRepo`): a class
  `GroupsTable` holding the groups (`map<ID, Group>`), the user–group
  membership relation (`set<(user, group)>`) and the identity sequence.
  The list queries share one row loop, `Scan`. It visits every stored group
  once and keeps those its filter accepts.
- Shared vocabulary (`primitive.dfy`, module `Primitive`): identities,
  timestamps, `Option`, and the two error outcomes. `NotFound` is the domain's
  sentinel. `StoreFailure` stands for every wrapped database error.

Each repository method is one atomic step, as one SQL statement is. Clock
readings (`time.Now()`, SQL `now()`) are parameters of the methods that
stamp a time.

The lifecycle predicate `LegalTransition` is auxiliary, not code behaviour.
`UpdateStatus` and `UpdateStatusAndSetURL` change the status without reading
the current one. Only the claim selects by status, and only from
`UploadedByClient` to `StorageUploadInProgress`. The permission union
`UnionOf` and its lemmas are auxiliary too: the code has no such function.

A reader may expect behaviour the code does not have; the model follows the
code:

- The capability tests do not short-circuit on `Admin`.
- Finishing an upload (`UpdateStatusAndSetURL`) does not require the file to
  be in `StorageUploadInProgress`.
- Reading an absent file reports a store failure, not `NotFound`.
- Nothing keeps the URL set exactly when the status is `UploadedToStorage`.

## Model

| member | source | states |
|---|---|---|
| Permissions.IsAdmin | internal/domain/permission.go:29-31 | true exactly when bit 0 (`Admin`) of `p` is set |
| Permissions.CanCreateUser | internal/domain/permission.go:33-35 | true exactly when bit 1 of `p` is set |
| Permissions.CanReadUser | internal/domain/permission.go:37-39 | true exactly when bit 2 of `p` is set |
| Permissions.CanEditUser | internal/domain/permission.go:41-43 | true exactly when bit 3 of `p` is set |
| Permissions.CanCreateAct | internal/domain/permission.go:45-47 | true exactly when bit 4 of `p` is set |
| Permissions.CanReadAct | internal/domain/permission.go:49-51 | true exactly when bit 5 of `p` is set |
| Permissions.CanEditAct | internal/domain/permission.go:53-55 | true exactly when bit 6 of `p` is set |
| Permissions.CanAddCity | internal/domain/permission.go:57-59 | true exactly when bit 7 of `p` is set |
| Permissions.CanReadCity | internal/domain/permission.go:61-63 | true exactly when bit 8 of `p` is set |
| Permissions.CanEditCity | internal/domain/permission.go:65-67 | true exactly when bit 9 of `p` is set |
| Permissions.CanAddCompany | internal/domain/permission.go:69-71 | true exactly when bit 10 of `p` is set |
| Permissions.CanReadCompany | internal/domain/permission.go:73-75 | true exactly when bit 11 of `p` is set |
| Permissions.CanEditCompany | internal/domain/permission.go:77-79 | true exactly when bit 12 of `p` is set |
| Permissions.CanCreateGroup | internal/domain/permission.go:81-83 | true exactly when bit 13 of `p` is set |
| Permissions.CanReadGroup | internal/domain/permission.go:85-87 | true exactly when bit 14 of `p` is set |
| Permissions.CanEditGroup | internal/domain/permission.go:89-91 | true exactly when bit 15 of `p` is set |
| Permissions.ConstantValues | internal/domain/permission.go:5-27 | the sixteen constants are 1, 2, 4, ... 0x8000 in declaration order, `Admin` first and `EditGroup` last |
| Permissions.FlagIsOneBit | internal/domain/permission.go:5-27 | every capability constant is nonzero and has exactly one bit set |
| Permissions.FlagsDisjoint | internal/domain/permission.go:5-27 | two distinct capability constants share no bit |
| Permissions.HoldsOnlyOwnBit | internal/domain/permission.go:29-91 | each test gives the same answer on `p` and on `p & X`, its own bit alone |
| Permissions.BitsIndependent | internal/domain/permission.go:29-91 | flipping another declared bit never changes a test's answer |
| Permissions.AdminAloneGrantsNoCapability | internal/domain/permission.go:33-91 | the bare `Admin` word passes none of the fifteen capability tests |
| Permissions.SettingAdminKeepsCapabilities | internal/domain/permission.go:33-91 | setting the `Admin` bit changes no capability test |
| Permissions.ClearingAdminKeepsCapabilities | internal/domain/permission.go:33-91 | clearing the `Admin` bit changes no capability test |
| Permissions.HoldsMonotone | internal/domain/permission.go:29-91 | a test that passes on `p` passes on the union of `p` and any `q`, for `IsAdmin` as for every capability |
| Permissions.UnionGrantsOnlyFromParts | internal/domain/permission.go:29-91 | a test that passes on the union of `p` and `q` passes on `p` or on `q` |
| Permissions.EmptyGrantsNothing | internal/domain/permission.go:29-91 | the empty word is not admin and passes no capability test |
| FileDomain.Code | internal/domain/file.go:8-15 | each named status stands for its declaration position, 0 to 5 |
| FileDomain.Named | internal/domain/file.go:4-15 | inverts `Code`: a decoded status has the integer as its code, and an integer that decodes to nothing is no status's code |
| FileDomain.NamedCode | internal/domain/file.go:8-15 | status to integer to status is the identity |
| FileDomain.CodeNamed | internal/domain/file.go:8-15 | integer to status to integer is the identity on 0..5 |
| FileDomain.DeclaredDistinct | internal/domain/file.go:8-15 | the six statuses are pairwise distinct |
| FileDomain.ZeroIsClientUploadInProgress | internal/domain/file.go:9 | the zero status value is `ClientUploadInProgress` |
| FileDomain.FileTypesDistinct | internal/domain/file.go:17-21 | the file types "image", "document" and "other" are distinct |
| FileDomain.StorageReachedOnlyThroughClaim | internal/domain/file.go:8-15 | auxiliary lifecycle: a file that starts in `ClientUploadInProgress` reaches `UploadedToStorage` only through `UploadedByClient` and then `StorageUploadInProgress` |
| FilesRepo.InsertedRow | internal/repository/files_pgx.go:23-24 | the insert yields a row only when given one argument per placeholder; the row carries the new identity, no URL and no update time |
| FilesRepo.CreateAsWrittenInsertsNothing | internal/repository/files_pgx.go:23-31 | as written, `Create` passes six arguments for seven placeholders, so the insert yields no row |
| FilesRepo.CreateArgsInsertCallerFields | internal/repository/files_pgx.go:23-31 | with the creation time passed too, the insert stores exactly the caller's owner, type, content type, name, size and status |
| FilesRepo.ClaimIsLegalTransition | internal/repository/files_pgx.go:56-62 | a claim takes a file from `UploadedByClient` to `StorageUploadInProgress`, a transition of the auxiliary lifecycle |
| FilesRepo.ClaimRemovesFromPending | internal/repository/files_pgx.go:56-58 | a claim removes exactly the claimed file from the set of files waiting for storage |
| FilesRepo.SuccessiveClaimsDistinct | internal/repository/files_pgx.go:56-58 | two claims in a row, with no update between them, never hand out the same file |
| FilesRepo.ClaimRunDrains | internal/repository/files_pgx.go:56-72 | a run of claims hands out distinct files that were all waiting at the start, and each claim shrinks the waiting set by one |
| FilesRepo.FilesTable.constructor | internal/repository/files_pgx.go:15-21 | a repository over a fresh database starts with no rows |
| FilesRepo.FilesTable.Create | internal/repository/files_pgx.go:26-40 | stores the caller's fields under an identity not yet used; gives back the caller's record with that identity and the creation time; nothing else changes |
| FilesRepo.FilesTable.UpdateStatus | internal/repository/files_pgx.go:42-54 | on a stored file, sets its status to any value whatever the prior status, and stamps the update time; otherwise reports `NotFound` and changes nothing |
| FilesRepo.FilesTable.GetForUploading | internal/repository/files_pgx.go:56-72 | with no file waiting, reports `NotFound` and changes nothing; otherwise moves exactly one waiting file to `StorageUploadInProgress` and returns it without its URL |
| FilesRepo.FilesTable.UpdateStatusAndSetURL | internal/repository/files_pgx.go:74-87 | on a stored file, sets status `UploadedToStorage` and the URL in one step whatever the prior status; otherwise reports `NotFound` and changes nothing |
| FilesRepo.FilesTable.GetByID | internal/repository/files_pgx.go:89-103 | returns the stored file with its identity filled in; an absent identity is a store failure, not `NotFound` |
| FilesRepo.ClaimTwice | internal/repository/files_pgx.go:56-72 | two claims on one table return different files; with one file waiting, the second reports `NotFound` |
| FilesRepo.CreateThenRead | internal/repository/files_pgx.go:26-40 | reading a file back after creating it gives the caller's record, with no update time and no URL |
| GroupsRepo.GroupsTable.constructor | internal/repository/groups_pgx.go:15-21 | a repository over a fresh database starts with no groups and no memberships |
| GroupsRepo.GroupsTable.Create | internal/repository/groups_pgx.go:23-37 | stores the caller's name and permissions under an identity not yet used; gives back the caller's record with that identity and the creation time |
| GroupsRepo.GroupsTable.Update | internal/repository/groups_pgx.go:39-50 | on a stored group, replaces its name and permissions and stamps the update time; otherwise reports `NotFound` and changes nothing |
| GroupsRepo.GroupsTable.Delete | internal/repository/groups_pgx.go:52-60 | removes the group if stored; an absent identity is not an error; memberships are untouched |
| GroupsRepo.GroupsTable.GetByID | internal/repository/groups_pgx.go:62-78 | returns the stored group with its identity filled in; an absent identity reports `NotFound` |
| GroupsRepo.GroupsTable.Scan | internal/repository/groups_pgx.go:131-154 | the row loop lists exactly the stored groups its filter accepts, each once |
| GroupsRepo.GroupsTable.GetByPermissions | internal/repository/groups_pgx.go:105-129 | lists exactly the stored groups whose permissions share a bit with the mask, each once |
| GroupsRepo.GroupsTable.GetAll | internal/repository/groups_pgx.go:131-154 | lists every stored group, each once, as many as the table holds |
| GroupsRepo.GroupsTable.AddUser | internal/repository/groups_pgx.go:156-168 | adds the pair (user, group) to the membership relation |
| GroupsRepo.GroupsTable.GetUserGroups | internal/repository/groups_pgx.go:170-194 | lists exactly the stored groups paired with the user, each once; a pair whose group is gone yields nothing |
| GroupsRepo.GroupsTable.RemoveUser | internal/repository/groups_pgx.go:196-204 | removes the pair (user, group); an absent pair is not an error and changes nothing |
| GroupsRepo.CreateThenRead | internal/repository/groups_pgx.go:23-78 | reading a group back after creating it gives the caller's record, with no update time |
| GroupsRepo.DeleteThenListUserGroups | internal/repository/groups_pgx.go:52-60 | deleting a group keeps its memberships, yet the user-groups query no longer lists it |
| GroupsRepo.SharesFlagIsHolds | internal/repository/groups_pgx.go:105-106 | the permissions query with one capability's bit keeps the groups that pass that capability's test |
| GroupsRepo.NothingSharesEmptyMask | internal/repository/groups_pgx.go:105-106 | the permissions query with the empty mask keeps no group |
| GroupsRepo.ListsAllKeys | internal/repository/groups_pgx.go:131-154 | a list holding each stored group once and nothing else is as long as the table |
| GroupsRepo.UnionGrantsOnlyFromMembers | internal/repository/groups_pgx.go:170-171 | auxiliary: the union of a user's group permissions grants a capability only if one of the groups grants it |
| GroupsRepo.UnionGrantsFromEachMember | internal/repository/groups_pgx.go:170-171 | auxiliary: the union grants every capability that one of the groups grants |

## Left out

- Database failures (connection, constraint and scan errors) are not modelled: no method fails for them. The one store failure the model has is `FilesRepo.FilesTable.GetByID` on an absent identity, which the code reports as a wrapped error.
- Clock readings are opaque parameters; the difference between `time.Now()` in Go and SQL `now()` is not modelled.
- Identities are unbounded naturals, sizes unbounded integers, and a permission is an unsigned 64-bit word. The 64-bit limits of the identity column and the signed `bigint` column are not modelled.
- `FileStatus` is Go's machine `int`; the model's status is an unbounded integer, so the wrap-around of an out-of-range status value is not modelled.
- GroupsRepo.GroupsTable.GetByPermissions: the SQL filter is `permissions & $1 > 0` on a signed 64-bit column, while the model tests the AND for being nonzero. The two agree only while bit 63 of the AND is clear; nothing in the model keeps bit 63 out of stored permissions or of the mask, so a group whose AND with the mask has bit 63 set is listed by the model but not by the code.
- A URL that was never set is the empty string. Whether the column holds SQL NULL, and whether reading such a row fails, depends on a schema that is not part of this model.
- Concurrency: each method is one atomic step. Whether two workers can claim the same file depends on how PostgreSQL runs the claim's subquery without row locks; that is not modelled.
- `GetByName` (groups_pgx.go:80-103) is not modelled: its filter is SQL `LIKE` pattern matching.
- GroupsRepo.GroupsTable.AddUser: always reports success. The code's `NotFound` branch (rows affected other than one) cannot fire on a single-row INSERT; duplicate pairs and pairs naming a missing user or group fail according to unseen schema constraints, which are not modelled.
- GroupsRepo.GroupsTable.Delete: memberships of the deleted group stay. Any cascade cleanup would come from the schema, which is not part of this model.
- The group record file (internal/domain/group.go) is not part of this model; the record's fields are read off the SQL statements.
- The other repositories (users, acts, act contents, donor companies, sessions) and the interface file are not part of this model.
- A reader may expect an administrator override in the capability tests, an effective-permission union, transition guards on the status updates and a URL set exactly at `UploadedToStorage`. The code has none of them, and the model does not present them as code behaviour.

## Findings

| source | as written | input that shows it | evidently intended | confidence | as-written member | corrected member |
|---|---|---|---|---|---|---|
| internal/repository/files_pgx.go:23-31 | the insert names seven placeholders, `Create` binds six values and never passes `createdAt` | any file record: the call has 6 arguments for `$1`..`$7` | pass `createdAt` as the seventh argument, so the row is stored with the caller's fields and the creation time | high; not executed | FilesRepo.CreateAsWrittenInsertsNothing | FilesRepo.CreateArgsInsertCallerFields |
