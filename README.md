# Todo-list permissions, RenameTodo and the authentication service, in Dafny

This project models three pieces of a collaborative todo-list manager:

- **The todo-list permission table** (`TodoListPermissionsDatabaseRepository`).
  Each row binds a todo list to its owner and to a list of collaborator ids.
  The table is kept as its rows in table order (`seq<TodoListPermission>`) with
  the unique key `todoListId` as an invariant (`Unique`). A ghost keyed view
  `AsMap` maps each id to its row. `ofTodoList` is a find-first by id.
  `ofCollaborator` is the owner-or-member filter. `save` is an upsert keyed on
  the id: it inserts a new row, or replaces only the collaborator list of an
  existing one. `remove` deletes by key. The lemmas tie each write to an update
  of the keyed view, with every other key unchanged. They also prove that the
  writes keep one row per id.
- **The `RenameTodo` use case.** Its steps run in order: load the list's
  permission record, check the edit right (`canEditTodoList`, the same
  owner-or-collaborator condition the repository filter uses), load the todo by
  id, and save it renamed. `Rename` is that computation over the two tables.
  The class method `RenameTodo.Execute` runs it against the two store objects.
  The todo table is left as it was on every failure. The permission table is
  never written.
- **`AuthenticationApplicationService`.** Each use-case flow is an input given
  as its outcome: success with a value, or one typed error. Each service method
  is a step function. It gives the reply to the caller (a value, or the error
  thrown on) and the events handed to the bus. The catch policy `Catches` says
  which error kinds each method handles itself. The class keeps the bus as a
  `seq<Event>` and appends a step's events to it, only when the flow succeeded.

Modules: `Results` (Option/Result/Outcome), `TodoListPermissions` (the
permission record, errors, the edit guard), `Todos` (todos, `renameTodo`, the
todo store), `PermissionsRepository`, `RenameTodoUseCase`,
`AuthenticationEvents`, `AuthenticationService`.

## Model

| member | source | states |
|---|---|---|
| `TodoListPermissions.CanEditTodoList` | src/todo-list-manager/usecase/RenameTodo.ts:21 | passes iff the collaborator is the owner or occurs at some index of the collaborator list; otherwise fails with `Forbidden` |
| `TodoListPermissions.EveryMemberCanEdit` | src/todo-list-manager/usecase/RenameTodo.ts:21 | the owner and every listed collaborator pass the edit guard |
| `TodoListPermissions.OutsidersCannotEdit` | src/todo-list-manager/usecase/RenameTodo.ts:21 | anyone who is neither the owner nor listed is refused with `Forbidden` |
| `Todos.RenameTodo` | src/todo-list-manager/usecase/RenameTodo.ts:24 | the renamed todo has the new title and the same id, list and completion flag |
| `Todos.TodoStore.OfId` | src/todo-list-manager/usecase/RenameTodo.ts:23 | returns the stored todo under the id, or `TodoNotFound`; reads only |
| `Todos.TodoStore.Save` | src/todo-list-manager/usecase/RenameTodo.ts:24 | writes the todo under its own id, nothing else changes, the table stays keyed by id |
| `PermissionsRepository.FirstIndex` | src/todo-list-manager/infrastructure/TodoListPermissionsDatabaseRepository.ts:15-17 | finds no row exactly when no row has the id; otherwise the index of the first row with the id |
| `PermissionsRepository.FindPermission` | src/todo-list-manager/infrastructure/TodoListPermissionsDatabaseRepository.ts:14-25 | fails with `TodoListNotFound(id)` exactly when no row has the id; a success is the first stored row with that id |
| `PermissionsRepository.FindPermissionReturnsStoredRow` | src/todo-list-manager/infrastructure/TodoListPermissionsDatabaseRepository.ts:21-25 | on a table with unique keys, looking up a stored row's id returns that row with owner and collaborators as stored |
| `PermissionsRepository.FindPermissionIsKeyedLookup` | src/todo-list-manager/infrastructure/TodoListPermissionsDatabaseRepository.ts:14-25 | the lookup succeeds iff the id is a key of the keyed view, and then returns the view's row |
| `PermissionsRepository.AsMapKeys` | src/todo-list-manager/infrastructure/TodoListPermissionsDatabaseRepository.ts:15-17 | the keys of the keyed view are exactly the ids occurring in the table |
| `PermissionsRepository.FilterByCollaborator` | src/todo-list-manager/infrastructure/TodoListPermissionsDatabaseRepository.ts:28-48 | returns exactly the stored rows whose owner is the collaborator or whose list contains it: no other rows, none missing |
| `PermissionsRepository.FilterByCollaboratorMatchesGuard` | src/todo-list-manager/infrastructure/TodoListPermissionsDatabaseRepository.ts:31-48 | a record is returned for a collaborator iff it is stored and the edit guard passes for that collaborator |
| `PermissionsRepository.FilterByCollaboratorHasUniqueKeys` | src/todo-list-manager/infrastructure/TodoListPermissionsDatabaseRepository.ts:44-48 | on a table with unique keys, each todo list is returned at most once |
| `PermissionsRepository.SetCollaborators` | src/todo-list-manager/infrastructure/TodoListPermissionsDatabaseRepository.ts:59 | rows with the id get the new collaborator list, with id and owner kept; all other rows are unchanged, in place |
| `PermissionsRepository.AsMapSetCollaborators` | src/todo-list-manager/infrastructure/TodoListPermissionsDatabaseRepository.ts:59 | the update branch changes only the id's entry of the keyed view, and only its collaborator list |
| `PermissionsRepository.AsMapAppendNew` | src/todo-list-manager/infrastructure/TodoListPermissionsDatabaseRepository.ts:54-58 | inserting a row under a new id adds exactly that key, with the whole record, to the keyed view |
| `PermissionsRepository.UpsertIsKeyed` | src/todo-list-manager/infrastructure/TodoListPermissionsDatabaseRepository.ts:51-61 | save maps a new id to the whole record; an existing id keeps its stored owner and takes the new collaborators; every other id is untouched |
| `PermissionsRepository.FindPermissionAfterUpsert` | src/todo-list-manager/infrastructure/TodoListPermissionsDatabaseRepository.ts:52-59 | after save, the saved id's lookup returns the record (new id) or the old row with the new collaborators (existing id); other lookups are as before |
| `PermissionsRepository.UpsertKeepsKeysUnique` | src/todo-list-manager/infrastructure/TodoListPermissionsDatabaseRepository.ts:52-53 | save keeps at most one row per id and adds a row exactly when the id was new |
| `PermissionsRepository.Delete` | src/todo-list-manager/infrastructure/TodoListPermissionsDatabaseRepository.ts:64-66 | the result holds exactly the rows whose id differs from the deleted one |
| `PermissionsRepository.AsMapDelete` | src/todo-list-manager/infrastructure/TodoListPermissionsDatabaseRepository.ts:63-67 | deleting an id removes that key from the keyed view and nothing else |
| `PermissionsRepository.DeleteKeepsUnique` | src/todo-list-manager/infrastructure/TodoListPermissionsDatabaseRepository.ts:64-66 | a delete keeps the keys of a table with unique keys unique |
| `PermissionsRepository.DeleteDropsOneRow` | src/todo-list-manager/infrastructure/TodoListPermissionsDatabaseRepository.ts:64-66 | on a table with unique keys, a delete drops one row exactly when the id is present, and none otherwise |
| `PermissionsRepository.DeleteRecordDropsKey` | src/todo-list-manager/infrastructure/TodoListPermissionsDatabaseRepository.ts:63-67 | remove fails with `RecordNotFound` iff no row has the id; a success drops exactly that key, keeps the others and removes one row |
| `PermissionsRepository.FindPermissionAfterDelete` | src/todo-list-manager/infrastructure/TodoListPermissionsDatabaseRepository.ts:63-67 | when a row has the id, remove succeeds; afterwards the id is not found and every other lookup is as before |
| `PermissionsRepository.TodoListPermissionsDatabaseRepository.OfTodoList` | src/todo-list-manager/infrastructure/TodoListPermissionsDatabaseRepository.ts:14-26 | answers the find-first lookup on the current rows and modifies nothing |
| `PermissionsRepository.TodoListPermissionsDatabaseRepository.OfCollaborator` | src/todo-list-manager/infrastructure/TodoListPermissionsDatabaseRepository.ts:28-49 | answers the owner-or-member filter on the current rows and modifies nothing |
| `PermissionsRepository.TodoListPermissionsDatabaseRepository.Save` | src/todo-list-manager/infrastructure/TodoListPermissionsDatabaseRepository.ts:51-61 | the rows become the keyed upsert of the old rows; uniqueness of the key is kept |
| `PermissionsRepository.TodoListPermissionsDatabaseRepository.Remove` | src/todo-list-manager/infrastructure/TodoListPermissionsDatabaseRepository.ts:63-67 | the rows lose the record's id, or the call fails with `RecordNotFound` and the rows are unchanged; uniqueness is kept |
| `RenameTodoUseCase.RenameNeedsPermissionRecord` | src/todo-list-manager/usecase/RenameTodo.ts:20 | without a permission record for the list, the rename fails with `TodoListNotFound`, whatever the todos are |
| `RenameTodoUseCase.RenameRefusesOutsiders` | src/todo-list-manager/usecase/RenameTodo.ts:21-23 | a collaborator who fails the edit check gets `Forbidden` before any todo is read, even when the todo is missing |
| `RenameTodoUseCase.RenameSucceedsIff` | src/todo-list-manager/usecase/RenameTodo.ts:20-24 | the rename succeeds iff the list has a record, the collaborator is its owner or listed, and the todo id is stored |
| `RenameTodoUseCase.RenameChangesOnlyThatTodo` | src/todo-list-manager/usecase/RenameTodo.ts:23-24 | on success only the todo under `todoId` changes, to the new title with its other fields kept; the set of ids is the same |
| `RenameTodoUseCase.RenameDoesNotCheckTodoList` | src/todo-list-manager/usecase/RenameTodo.ts:23 | a todo of another list is renamed through this list's record: the todo is chosen by id only |
| `RenameTodoUseCase.RenameSharedListScenario` | src/todo-list-manager/usecase/RenameTodo.ts:20-24 | list L of U1 shared with U2: U2 renames todo T; U3 is refused with `Forbidden` |
| `RenameTodoUseCase.RenameTodo.Execute` | src/todo-list-manager/usecase/RenameTodo.ts:14-25 | runs the steps against the stores; on success the todo table becomes the renamed table, on failure it is unchanged; the permission table is not written |
| `AuthenticationEvents.Event.Type` | src/authentication/domain/UserRegistered.ts:3-11 | the `TYPE` tag is "user.registered" exactly for `UserRegistered` |
| `AuthenticationService.LoginStep` | src/authentication/application/AuthenticationApplicationService.ts:37-55 | success gives the session with the flow's user id; `AccountNotVerified` gives its message; `InvalidCredentials` gives the fixed message; every other error is thrown on unchanged; no event |
| `AuthenticationService.RegisterStep` | src/authentication/application/AuthenticationApplicationService.ts:57-76 | publishes exactly one `UserRegistered(email, verificationToken)` iff the flow succeeds; `EmailAlreadyInUse` gives `{ message }`; other errors are thrown on |
| `AuthenticationService.RegisterPublishesUserRegistered` | src/authentication/application/AuthenticationApplicationService.ts:65-67 | a successful registration publishes one event tagged "user.registered" with the account's email and token |
| `AuthenticationService.VerifyAccountStep` | src/authentication/application/AuthenticationApplicationService.ts:78-82 | success gives `{ userId, id }` with the flow's user id; no error is caught; no event |
| `AuthenticationService.ForgotPasswordStep` | src/authentication/application/AuthenticationApplicationService.ts:84-101 | success publishes `PasswordForgotten(email, resetToken)`; `AccountNotFound` and `AccountNotVerified` resolve normally with no event; other errors are thrown on |
| `AuthenticationService.ForgotPasswordHidesAccountState` | src/authentication/application/AuthenticationApplicationService.ts:95-97 | an unknown or unverified account yields the same reply as a success and publishes nothing |
| `AuthenticationService.ResetPasswordStep` | src/authentication/application/AuthenticationApplicationService.ts:103-111 | publishes `PasswordChanged(email)` only after the flow completes; any error is thrown on and nothing is published |
| `AuthenticationService.AuthenticationApplicationService.Login` | src/authentication/application/AuthenticationApplicationService.ts:37-55 | replies as `LoginStep` and modifies nothing |
| `AuthenticationService.AuthenticationApplicationService.Register` | src/authentication/application/AuthenticationApplicationService.ts:57-76 | replies as `RegisterStep` and appends its events, and only those, to the bus |
| `AuthenticationService.AuthenticationApplicationService.VerifyAccount` | src/authentication/application/AuthenticationApplicationService.ts:78-82 | replies as `VerifyAccountStep` and modifies nothing |
| `AuthenticationService.AuthenticationApplicationService.ForgotPassword` | src/authentication/application/AuthenticationApplicationService.ts:84-101 | replies as `ForgotPasswordStep` and appends its events, and only those, to the bus |
| `AuthenticationService.AuthenticationApplicationService.ResetPassword` | src/authentication/application/AuthenticationApplicationService.ts:103-111 | replies as `ResetPasswordStep` and appends its events, and only those, to the bus |

## Left out

- `authenticationStatus`: it passes through to a session query that is not part of this model.
- The internals of `LoginFlow`, `RegisterFlow`, `VerifyAccount`, `ForgotPassword` and `ResetPassword` are not part of this model. Each flow is an input given as its outcome. So account-store properties such as "registering an email twice fails the second time" are not modelled.
- `uuid()` session ids are a parameter (`sessionId`). The clock and password hashing are inside the flows and do not appear.
- The `Todos` store (`ofId`, `save`) and `canEditTodoList`/`renameTodo` live in files that are not part of this model. `ofId` is assumed to fail with `TodoNotFound` for a missing id, and `save` to write the todo under its id. The guard is the owner-or-collaborator condition of the repository filter. Its error is named `Forbidden` here, with the list and collaborator ids as its payload. The todo fields other than id, list, title and completion flag are left out.
- The error messages of the typed errors are defined in files not part of this model. Each error carries its message as a field.
- The `TYPE` tags of `PasswordForgotten` and `PasswordChanged` are not part of this model, so `Event.Type` gives `None` for them.
- There is no async and no concurrency: each call is one sequential step. Last-writer-wins between concurrent requests is not modelled.
- The store's row order: the table is a sequence and `save` appends new rows at the end. So `ofCollaborator` returns table order. The database promises no order, and the lemmas about the queries state only membership.
- The JSON `array_contains` query is plain membership in the `seq` of collaborator ids. The Prisma and NestJS plumbing is left out.
- `remove` on a missing id: the store's delete throws, which is modelled as `RecordNotFound` with the table unchanged. A caller that passes a stored record always gets the success branch.
- The "owner is never a collaborator" invariant is described for the data model but is not enforced by the code modelled here, so it is not assumed or proved.
- The collaborators are a list (`seq`), as the code stores them, rather than a set. Duplicates are possible and are kept.
- The React components (`TodoListHeader`, `ShareButton`) and the route handler are UI with no logic to verify.
