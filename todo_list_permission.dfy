/** The authorization record of a todo list, the errors of the todo-list
    manager, and the edit guard `canEditTodoList`. */
module TodoListPermissions {
  import opened Results

  type TodoListId = string
  type TodoId = string
  type CollaboratorId = string

  /** Who may act on one todo list: its owner and the collaborators it is
      shared with. The collaborator list is stored as a JSON array of ids. */
  datatype TodoListPermission = TodoListPermission(
    todoListId: TodoListId,
    ownerId: CollaboratorId,
    collaboratorsIds: seq<CollaboratorId>)

  /** Errors raised by the permission store, the edit guard and the todo store. */
  datatype TodoListError =
    | TodoListNotFound(todoListId: TodoListId)
      /** The edit guard refused the acting collaborator. */
    | Forbidden(todoListId: TodoListId, collaboratorId: CollaboratorId)
    | TodoNotFound(todoId: TodoId)
      /** The store's delete found no row under the key. */
    | RecordNotFound(todoListId: TodoListId)

  /** The owner-or-listed-collaborator condition: the filter of the
      repository's collaborator query and the edit guard both use it. */
  predicate IsOwnerOrCollaborator(permission: TodoListPermission, collaboratorId: CollaboratorId)
  {
    permission.ownerId == collaboratorId || collaboratorId in permission.collaboratorsIds
  }

  /** `canEditTodoList`: passes for the owner and for every listed
      collaborator, and fails with `Forbidden` for anyone else. */
  function CanEditTodoList(permission: TodoListPermission, collaboratorId: CollaboratorId): (r: Outcome<TodoListError>)
    ensures r.Pass? <==>
      (collaboratorId == permission.ownerId ||
       exists i :: 0 <= i < |permission.collaboratorsIds| && permission.collaboratorsIds[i] == collaboratorId)
    ensures r.Fail? ==> r.error == Forbidden(permission.todoListId, collaboratorId)
  {
    if IsOwnerOrCollaborator(permission, collaboratorId) then Pass
    else Fail(Forbidden(permission.todoListId, collaboratorId))
  }

  /** Membership completeness: the owner and each entry of the collaborator
      list pass the guard, so the guard has no false negative. */
  lemma EveryMemberCanEdit(permission: TodoListPermission)
    ensures CanEditTodoList(permission, permission.ownerId) == Pass
    ensures forall i :: 0 <= i < |permission.collaboratorsIds| ==>
      CanEditTodoList(permission, permission.collaboratorsIds[i]) == Pass
  {
  }

  /** Nobody outside the owner and the collaborator list passes the guard,
      so the guard has no false positive. */
  lemma OutsidersCannotEdit(permission: TodoListPermission, collaboratorId: CollaboratorId)
    requires collaboratorId != permission.ownerId
    requires forall i :: 0 <= i < |permission.collaboratorsIds| ==> permission.collaboratorsIds[i] != collaboratorId
    ensures CanEditTodoList(permission, collaboratorId) == Fail(Forbidden(permission.todoListId, collaboratorId))
  {
  }
}
