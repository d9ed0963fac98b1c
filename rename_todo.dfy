/** The `RenameTodo` use case: load the list's permission record, check the
    edit right, load the todo, save it renamed. */
module RenameTodoUseCase {
  import opened Results
  import opened TodoListPermissions
  import opened Todos
  import opened PermissionsRepository

  /** The todo table after the use case, or the error it stops with. The
      steps run in the source's order, so a missing permission record or a
      refused collaborator stops the use case before any todo is read. */
  function Rename(
    permissions: Table, todos: map<TodoId, Todo>,
    todoListId: TodoListId, todoId: TodoId, title: string, collaboratorId: CollaboratorId)
    : Result<map<TodoId, Todo>, TodoListError>
  {
    match FindPermission(permissions, todoListId)
    case Failure(e) => Failure(e)
    case Success(permission) =>
      match CanEditTodoList(permission, collaboratorId)
      case Fail(e) => Failure(e)
      case Pass =>
        if todoId !in todos then Failure(TodoNotFound(todoId))
        else
          var renamed := Todos.RenameTodo(todos[todoId], title);
          Success(todos[renamed.id := renamed])
  }

  /** Without a permission record for the list the use case fails with
      `TodoListNotFound`, whatever the todo table holds. */
  lemma RenameNeedsPermissionRecord(
    permissions: Table, todos: map<TodoId, Todo>,
    todoListId: TodoListId, todoId: TodoId, title: string, collaboratorId: CollaboratorId)
    requires forall i :: 0 <= i < |permissions| ==> permissions[i].todoListId != todoListId
    ensures Rename(permissions, todos, todoListId, todoId, title, collaboratorId) == Failure(TodoListNotFound(todoListId))
  {
  }

  /** A collaborator who is neither the owner nor listed is refused with
      `Forbidden` before the todo is looked up, so even a missing todo
      yields `Forbidden`. */
  lemma RenameRefusesOutsiders(
    permissions: Table, todos: map<TodoId, Todo>,
    todoListId: TodoListId, todoId: TodoId, title: string, collaboratorId: CollaboratorId)
    requires FindPermission(permissions, todoListId).Success?
    requires !IsOwnerOrCollaborator(FindPermission(permissions, todoListId).value, collaboratorId)
    ensures Rename(permissions, todos, todoListId, todoId, title, collaboratorId) == Failure(Forbidden(todoListId, collaboratorId))
  {
  }

  /** The use case succeeds exactly when the list has a permission record,
      the collaborator is its owner or a listed collaborator, and the todo
      exists. The todo's own list is not consulted. */
  lemma RenameSucceedsIff(
    permissions: Table, todos: map<TodoId, Todo>,
    todoListId: TodoListId, todoId: TodoId, title: string, collaboratorId: CollaboratorId)
    ensures Rename(permissions, todos, todoListId, todoId, title, collaboratorId).Success? <==>
      && FindPermission(permissions, todoListId).Success?
      && IsOwnerOrCollaborator(FindPermission(permissions, todoListId).value, collaboratorId)
      && todoId in todos
  {
  }

  /** On success exactly one todo changes: the one stored under `todoId`
      takes the new title and keeps its other fields; every other todo and
      the set of ids stay as they were. */
  lemma RenameChangesOnlyThatTodo(
    permissions: Table, todos: map<TodoId, Todo>,
    todoListId: TodoListId, todoId: TodoId, title: string, collaboratorId: CollaboratorId)
    requires WellKeyed(todos)
    requires Rename(permissions, todos, todoListId, todoId, title, collaboratorId).Success?
    ensures var after := Rename(permissions, todos, todoListId, todoId, title, collaboratorId).value;
      && WellKeyed(after)
      && after.Keys == todos.Keys
      && after[todoId] == todos[todoId].(title := title)
      && forall id :: id in todos && id != todoId ==> after[id] == todos[id]
  {
  }

  /** The use case picks the todo by id alone: a todo of list "B" is renamed
      through the permission record of list "A". */
  lemma RenameDoesNotCheckTodoList()
    ensures var permissions := [TodoListPermission("A", "u1", [])];
      var todos := map["t" := Todo("t", "B", "old", false)];
      Rename(permissions, todos, "A", "t", "new", "u1") == Success(map["t" := Todo("t", "B", "new", false)])
  {
    var permissions := [TodoListPermission("A", "u1", [])];
    var todos := map["t" := Todo("t", "B", "old", false)];
    assert FindPermission(permissions, "A") == Success(permissions[0]);
    assert CanEditTodoList(permissions[0], "u1") == Pass;
    assert todos["t" := Todo("t", "B", "new", false)] == map["t" := Todo("t", "B", "new", false)];
  }

  /** List L owned by U1 and shared with U2, holding todo T: U2 renames T;
      U3, who is neither, is refused and T is unchanged. */
  lemma RenameSharedListScenario()
    ensures var permissions := [TodoListPermission("L", "U1", ["U2"])];
      var todos := map["T" := Todo("T", "L", "title", false)];
      && Rename(permissions, todos, "L", "T", "new title", "U2") == Success(map["T" := Todo("T", "L", "new title", false)])
      && Rename(permissions, todos, "L", "T", "new title", "U3") == Failure(Forbidden("L", "U3"))
  {
    var permissions := [TodoListPermission("L", "U1", ["U2"])];
    var todos := map["T" := Todo("T", "L", "title", false)];
    assert FindPermission(permissions, "L") == Success(permissions[0]);
    assert CanEditTodoList(permissions[0], "U2") == Pass by {
      assert permissions[0].collaboratorsIds[0] == "U2";
    }
    assert todos["T" := Todo("T", "L", "new title", false)] == map["T" := Todo("T", "L", "new title", false)];
    assert CanEditTodoList(permissions[0], "U3") == Fail(Forbidden("L", "U3")) by {
      assert "U3" != "U1" && permissions[0].collaboratorsIds == ["U2"] && "U3" != "U2";
    }
  }

  /** The use case object with its two injected stores. */
  class RenameTodo {
    const todos: TodoStore
    const todoListPermissions: TodoListPermissionsDatabaseRepository

    constructor (todos: TodoStore, todoListPermissions: TodoListPermissionsDatabaseRepository)
      ensures this.todos == todos && this.todoListPermissions == todoListPermissions
    {
      this.todos := todos;
      this.todoListPermissions := todoListPermissions;
    }

    /** Runs the four steps in order. On any failure the todo table is
      left as it was; the permission table is never written. */
    method Execute(todoListId: TodoListId, todoId: TodoId, title: string, collaboratorId: CollaboratorId)
      returns (r: Outcome<TodoListError>)
      requires todos.Valid()
      modifies todos
      ensures todos.Valid()
      ensures todoListPermissions.rows == old(todoListPermissions.rows)
      ensures var expected := Rename(todoListPermissions.rows, old(todos.todos), todoListId, todoId, title, collaboratorId);
        && (expected.Success? ==> r == Pass && todos.todos == expected.value)
        && (expected.Failure? ==> r == Fail(expected.error) && todos.todos == old(todos.todos))
    {
      var permission := todoListPermissions.OfTodoList(todoListId);
      if permission.Failure? {
        return Fail(permission.error);
      }
      var allowed := CanEditTodoList(permission.value, collaboratorId);
      if allowed.Fail? {
        return Fail(allowed.error);
      }
      var todo := todos.OfId(todoId);
      if todo.Failure? {
        return Fail(todo.error);
      }
      todos.Save(Todos.RenameTodo(todo.value, title));
      r := Pass;
    }
  }
}
