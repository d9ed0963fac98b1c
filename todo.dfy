/** Todo items, the pure `renameTodo` transformation, and the todo store the
    rename use case reads from and writes to. */
module Todos {
  import opened Results
  import opened TodoListPermissions

  datatype Todo = Todo(id: TodoId, todoListId: TodoListId, title: string, isComplete: bool)

  /** `renameTodo`: the todo with the new title and every other field kept. */
  function RenameTodo(todo: Todo, title: string): (r: Todo)
    ensures r.title == title
    ensures r.id == todo.id && r.todoListId == todo.todoListId && r.isComplete == todo.isComplete
  {
    todo.(title := title)
  }

  /** Every todo is stored under its own id (the id is the table's key). */
  ghost predicate WellKeyed(todos: map<TodoId, Todo>)
  {
    forall id :: id in todos ==> todos[id].id == id
  }

  /** The todo table behind the `Todos` port: `ofId` looks a todo up by id
      and `save` writes it under its id. */
  class TodoStore {
    var todos: map<TodoId, Todo>

    ghost predicate Valid()
      reads this
    {
      WellKeyed(todos)
    }

    constructor (initial: map<TodoId, Todo>)
      requires WellKeyed(initial)
      ensures Valid() && todos == initial
    {
      todos := initial;
    }

    method OfId(todoId: TodoId) returns (r: Result<Todo, TodoListError>)
      ensures todoId in todos ==> r == Success(todos[todoId])
      ensures todoId !in todos ==> r == Failure(TodoNotFound(todoId))
    {
      if todoId in todos {
        r := Success(todos[todoId]);
      } else {
        r := Failure(TodoNotFound(todoId));
      }
    }

    method Save(todo: Todo)
      requires Valid()
      modifies this
      ensures Valid()
      ensures todos == old(todos)[todo.id := todo]
    {
      todos := todos[todo.id := todo];
    }
  }
}
