/** The todo-list permission table: the rows in table order, the queries
    `ofTodoList` and `ofCollaborator`, and the writes `save` (an upsert keyed
    on `todoListId`) and `remove` (a delete by key). */
module PermissionsRepository {
  import opened Results
  import opened TodoListPermissions

  /** The stored rows, in table order. The table's unique key is `todoListId`. */
  type Table = seq<TodoListPermission>

  /** At most one row per `todoListId`. */
  ghost predicate Unique(rows: Table)
  {
    forall i, j :: 0 <= i < j < |rows| ==> rows[i].todoListId != rows[j].todoListId
  }

  /** The keyed view of the table: each id to the first row that carries it
      (on a table with unique keys, the only one). */
  ghost function AsMap(rows: Table): map<TodoListId, TodoListPermission>
  {
    if |rows| == 0 then map[] else AsMap(rows[1..])[rows[0].todoListId := rows[0]]
  }

  /** `findFirst` on `todoListId`: the index of the first row with that id. */
  function FirstIndex(rows: Table, id: TodoListId): (r: Option<nat>)
    ensures r.None? <==> forall i :: 0 <= i < |rows| ==> rows[i].todoListId != id
    ensures r.Some? ==>
      && r.value < |rows|
      && rows[r.value].todoListId == id
      && forall j :: 0 <= j < r.value ==> rows[j].todoListId != id
  {
    if |rows| == 0 then None
    else if rows[0].todoListId == id then Some(0)
    else match FirstIndex(rows[1..], id)
      case None => None
      case Some(k) => Some(k + 1)
  }

  /** `ofTodoList`: the first row with the id, copied field by field, or
      `TodoListNotFound`. */
  function FindPermission(rows: Table, id: TodoListId): (r: Result<TodoListPermission, TodoListError>)
    ensures r.Failure? <==> forall i :: 0 <= i < |rows| ==> rows[i].todoListId != id
    ensures r.Failure? ==> r.error == TodoListNotFound(id)
    ensures r.Success? ==> r.value in rows && r.value.todoListId == id
    ensures r.Success? ==> FirstIndex(rows, id).Some? && r.value == rows[FirstIndex(rows, id).value]
  {
    match FirstIndex(rows, id)
    case None => Failure(TodoListNotFound(id))
    case Some(i) =>
      var row := rows[i];
      Success(TodoListPermission(row.todoListId, row.ownerId, row.collaboratorsIds))
  }

  /** `ofCollaborator`: the rows whose owner is the collaborator or whose
      collaborator list contains it, in table order. */
  function FilterByCollaborator(rows: Table, collaboratorId: CollaboratorId): (r: seq<TodoListPermission>)
    ensures |r| <= |rows|
    ensures forall p :: p in r <==> p in rows && IsOwnerOrCollaborator(p, collaboratorId)
  {
    if |rows| == 0 then []
    else
      var rest := FilterByCollaborator(rows[1..], collaboratorId);
      assert forall p :: p in rows <==> p == rows[0] || p in rows[1..];
      if IsOwnerOrCollaborator(rows[0], collaboratorId) then [rows[0]] + rest else rest
  }

  /** The `update` branch of the upsert: the row with the id gets the new
      collaborator list; every other column and row is kept. */
  function SetCollaborators(rows: Table, id: TodoListId, collaboratorsIds: seq<CollaboratorId>): (r: Table)
    ensures |r| == |rows|
    ensures forall i :: 0 <= i < |rows| ==>
      r[i] == if rows[i].todoListId == id then rows[i].(collaboratorsIds := collaboratorsIds) else rows[i]
  {
    if |rows| == 0 then []
    else
      var head := if rows[0].todoListId == id then rows[0].(collaboratorsIds := collaboratorsIds) else rows[0];
      [head] + SetCollaborators(rows[1..], id, collaboratorsIds)
  }

  /** `save`: an upsert keyed on `todoListId`. A new id is inserted with all
      three columns; an existing one only has its collaborator list replaced. */
  function Upsert(rows: Table, permission: TodoListPermission): Table
  {
    if FirstIndex(rows, permission.todoListId).Some? then
      SetCollaborators(rows, permission.todoListId, permission.collaboratorsIds)
    else
      rows + [permission]
  }

  /** The rows left after deleting every row with the id. */
  function Delete(rows: Table, id: TodoListId): (r: Table)
    ensures |r| <= |rows|
    ensures forall p :: p in r <==> p in rows && p.todoListId != id
  {
    if |rows| == 0 then []
    else
      var rest := Delete(rows[1..], id);
      assert forall p :: p in rows <==> p == rows[0] || p in rows[1..];
      if rows[0].todoListId == id then rest else [rows[0]] + rest
  }

  /** `remove`: a delete by the record's `todoListId`; the store raises
      `RecordNotFound` when no row has that key. */
  function DeleteRecord(rows: Table, permission: TodoListPermission): Result<Table, TodoListError>
  {
    if FirstIndex(rows, permission.todoListId).Some? then Success(Delete(rows, permission.todoListId))
    else Failure(RecordNotFound(permission.todoListId))
  }

  // ----- The keyed view -----

  /** A lookup answers exactly what the keyed view holds. */
  lemma {:induction false} FindPermissionIsKeyedLookup(rows: Table, id: TodoListId)
    ensures id in AsMap(rows) <==> FindPermission(rows, id).Success?
    ensures id in AsMap(rows) ==> FindPermission(rows, id) == Success(AsMap(rows)[id])
  {
    if |rows| > 0 && rows[0].todoListId != id {
      FindPermissionIsKeyedLookup(rows[1..], id);
      assert FirstIndex(rows, id) == match FirstIndex(rows[1..], id)
        case None => None case Some(k) => Some(k + 1);
    }
  }

  /** A row appended under a new key adds exactly that key to the view. */
  lemma {:induction false} AsMapAppendNew(rows: Table, permission: TodoListPermission)
    requires permission.todoListId !in AsMap(rows)
    ensures AsMap(rows + [permission]) == AsMap(rows)[permission.todoListId := permission]
  {
    if |rows| > 0 {
      assert (rows + [permission])[1..] == rows[1..] + [permission];
      AsMapAppendNew(rows[1..], permission);
    }
  }

  /** Replacing the collaborator list of a key changes only that key's entry. */
  lemma {:induction false} AsMapSetCollaborators(rows: Table, id: TodoListId, collaboratorsIds: seq<CollaboratorId>)
    ensures id in AsMap(rows) ==>
      AsMap(SetCollaborators(rows, id, collaboratorsIds)) == AsMap(rows)[id := AsMap(rows)[id].(collaboratorsIds := collaboratorsIds)]
    ensures id !in AsMap(rows) ==> AsMap(SetCollaborators(rows, id, collaboratorsIds)) == AsMap(rows)
  {
    if |rows| > 0 {
      var r := SetCollaborators(rows, id, collaboratorsIds);
      assert r[1..] == SetCollaborators(rows[1..], id, collaboratorsIds);
      AsMapSetCollaborators(rows[1..], id, collaboratorsIds);
    }
  }

  /** Deleting a key removes that key from the view and nothing else. */
  lemma {:induction false} AsMapDelete(rows: Table, id: TodoListId)
    ensures AsMap(Delete(rows, id)) == AsMap(rows) - {id}
  {
    if |rows| > 0 {
      AsMapDelete(rows[1..], id);
      if rows[0].todoListId != id {
        assert Delete(rows, id)[1..] == Delete(rows[1..], id);
      }
    }
  }

  /** The keys of the view are the ids that occur in the table. */
  lemma {:induction false} AsMapKeys(rows: Table, id: TodoListId)
    ensures id in AsMap(rows) <==> exists i :: 0 <= i < |rows| && rows[i].todoListId == id
  {
    FindPermissionIsKeyedLookup(rows, id);
  }

  // ----- Properties of the four operations -----

  /** On a table with unique keys, `ofTodoList` of a stored id returns that
      stored row with all three columns as stored. */
  lemma FindPermissionReturnsStoredRow(rows: Table, i: nat)
    requires Unique(rows) && i < |rows|
    ensures FindPermission(rows, rows[i].todoListId) == Success(rows[i])
  {
    var k := FirstIndex(rows, rows[i].todoListId);
    assert k.Some? && k.value == i;
  }

  /** The collaborator query lists exactly the stored lists the edit guard
      lets the collaborator edit. */
  lemma FilterByCollaboratorMatchesGuard(rows: Table, collaboratorId: CollaboratorId, permission: TodoListPermission)
    ensures permission in FilterByCollaborator(rows, collaboratorId) <==>
      permission in rows && CanEditTodoList(permission, collaboratorId).Pass?
  {
  }

  /** On a table with unique keys, the collaborator query lists each todo
      list at most once. */
  lemma {:induction false} FilterByCollaboratorHasUniqueKeys(rows: Table, collaboratorId: CollaboratorId)
    requires Unique(rows)
    ensures Unique(FilterByCollaborator(rows, collaboratorId))
  {
    if |rows| > 0 {
      UniqueTail(rows);
      FilterByCollaboratorHasUniqueKeys(rows[1..], collaboratorId);
      if IsOwnerOrCollaborator(rows[0], collaboratorId) {
        UniqueCons(rows[0], FilterByCollaborator(rows[1..], collaboratorId));
      }
    }
  }

  /** `save` is a keyed upsert: a new id maps to the whole record; an
      existing id keeps its stored owner and takes the new collaborator
      list; every other id is untouched. */
  lemma UpsertIsKeyed(rows: Table, permission: TodoListPermission)
    ensures var id := permission.todoListId;
      AsMap(Upsert(rows, permission)) ==
        if id in AsMap(rows) then AsMap(rows)[id := AsMap(rows)[id].(collaboratorsIds := permission.collaboratorsIds)]
        else AsMap(rows)[id := permission]
  {
    var id := permission.todoListId;
    FindPermissionIsKeyedLookup(rows, id);
    if id in AsMap(rows) {
      AsMapSetCollaborators(rows, id, permission.collaboratorsIds);
    } else {
      AsMapAppendNew(rows, permission);
    }
  }

  /** What `ofTodoList` answers after a `save`, for every id. */
  lemma FindPermissionAfterUpsert(rows: Table, permission: TodoListPermission, id: TodoListId)
    ensures id != permission.todoListId ==> FindPermission(Upsert(rows, permission), id) == FindPermission(rows, id)
    ensures id == permission.todoListId && FindPermission(rows, id).Failure? ==>
      FindPermission(Upsert(rows, permission), id) == Success(permission)
    ensures id == permission.todoListId && FindPermission(rows, id).Success? ==>
      FindPermission(Upsert(rows, permission), id) ==
        Success(FindPermission(rows, id).value.(collaboratorsIds := permission.collaboratorsIds))
  {
    UpsertIsKeyed(rows, permission);
    FindPermissionIsKeyedLookup(rows, id);
    FindPermissionIsKeyedLookup(Upsert(rows, permission), id);
  }

  /** `save` keeps at most one row per `todoListId`, and adds a row exactly
      when the id was new. */
  lemma UpsertKeepsKeysUnique(rows: Table, permission: TodoListPermission)
    requires Unique(rows)
    ensures Unique(Upsert(rows, permission))
    ensures |Upsert(rows, permission)| ==
      if FirstIndex(rows, permission.todoListId).Some? then |rows| else |rows| + 1
  {
  }

  /** A table with unique keys: its tail has unique keys, and no row of the
      tail shares the head's key. */
  lemma UniqueTail(rows: Table)
    requires Unique(rows) && |rows| > 0
    ensures Unique(rows[1..])
    ensures forall p :: p in rows[1..] ==> p.todoListId != rows[0].todoListId
  {
    forall p | p in rows[1..] ensures p.todoListId != rows[0].todoListId {
      var j :| 0 <= j < |rows[1..]| && rows[1..][j] == p;
      assert rows[j + 1] == p;
    }
  }

  /** A row put in front of a table with unique keys that does not hold its
      key keeps the keys unique. */
  lemma UniqueCons(row: TodoListPermission, rest: Table)
    requires Unique(rest)
    requires forall p :: p in rest ==> p.todoListId != row.todoListId
    ensures Unique([row] + rest)
  {
    var d := [row] + rest;
    forall i, j | 0 <= i < j < |d| ensures d[i].todoListId != d[j].todoListId {
      if i == 0 {
        assert d[j] == rest[j - 1];
      } else {
        assert d[i] == rest[i - 1] && d[j] == rest[j - 1];
      }
    }
  }

  /** Deleting a key keeps the keys of the table unique. */
  lemma {:induction false} DeleteKeepsUnique(rows: Table, id: TodoListId)
    requires Unique(rows)
    ensures Unique(Delete(rows, id))
  {
    if |rows| > 0 {
      UniqueTail(rows);
      DeleteKeepsUnique(rows[1..], id);
      if rows[0].todoListId != id {
        UniqueCons(rows[0], Delete(rows[1..], id));
      }
    }
  }

  /** Deleting a key from a table with unique keys drops exactly one row
      when the key is present, and none otherwise. */
  lemma {:induction false} DeleteDropsOneRow(rows: Table, id: TodoListId)
    requires Unique(rows)
    ensures |Delete(rows, id)| == if FirstIndex(rows, id).Some? then |rows| - 1 else |rows|
  {
    if |rows| > 0 {
      UniqueTail(rows);
      DeleteDropsOneRow(rows[1..], id);
      if rows[0].todoListId == id {
        assert FirstIndex(rows[1..], id).None? by {
          forall j | 0 <= j < |rows[1..]| ensures rows[1..][j].todoListId != id {
            assert rows[1..][j] in rows[1..];
          }
        }
      } else {
        assert FirstIndex(rows, id).Some? == FirstIndex(rows[1..], id).Some?;
      }
    }
  }

  /** `remove` fails with `RecordNotFound` and changes nothing when no row
      has the key; otherwise it drops that key from the keyed view, leaves
      every other key as it was, and removes one row of a table with unique
      keys. */
  lemma DeleteRecordDropsKey(rows: Table, permission: TodoListPermission)
    ensures var id := permission.todoListId;
      DeleteRecord(rows, permission).Failure? <==> id !in AsMap(rows)
    ensures DeleteRecord(rows, permission).Failure? ==> DeleteRecord(rows, permission).error == RecordNotFound(permission.todoListId)
    ensures DeleteRecord(rows, permission).Success? ==>
      AsMap(DeleteRecord(rows, permission).value) == AsMap(rows) - {permission.todoListId}
    ensures Unique(rows) && DeleteRecord(rows, permission).Success? ==>
      Unique(DeleteRecord(rows, permission).value) && |DeleteRecord(rows, permission).value| == |rows| - 1
  {
    FindPermissionIsKeyedLookup(rows, permission.todoListId);
    AsMapDelete(rows, permission.todoListId);
    if Unique(rows) {
      DeleteKeepsUnique(rows, permission.todoListId);
      DeleteDropsOneRow(rows, permission.todoListId);
    }
  }

  /** What `ofTodoList` answers after a successful `remove`, for every id. */
  lemma FindPermissionAfterDelete(rows: Table, permission: TodoListPermission, id: TodoListId)
    requires FirstIndex(rows, permission.todoListId).Some?
    ensures DeleteRecord(rows, permission).Success?
    ensures id == permission.todoListId ==>
      FindPermission(DeleteRecord(rows, permission).value, id) == Failure(TodoListNotFound(id))
    ensures id != permission.todoListId ==>
      FindPermission(DeleteRecord(rows, permission).value, id) == FindPermission(rows, id)
  {
    DeleteRecordDropsKey(rows, permission);
    FindPermissionIsKeyedLookup(rows, id);
    FindPermissionIsKeyedLookup(DeleteRecord(rows, permission).value, id);
  }

  /** The repository object: the table's rows, read by the two queries and
      rewritten by `save` and `remove`. */
  class TodoListPermissionsDatabaseRepository {
    var rows: Table

    ghost predicate Valid()
      reads this
    {
      Unique(rows)
    }

    constructor (initial: Table)
      requires Unique(initial)
      ensures Valid() && rows == initial
    {
      rows := initial;
    }

    /** Reads the table and leaves it as it is (the method modifies nothing). */
    method OfTodoList(todoListId: TodoListId) returns (r: Result<TodoListPermission, TodoListError>)
      ensures r == FindPermission(rows, todoListId)
    {
      var found := FirstIndex(rows, todoListId);
      if found.None? {
        return Failure(TodoListNotFound(todoListId));
      }
      var row := rows[found.value];
      r := Success(TodoListPermission(row.todoListId, row.ownerId, row.collaboratorsIds));
    }

    /** Reads the table and leaves it as it is (the method modifies nothing). */
    method OfCollaborator(collaboratorId: CollaboratorId) returns (r: seq<TodoListPermission>)
      ensures r == FilterByCollaborator(rows, collaboratorId)
    {
      r := FilterByCollaborator(rows, collaboratorId);
    }

    method Save(todoListPermission: TodoListPermission)
      requires Valid()
      modifies this
      ensures Valid()
      ensures rows == Upsert(old(rows), todoListPermission)
    {
      UpsertKeepsKeysUnique(rows, todoListPermission);
      rows := Upsert(rows, todoListPermission);
    }

    method Remove(todoListPermission: TodoListPermission) returns (r: Outcome<TodoListError>)
      requires Valid()
      modifies this
      ensures Valid()
      ensures var expected := DeleteRecord(old(rows), todoListPermission);
        && (expected.Success? ==> r == Pass && rows == expected.value)
        && (expected.Failure? ==> r == Fail(expected.error) && rows == old(rows))
    {
      DeleteRecordDropsKey(rows, todoListPermission);
      var expected := DeleteRecord(rows, todoListPermission);
      if expected.Failure? {
        return Fail(expected.error);
      }
      rows := expected.value;
      r := Pass;
    }
  }
}
