/**
 * The workspaces table: one row per workspace, soft-deleted rows kept with a
 * deletion time. Times are nanosecond counts; 0 stands for Go's zero time.Time.
 */
module WorkspaceSchema {
  import opened Wrappers

  const TableName: string := "workspaces"

  /** varchar(255) on the name column. */
  const NameMaxLength: nat := 255

  /** A row of the workspaces table. The id is database-generated; 0 means "not yet inserted". */
  datatype Workspace = Workspace(
    id: nat,
    name: string,
    description: Option<string>,
    ownerId: nat,
    isPublic: bool,
    createdAt: int,
    updatedAt: int,
    deletedAt: Option<int>)

  /** Rows with a deletion time are excluded from every default query. */
  predicate Active(w: Workspace) {
    w.deletedAt.None?
  }

  /** A record as the service builds it before inserting it: no id yet, not public, not deleted. */
  function NewWorkspace(ownerId: nat, name: string, description: Option<string>, now: int): (w: Workspace)
    ensures w.id == 0 && w.ownerId == ownerId && w.name == name && w.description == description
    ensures !w.isPublic && Active(w) && w.createdAt == now && w.updatedAt == now
  {
    Workspace(0, name, description, ownerId, false, now, now, None)
  }

  /** Name of the composite unique index on (owner_id, name). */
  const OwnerNameIndex: string := "idx_workspace_owner_name"

  /** The composite unique index idx_workspace_owner_name: the database enforces it on every row, deleted or not. */
  predicate OwnerNameUnique(rows: seq<Workspace>) {
    forall i, j :: 0 <= i < j < |rows| ==> rows[i].ownerId != rows[j].ownerId || rows[i].name != rows[j].name
  }

  /** The primary key. */
  predicate IdsUnique(rows: seq<Workspace>) {
    forall i, j :: 0 <= i < j < |rows| ==> rows[i].id != rows[j].id
  }

  /** Column constraints of a stored row: a generated id and a name that fits varchar(255). */
  predicate RowValid(w: Workspace) {
    w.id > 0 && |w.name| <= NameMaxLength
  }

  /** Every constraint the schema declares holds of the table. */
  predicate TableValid(rows: seq<Workspace>) {
    && IdsUnique(rows)
    && OwnerNameUnique(rows)
    && (forall i :: 0 <= i < |rows| ==> RowValid(rows[i]))
  }

  /** Some row, live or deleted, already holds this (owner, name) pair. */
  predicate OwnerNameTaken(rows: seq<Workspace>, ownerId: nat, name: string) {
    exists i :: 0 <= i < |rows| && rows[i].ownerId == ownerId && rows[i].name == name
  }

  /** Some row already holds this id. */
  predicate IdTaken(rows: seq<Workspace>, id: nat) {
    exists i :: 0 <= i < |rows| && rows[i].id == id
  }

  /** Appending a row keeps the table valid exactly when the row violates none of its constraints. */
  lemma AppendKeepsValid(rows: seq<Workspace>, w: Workspace)
    requires TableValid(rows)
    ensures TableValid(rows + [w]) <==> RowValid(w) && !IdTaken(rows, w.id) && !OwnerNameTaken(rows, w.ownerId, w.name)
  {
    var t := rows + [w];
    assert t[|rows|] == w;
    if IdTaken(rows, w.id) {
      var i :| 0 <= i < |rows| && rows[i].id == w.id;
      assert t[i].id == t[|rows|].id;
    }
    if OwnerNameTaken(rows, w.ownerId, w.name) {
      var i :| 0 <= i < |rows| && rows[i].ownerId == w.ownerId && rows[i].name == w.name;
      assert t[i].ownerId == t[|rows|].ownerId && t[i].name == t[|rows|].name;
    }
    if RowValid(w) && !IdTaken(rows, w.id) && !OwnerNameTaken(rows, w.ownerId, w.name) {
      forall i, j | 0 <= i < j < |t| ensures t[i].id != t[j].id {
        if j == |rows| {
          assert t[i] == rows[i];
        }
      }
      forall i, j | 0 <= i < j < |t| ensures t[i].ownerId != t[j].ownerId || t[i].name != t[j].name {
        if j == |rows| {
          assert t[i] == rows[i];
        }
      }
    }
  }
}
