/**
  `WorkspacesService`: the partial updates of a workspace and of its
  business metadata, and the write of an ingested schema snapshot. The
  database is the store's fields: one snapshot of tables, columns and
  foreign keys per workspace, and the two auto-increment counters that hand
  out table and column ids.
 */
module Workspaces {
  import opened Wrappers
  import opened Text
  import opened Js
  import WorkspacesUtil
  import opened WorkspaceIngest

  /** A `Workspace` row. */
  datatype Workspace = Workspace(ownerId: nat, name: string, description: Option<string>, purpose: Option<string>)

  /** `UpdateWorkspaceDto`: every field optional. */
  datatype WorkspacePatch = WorkspacePatch(name: Option<string>, description: Option<string>, purpose: Option<string>)

  /** The `data` of `updateTableBusiness` and `updateColumnBusiness`. */
  datatype BusinessPatch = BusinessPatch(businessName: Option<string>, description: Option<string>)

  /** `...(dto.f && { f: dto.f })`: only a non-empty string is written. */
  function IfTruthy(patch: Option<string>, current: string): string {
    if patch.Some? && patch.value != "" then patch.value else current
  }

  /** The workspace after `updateWorkspace`. */
  function PatchWorkspace(w: Workspace, dto: WorkspacePatch): (r: Workspace)
    ensures r.ownerId == w.ownerId
    ensures r.name == (if dto.name.Some? && dto.name.value != "" then dto.name.value else w.name)
    ensures dto.description.Some? && dto.description.value != "" ==> r.description == dto.description
    ensures dto.description.None? || dto.description.value == "" ==> r.description == w.description
    ensures dto.purpose.Some? && dto.purpose.value != "" ==> r.purpose == dto.purpose
    ensures dto.purpose.None? || dto.purpose.value == "" ==> r.purpose == w.purpose
  {
    Workspace(
      w.ownerId,
      IfTruthy(dto.name, w.name),
      if dto.description.Some? && dto.description.value != "" then dto.description else w.description,
      if dto.purpose.Some? && dto.purpose.value != "" then dto.purpose else w.purpose)
  }

  /** Applying the same update twice is applying it once. */
  lemma PatchWorkspaceIdempotent(w: Workspace, dto: WorkspacePatch)
    ensures PatchWorkspace(PatchWorkspace(w, dto), dto) == PatchWorkspace(w, dto)
  {
  }

  /** An update whose fields are all missing or empty changes nothing. */
  lemma EmptyPatchKeepsWorkspace(w: Workspace, dto: WorkspacePatch)
    requires forall f :: f in [dto.name, dto.description, dto.purpose] ==> f.None? || f.value == ""
    ensures PatchWorkspace(w, dto) == w
  {
    assert dto.name in [dto.name, dto.description, dto.purpose];
    assert dto.description in [dto.name, dto.description, dto.purpose];
    assert dto.purpose in [dto.name, dto.description, dto.purpose];
  }

  /** `data.f !== undefined ? { f: data.f } : {}`: any present value is written, the empty string included. */
  function PatchTable(t: StoredTable, data: BusinessPatch): (r: StoredTable)
    ensures r.id == t.id && r.schemaName == t.schemaName && r.tableName == t.tableName
    ensures r.businessName == (if data.businessName.Some? then data.businessName else t.businessName)
    ensures r.description == (if data.description.Some? then data.description else t.description)
  {
    t.(businessName := if data.businessName.Some? then data.businessName else t.businessName,
       description := if data.description.Some? then data.description else t.description)
  }

  function PatchColumn(c: StoredColumn, data: BusinessPatch): (r: StoredColumn)
    ensures r.id == c.id && r.tableId == c.tableId && r.columnName == c.columnName && r.dataType == c.dataType
    ensures r.isNullable == c.isNullable && r.isPrimaryKey == c.isPrimaryKey
    ensures r.businessName == (if data.businessName.Some? then data.businessName else c.businessName)
    ensures r.description == (if data.description.Some? then data.description else c.description)
  {
    c.(businessName := if data.businessName.Some? then data.businessName else c.businessName,
       description := if data.description.Some? then data.description else c.description)
  }

  lemma PatchTableIdempotent(t: StoredTable, data: BusinessPatch)
    ensures PatchTable(PatchTable(t, data), data) == PatchTable(t, data)
  {
  }

  /** Ids within a snapshot are unique. */
  predicate UniqueIds(s: Snapshot) {
    && (forall i, j :: 0 <= i < j < |s.tables| ==> s.tables[i].id != s.tables[j].id)
    && (forall i, j :: 0 <= i < j < |s.columns| ==> s.columns[i].id != s.columns[j].id)
  }

  /** A snapshot with unique ids whose columns and foreign keys point at rows of its own. */
  predicate SnapshotOk(s: Snapshot) {
    UniqueIds(s) && ColumnsBelong(s) && FksJoin(s)
  }

  /** Every id of a snapshot was handed out before the counters reached their current values. */
  predicate IdsBelow(s: Snapshot, nextTableId: nat, nextColumnId: nat) {
    && (forall t :: t in s.tables ==> t.id < nextTableId)
    && (forall c :: c in s.columns ==> c.id < nextColumnId)
  }

  /** The database invariant: every snapshot is sound and uses only ids already handed out. */
  ghost predicate StoreOk(snapshots: map<nat, Snapshot>, nextTableId: nat, nextColumnId: nat) {
    && nextTableId >= 1 && nextColumnId >= 1
    && (forall w :: w in snapshots ==> SnapshotOk(snapshots[w]) && IdsBelow(snapshots[w], nextTableId, nextColumnId))
  }

  lemma StoreOkReplace(snapshots: map<nat, Snapshot>, nextTableId: nat, nextColumnId: nat, w: nat, s: Snapshot)
    requires StoreOk(snapshots, nextTableId, nextColumnId)
    requires SnapshotOk(s) && IdsBelow(s, nextTableId, nextColumnId)
    ensures StoreOk(snapshots[w := s], nextTableId, nextColumnId)
  {
  }

  /** Find the row with the given id, as `findFirst` does; |s| when there is none. */
  function TableIndex(ts: seq<StoredTable>, id: nat): (i: nat)
    ensures i <= |ts|
    ensures i < |ts| ==> ts[i].id == id
    ensures i == |ts| ==> forall t :: t in ts ==> t.id != id
  {
    if ts == [] then 0 else if ts[0].id == id then 0 else 1 + TableIndex(ts[1..], id)
  }

  /** The column `findFirst({ id: columnId, table: { id: tableId, workspaceId } })` finds. */
  function ColumnIndex(cs: seq<StoredColumn>, id: nat, tableId: nat): (i: nat)
    ensures i <= |cs|
    ensures i < |cs| ==> cs[i].id == id && cs[i].tableId == tableId
    ensures i == |cs| ==> forall c :: c in cs ==> !(c.id == id && c.tableId == tableId)
  {
    if cs == [] then 0 else if cs[0].id == id && cs[0].tableId == tableId then 0 else 1 + ColumnIndex(cs[1..], id, tableId)
  }

  /** Patching names keeps every id, so a sound snapshot stays sound. */
  lemma PatchTableKeepsSnapshotOk(s: Snapshot, i: nat, data: BusinessPatch, nextTableId: nat, nextColumnId: nat)
    requires SnapshotOk(s) && IdsBelow(s, nextTableId, nextColumnId) && i < |s.tables|
    ensures var s' := s.(tables := s.tables[i := PatchTable(s.tables[i], data)]);
      SnapshotOk(s') && IdsBelow(s', nextTableId, nextColumnId)
  {
    var s' := s.(tables := s.tables[i := PatchTable(s.tables[i], data)]);
    forall t | t in s.tables
      ensures exists t' :: t' in s'.tables && t'.id == t.id
    {
      var j :| 0 <= j < |s.tables| && s.tables[j] == t;
      assert s'.tables[j].id == t.id;
    }
    forall t | t in s'.tables ensures t.id < nextTableId {
      var j :| 0 <= j < |s'.tables| && s'.tables[j] == t;
      assert s.tables[j] in s.tables;
    }
  }

  lemma PatchColumnKeepsSnapshotOk(s: Snapshot, i: nat, data: BusinessPatch, nextTableId: nat, nextColumnId: nat)
    requires SnapshotOk(s) && IdsBelow(s, nextTableId, nextColumnId) && i < |s.columns|
    ensures var s' := s.(columns := s.columns[i := PatchColumn(s.columns[i], data)]);
      SnapshotOk(s') && IdsBelow(s', nextTableId, nextColumnId)
  {
    var s' := s.(columns := s.columns[i := PatchColumn(s.columns[i], data)]);
    forall c | c in s.columns
      ensures exists c' :: c' in s'.columns && c'.id == c.id
    {
      var j :| 0 <= j < |s.columns| && s.columns[j] == c;
      assert s'.columns[j].id == c.id;
    }
    forall c | c in s'.columns
      ensures exists t :: t in s'.tables && t.id == c.tableId
    {
      var j :| 0 <= j < |s'.columns| && s'.columns[j] == c;
      assert s.columns[j] in s.columns;
    }
    forall c | c in s'.columns ensures c.id < nextColumnId {
      var j :| 0 <= j < |s'.columns| && s'.columns[j] == c;
      assert s.columns[j] in s.columns;
    }
  }

  function NotFoundMessage(id: nat): string {
    "Workspace #" + NatToString(id) + " not found"
  }

  const TableNotFound: string := "Table not found"
  const ColumnNotFound: string := "Column not found"
  const DataSourceNotFound: string := "Data source not found"

  /** A freshly ingested snapshot is sound, and its ids are exactly the ones handed out for it. */
  lemma IngestSnapshotOk(meta: IntrospectedSchema, replies: Replies, b: Builtins, firstTableId: nat, firstColumnId: nat)
    ensures var s := Ingest(meta, replies, b, firstTableId, firstColumnId);
      && SnapshotOk(s)
      && IdsBelow(s, firstTableId + |s.tables|, firstColumnId + |s.columns|)
      && (forall t :: t in s.tables ==> t.id >= firstTableId)
      && (forall c :: c in s.columns ==> c.id >= firstColumnId)
  {
    IngestReferentialIntegrity(meta, replies, b, firstTableId, firstColumnId);
  }

  /** A new snapshot whose ids are all fresh keeps the store sound once the counters move past them. */
  lemma StoreOkIngest(snapshots: map<nat, Snapshot>, nextTableId: nat, nextColumnId: nat, w: nat, s: Snapshot)
    requires StoreOk(snapshots, nextTableId, nextColumnId)
    requires SnapshotOk(s) && IdsBelow(s, nextTableId + |s.tables|, nextColumnId + |s.columns|)
    ensures StoreOk(snapshots[w := s], nextTableId + |s.tables|, nextColumnId + |s.columns|)
  {
  }

  class WorkspaceStore {
    var workspaces: map<nat, Workspace>
    /** The ingested schema of each workspace. */
    var snapshots: map<nat, Snapshot>
    /** The auto-increment counters of `DataTable` and `DataColumn`. */
    var nextTableId: nat
    var nextColumnId: nat

    ghost predicate Valid()
      reads this
    {
      StoreOk(snapshots, nextTableId, nextColumnId)
    }

    constructor()
      ensures workspaces == map[] && snapshots == map[] && Valid()
    {
      workspaces := map[];
      snapshots := map[];
      nextTableId := 1;
      nextColumnId := 1;
    }

    /** The ownership check every operation starts with (`getWorkspaceById`). */
    predicate Owns(id: nat, userId: nat)
      reads this
    {
      id in workspaces && workspaces[id].ownerId == userId
    }

    /** `updateWorkspace` */
    method UpdateWorkspace(id: nat, userId: nat, dto: WorkspacePatch) returns (r: Result<Workspace, string>)
      requires Valid()
      modifies this
      ensures Valid()
      ensures !old(Owns(id, userId)) ==> r == Failure(NotFoundMessage(id)) && workspaces == old(workspaces)
      ensures old(Owns(id, userId)) ==>
        && workspaces == old(workspaces)[id := PatchWorkspace(old(workspaces)[id], dto)]
        && r == Success(workspaces[id])
      ensures snapshots == old(snapshots) && nextTableId == old(nextTableId) && nextColumnId == old(nextColumnId)
    {
      if !Owns(id, userId) {
        return Failure(NotFoundMessage(id));
      }
      var w := workspaces[id];
      if dto.name.Some? && dto.name.value != "" {
        w := w.(name := dto.name.value);
      }
      if dto.description.Some? && dto.description.value != "" {
        w := w.(description := dto.description);
      }
      if dto.purpose.Some? && dto.purpose.value != "" {
        w := w.(purpose := dto.purpose);
      }
      workspaces := workspaces[id := w];
      r := Success(w);
    }

    /** `updateTableBusiness` */
    method UpdateTableBusiness(workspaceId: nat, userId: nat, tableId: nat, data: BusinessPatch) returns (r: Result<(), string>)
      requires Valid()
      modifies this
      ensures Valid()
      ensures workspaces == old(workspaces) && nextTableId == old(nextTableId) && nextColumnId == old(nextColumnId)
      ensures !old(Owns(workspaceId, userId)) ==> r == Failure(NotFoundMessage(workspaceId)) && snapshots == old(snapshots)
      ensures old(Owns(workspaceId, userId)) &&
              (workspaceId !in old(snapshots) || forall t :: t in old(snapshots)[workspaceId].tables ==> t.id != tableId) ==>
        r == Failure(TableNotFound) && snapshots == old(snapshots)
      ensures r.Success? ==>
        && workspaceId in old(snapshots)
        && var s := old(snapshots)[workspaceId];
           var i := TableIndex(s.tables, tableId);
           && i < |s.tables|
           && snapshots == old(snapshots)[workspaceId := s.(tables := s.tables[i := PatchTable(s.tables[i], data)])]
      ensures (old(Owns(workspaceId, userId)) && workspaceId in old(snapshots) &&
               TableIndex(old(snapshots)[workspaceId].tables, tableId) < |old(snapshots)[workspaceId].tables|) ==> r.Success?
      ensures r.Failure? ==> snapshots == old(snapshots)
    {
      if !Owns(workspaceId, userId) {
        return Failure(NotFoundMessage(workspaceId));
      }
      if workspaceId !in snapshots {
        return Failure(TableNotFound);
      }
      var s := snapshots[workspaceId];
      var i := TableIndex(s.tables, tableId);
      if i == |s.tables| {
        return Failure(TableNotFound);
      }
      PatchTableKeepsSnapshotOk(s, i, data, nextTableId, nextColumnId);
      var s' := s.(tables := s.tables[i := PatchTable(s.tables[i], data)]);
      StoreOkReplace(snapshots, nextTableId, nextColumnId, workspaceId, s');
      snapshots := snapshots[workspaceId := s'];
      r := Success(());
    }

    /** `updateColumnBusiness` */
    method UpdateColumnBusiness(workspaceId: nat, userId: nat, tableId: nat, columnId: nat, data: BusinessPatch)
      returns (r: Result<(), string>)
      requires Valid()
      modifies this
      ensures Valid()
      ensures workspaces == old(workspaces) && nextTableId == old(nextTableId) && nextColumnId == old(nextColumnId)
      ensures !old(Owns(workspaceId, userId)) ==> r == Failure(NotFoundMessage(workspaceId)) && snapshots == old(snapshots)
      ensures old(Owns(workspaceId, userId)) &&
              (workspaceId !in old(snapshots) ||
               forall c :: c in old(snapshots)[workspaceId].columns ==> !(c.id == columnId && c.tableId == tableId)) ==>
        r == Failure(ColumnNotFound) && snapshots == old(snapshots)
      ensures r.Success? ==>
        && workspaceId in old(snapshots)
        && var s := old(snapshots)[workspaceId];
           var i := ColumnIndex(s.columns, columnId, tableId);
           && i < |s.columns|
           && snapshots == old(snapshots)[workspaceId := s.(columns := s.columns[i := PatchColumn(s.columns[i], data)])]
      ensures (old(Owns(workspaceId, userId)) && workspaceId in old(snapshots) &&
               ColumnIndex(old(snapshots)[workspaceId].columns, columnId, tableId) < |old(snapshots)[workspaceId].columns|) ==> r.Success?
      ensures r.Failure? ==> snapshots == old(snapshots)
    {
      if !Owns(workspaceId, userId) {
        return Failure(NotFoundMessage(workspaceId));
      }
      if workspaceId !in snapshots {
        return Failure(ColumnNotFound);
      }
      var s := snapshots[workspaceId];
      var i := ColumnIndex(s.columns, columnId, tableId);
      if i == |s.columns| {
        return Failure(ColumnNotFound);
      }
      PatchColumnKeepsSnapshotOk(s, i, data, nextTableId, nextColumnId);
      var s' := s.(columns := s.columns[i := PatchColumn(s.columns[i], data)]);
      StoreOkReplace(snapshots, nextTableId, nextColumnId, workspaceId, s');
      snapshots := snapshots[workspaceId := s'];
      r := Success(());
    }

    /** `deleteMany` of the workspace's tables followed by the creates: the snapshot is replaced and the counters move past its ids. */
    method ReplaceSnapshot(workspaceId: nat, s: Snapshot)
      requires Valid()
      requires SnapshotOk(s) && IdsBelow(s, nextTableId + |s.tables|, nextColumnId + |s.columns|)
      modifies this
      ensures Valid()
      ensures workspaces == old(workspaces)
      ensures snapshots == old(snapshots)[workspaceId := s]
      ensures nextTableId == old(nextTableId) + |s.tables| && nextColumnId == old(nextColumnId) + |s.columns|
    {
      StoreOkIngest(snapshots, nextTableId, nextColumnId, workspaceId, s);
      snapshots := snapshots[workspaceId := s];
      nextTableId := nextTableId + |s.tables|;
      nextColumnId := nextColumnId + |s.columns|;
    }

    /**
      `ingestWorkspace` from the stored data source on: the configuration
      check, then deduplication, business names and the write of a new
      snapshot in place of the old one. The decrypted configuration, the
      schema reader's result and the LLM replies are inputs.
     */
    method IngestWorkspace(workspaceId: nat, dataSource: Option<(WorkspacesUtil.ConfigKind, JsValue)>,
                           meta: IntrospectedSchema, replies: Replies, b: Builtins)
      returns (r: Result<(), string>)
      requires Valid()
      modifies this
      ensures Valid()
      ensures workspaces == old(workspaces)
      ensures dataSource.None? ==> r == Failure(DataSourceNotFound)
      ensures dataSource.Some? && WorkspacesUtil.AsConfigOrThrow(dataSource.value.1, dataSource.value.0).Failure? ==>
        r == Failure(WorkspacesUtil.AsConfigOrThrow(dataSource.value.1, dataSource.value.0).error)
      ensures r.Failure? ==>
        snapshots == old(snapshots) && nextTableId == old(nextTableId) && nextColumnId == old(nextColumnId)
      ensures r.Success? <==>
        dataSource.Some? && WorkspacesUtil.AsConfigOrThrow(dataSource.value.1, dataSource.value.0).Success?
      ensures r.Success? ==>
        var s := Ingest(meta, replies, b, old(nextTableId), old(nextColumnId));
        && snapshots == old(snapshots)[workspaceId := s]
        && nextTableId == old(nextTableId) + |s.tables|
        && nextColumnId == old(nextColumnId) + |s.columns|
    {
      if dataSource.None? {
        return Failure(DataSourceNotFound);
      }
      var (kind, config) := dataSource.value;
      var cfg := WorkspacesUtil.AsConfigOrThrow(config, kind);
      if cfg.Failure? {
        return Failure(cfg.error);
      }
      var snapshot := WriteSnapshot(meta, replies, b, nextTableId, nextColumnId);
      IngestSnapshotOk(meta, replies, b, nextTableId, nextColumnId);
      ReplaceSnapshot(workspaceId, snapshot);
      r := Success(());
    }
  }
}
