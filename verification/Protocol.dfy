/** The wire types of the sync protocol and the validators that guard the client. */
module Protocol {
  import opened Json

  /** An entity's address. The wire carries the id inside the entity as well;
      here it lives in the key alone. */
  datatype Key = Key(collection: string, id: string)

  /** An ISO 8601 timestamp, or the empty string. */
  datatype Stamp = Blank | Stamp(time: int)

  datatype Entity = Entity(data: Json, revision: int, createdAt: Stamp, updatedAt: Stamp, isDeleted: bool)

  datatype Operation = Set | Patch | Increment | Decrement | Add | Remove | Other(name: string)

  datatype ProtocolMutation = ProtocolMutation(
    id: string, key: Key, operation: Operation, field: Option<string>, value: Json,
    baseRevision: int, createdAt: Stamp)

  /** A cursor string: empty, a decimal log position, or not a number. */
  datatype Cursor = NoCursor | Position(n: int) | Unparsable(text: string)

  datatype SyncRequest = SyncRequest(cursor: Cursor, mutations: seq<ProtocolMutation>, clientId: string)

  datatype Change = Change(
    serverSequence: int, key: Key, entity: Entity, operation: Operation, field: Option<string>, value: Json)

  datatype ConflictInfo = ConflictInfo(
    mutationId: string, key: Key, clientRevision: int, serverRevision: int, serverEntity: Entity)

  datatype SyncResponse = SyncResponse(
    changes: seq<Change>, acknowledgedMutationIds: seq<string>, conflicts: seq<ConflictInfo>, newCursor: Cursor)

  /** Either a response or the CURSOR_TOO_OLD error with the server's minimum. */
  datatype SyncReply = Response(response: SyncResponse) | CursorTooOld(minimum: Cursor)

  datatype SnapshotResponse = SnapshotResponse(entities: map<Key, Entity>, cursor: Cursor)

  // ----- Validation at the client's boundary

  predicate IsProtocolEntity(key: Key, e: Entity) {
    key.id != "" && e.createdAt.Stamp? && e.updatedAt.Stamp?
  }

  predicate IsProtocolMutation(m: ProtocolMutation) {
    && m.id != "" && m.key.id != "" && m.key.collection != "" && m.operation != Other("")
    && m.baseRevision >= 0 && m.createdAt.Stamp?
  }

  predicate IsChange(c: Change) {
    && c.serverSequence >= 0 && c.key.collection != ""
    && IsProtocolEntity(c.key, c.entity) && c.operation != Other("")
  }

  predicate IsConflictInfo(c: ConflictInfo) {
    && c.mutationId != "" && c.key.id != "" && c.key.collection != ""
    && c.clientRevision >= 0 && c.serverRevision >= 0
    && IsProtocolEntity(c.key, c.serverEntity)
  }

  predicate IsSyncResponse(r: SyncResponse) {
    && !r.newCursor.NoCursor?
    && (forall c | c in r.changes :: IsChange(c))
    && (forall c | c in r.conflicts :: IsConflictInfo(c))
  }

  predicate IsSnapshotResponse(r: SnapshotResponse) {
    && !r.cursor.NoCursor?
    && (forall k | k in r.entities :: IsProtocolEntity(k, r.entities[k]))
  }

  /** What is wrong with an entity, a change or a conflict. */
  predicate Incomplete(key: Key, e: Entity) {
    key.id == "" || e.createdAt == Blank || e.updatedAt == Blank
  }

  predicate DefectiveChange(c: Change) {
    c.serverSequence < 0 || c.key.collection == "" || c.operation == Other("") || Incomplete(c.key, c.entity)
  }

  predicate DefectiveConflict(c: ConflictInfo) {
    || c.mutationId == "" || c.key.collection == "" || c.clientRevision < 0 || c.serverRevision < 0
    || Incomplete(c.key, c.serverEntity)
  }

  /** One defect is enough to reject a whole answer, and without any it is accepted. */
  lemma RejectedIff(r: SyncResponse, snapshot: SnapshotResponse)
    ensures !IsSyncResponse(r) <==>
            r.newCursor == NoCursor
            || (exists i :: 0 <= i < |r.changes| && DefectiveChange(r.changes[i]))
            || (exists i :: 0 <= i < |r.conflicts| && DefectiveConflict(r.conflicts[i]))
    ensures !IsSnapshotResponse(snapshot) <==>
            snapshot.cursor == NoCursor || exists k :: k in snapshot.entities && Incomplete(k, snapshot.entities[k])
  {
    assert forall i | 0 <= i < |r.changes| :: r.changes[i] in r.changes && (IsChange(r.changes[i]) <==> !DefectiveChange(r.changes[i]));
    assert forall i | 0 <= i < |r.conflicts| ::
      r.conflicts[i] in r.conflicts && (IsConflictInfo(r.conflicts[i]) <==> !DefectiveConflict(r.conflicts[i]));
    assert forall k | k in snapshot.entities :: IsProtocolEntity(k, snapshot.entities[k]) <==> !Incomplete(k, snapshot.entities[k]);
  }

  function Get<K, V>(m: map<K, V>, k: K): Option<V> {
    if k in m then Some(m[k]) else None
  }

  /** The revision at which a key stands; absent counts as zero. */
  function RevisionOf(store: map<Key, Entity>, k: Key): int {
    if k in store then store[k].revision else 0
  }
}
