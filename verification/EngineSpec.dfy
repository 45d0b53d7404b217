/** The client's durable state and one synchronization cycle as a list of durable
    writes. Each write is one step, so a crash is a cycle that stops anywhere in
    the list, and an error is a step that throws the rest away. */
module EngineSpec {
  import opened Json
  import opened Protocol
  import Queue
  import Strategies

  type Mutation = Queue.Mutation
  type Batch = seq<Mutation>

  /** Application entities, the queue of mutations and the stored cursor: the
      three parts of the client's storage. */
  datatype Disk = Disk(entities: map<Key, Entity>, queue: seq<Mutation>, cursor: Cursor)

  type Resolver = Strategies.Context -> Strategies.Resolution

  // ----- The request

  /** The first mutation of the batch for an entity id decides in which collection
      its revision is looked up. */
  function KeyFor(batch: Batch, entityId: string): Option<Key>
    decreases |batch|
  {
    if batch == [] then None
    else if batch[0].key.id == entityId then Some(batch[0].key)
    else KeyFor(batch[1..], entityId)
  }

  function BaseRevision(entities: map<Key, Entity>, batch: Batch, entityId: string): int {
    match KeyFor(batch, entityId)
    case Some(key) => RevisionOf(entities, key)
    case None => 0
  }

  function ToProtocol(m: Mutation, baseRevision: int): ProtocolMutation {
    ProtocolMutation(m.id, m.key, m.operation, m.field, m.value, baseRevision, m.createdAt)
  }

  function Outgoing(entities: map<Key, Entity>, batch: Batch): seq<ProtocolMutation> {
    seq(|batch|, i requires 0 <= i < |batch| =>
      ToProtocol(batch[i], BaseRevision(entities, batch, batch[i].key.id)))
  }

  function BuildRequest(disk: Disk, batch: Batch, clientId: string): SyncRequest {
    SyncRequest(disk.cursor, Outgoing(disk.entities, batch), clientId)
  }

  // ----- The durable writes of a cycle

  datatype Task =
    | ApplyChanges(changes: seq<Change>)
    | ApplySnapshot(entities: map<Key, Entity>)
    | SaveCursor(cursor: Cursor)
    | Acknowledge(id: string)
    | Settle(conflict: ConflictInfo, local: Option<Mutation>)
    | Reissue(id: string, data: Json)
    | Retry(id: string)

  function Overlay(entities: map<Key, Entity>, changes: seq<Change>): map<Key, Entity> {
    if changes == [] then entities
    else Overlay(entities, changes[..|changes| - 1])[changes[|changes| - 1].key := changes[|changes| - 1].entity]
  }

  function ContextOf(entities: map<Key, Entity>, c: ConflictInfo, m: Mutation): Strategies.Context {
    Strategies.Context(c, m.operation, m.field, m.value, m.createdAt, Get(entities, c.key))
  }

  function ResolvedEntity(c: ConflictInfo, data: Json, now: Stamp): Entity {
    Entity(data, c.serverRevision, c.serverEntity.createdAt, now, c.serverEntity.isDeleted)
  }

  /** What the resolver says about a conflict, if there is a resolver and the
      mutation was part of the batch. It sees the local entity of this moment. */
  function Resolve(entities: map<Key, Entity>, c: ConflictInfo, local: Option<Mutation>, resolver: Option<Resolver>)
    : Strategies.Resolution
  {
    if resolver.None? || local.None? then Strategies.Unresolved
    else resolver.value(ContextOf(entities, c, local.value))
  }

  /** A step leaves a disk behind and either lets the cycle go on or throws. */
  datatype Outcome = Outcome(disk: Disk, completed: bool)

  function Transit(disk: Disk, id: string, t: Queue.Transition): Outcome {
    Outcome(disk.(queue := Queue.Update(disk.queue, id, t)), Queue.Has(disk.queue, id))
  }

  function PutResolved(disk: Disk, c: ConflictInfo, data: Json, now: Stamp): Disk {
    disk.(entities := disk.entities[c.key := ResolvedEntity(c, data, now)])
  }

  function Requeue(disk: Disk, id: string, data: Json): Outcome {
    Transit(disk, id, Queue.ResolveConflict(Some(data), Some(Set)))
  }

  function MarkConflict(disk: Disk, c: ConflictInfo): Outcome {
    Transit(disk, c.mutationId, Queue.MarkConflict(Some(Queue.RevisionMismatch(c.clientRevision, c.serverRevision))))
  }

  function SettleConflict(disk: Disk, c: ConflictInfo, verdict: Strategies.Resolution, now: Stamp): Outcome {
    match verdict
    case Unresolved => MarkConflict(disk, c)
    case Resolved(_, data) => Requeue(PutResolved(disk, c, data, now), c.mutationId, data)
  }

  function Step(disk: Disk, task: Task, resolver: Option<Resolver>, now: Stamp): Outcome {
    match task
    case ApplyChanges(changes) => Outcome(disk.(entities := Overlay(disk.entities, changes)), true)
    case ApplySnapshot(entities) => Outcome(disk.(entities := disk.entities + entities), true)
    case SaveCursor(cursor) => Outcome(disk.(cursor := cursor), true)
    case Acknowledge(id) => Transit(disk, id, Queue.Acknowledge)
    case Settle(c, local) => SettleConflict(disk, c, Resolve(disk.entities, c, local, resolver), now)
    case Reissue(id, data) => Requeue(disk, id, data)
    case Retry(id) => Transit(disk, id, Queue.Retry)
  }

  /** Carries out the tasks until they are done or one throws. */
  function Perform(disk: Disk, tasks: seq<Task>, resolver: Option<Resolver>, now: Stamp): Outcome
    decreases |tasks|
  {
    if tasks == [] then Outcome(disk, true)
    else
      var first := Step(disk, tasks[0], resolver, now);
      if first.completed then Perform(first.disk, tasks[1..], resolver, now) else first
  }

  // ----- What a response asks for

  function Find(batch: Batch, id: string): Option<Mutation>
    decreases |batch|
  {
    if batch == [] then None
    else if batch[0].id == id then Some(batch[0])
    else Find(batch[1..], id)
  }

  function Acknowledgements(ids: seq<string>): seq<Task> {
    seq(|ids|, i requires 0 <= i < |ids| => Acknowledge(ids[i]))
  }

  function Settlements(conflicts: seq<ConflictInfo>, batch: Batch): seq<Task> {
    seq(|conflicts|, i requires 0 <= i < |conflicts| => Settle(conflicts[i], Find(batch, conflicts[i].mutationId)))
  }

  predicate Conflicted(conflicts: seq<ConflictInfo>, id: string) {
    exists i :: 0 <= i < |conflicts| && conflicts[i].mutationId == id
  }

  predicate Answered(r: SyncResponse, id: string) {
    id in r.acknowledgedMutationIds || Conflicted(r.conflicts, id)
  }

  function Retries(batch: Batch, r: SyncResponse): seq<Task>
    decreases |batch|
  {
    if batch == [] then []
    else (if Answered(r, batch[0].id) then [] else [Retry(batch[0].id)]) + Retries(batch[1..], r)
  }

  function Reenqueued(batch: Batch): seq<Task> {
    seq(|batch|, i requires 0 <= i < |batch| => Retry(batch[i].id))
  }

  /** Changes first, then the cursor, then the verdicts on the batch. */
  function Completion(batch: Batch, r: SyncResponse): seq<Task> {
    [ApplyChanges(r.changes), SaveCursor(r.newCursor)]
    + Acknowledgements(r.acknowledgedMutationIds) + Settlements(r.conflicts, batch) + Retries(batch, r)
  }

  function SnapshotCompletion(r: SnapshotResponse): seq<Task> {
    [ApplySnapshot(r.entities), SaveCursor(r.cursor)]
  }
}
