/** The reference server as a function of its state: deduplication, conflict
    detection, application, the change log and its pruning. `history` and
    `pruned` record what happened; no operation ever reads them. */
module ServerSpec {
  import opened Json
  import opened Protocol
  import FieldOperations

  /** One accepted mutation, the time it was accepted and the entity it made. */
  datatype Applied = Applied(mutation: ProtocolMutation, now: Stamp, entity: Entity)

  datatype Server = Server(
    entities: map<Key, Entity>,
    log: seq<Change>,
    nextSequence: int,
    minimum: Cursor,
    tracked: map<string, int>,
    history: seq<Applied>,
    pruned: int)

  const INITIAL := Server(map[], [], 1, Position(0), map[], [], 0)

  // ----- Applying a mutation to an entity

  function NewData(data: Json, m: ProtocolMutation): Json {
    var record := Spread(data);
    if m.operation.Set? then (if m.value.Null? then EMPTY else m.value)
    else if m.operation.Patch? then Obj(record + Spread(m.value))
    else if m.operation.Other? || m.field.None? then Obj(record)
    else
      var field := m.field.value;
      var current := Get(record, field);
      match m.operation
      case Increment =>
        Obj(record[field := Num(FieldOperations.NumberOr0(current) + FieldOperations.NumberOr0(Some(m.value)))])
      case Decrement =>
        Obj(record[field := Num(FieldOperations.NumberOr0(current) - FieldOperations.NumberOr0(Some(m.value)))])
      case Add =>
        Obj(record[field := Arr(FieldOperations.ItemsOrEmpty(current) + [m.value])])
      case _ =>
        if current.Some? && current.value.Arr?
        then Obj(record[field := Arr(FieldOperations.Without(current.value.items, m.value))])
        else Obj(record)
  }

  function ApplyMutation(e: Entity, m: ProtocolMutation, now: Stamp): Entity {
    e.(data := NewData(e.data, m), revision := e.revision + 1, updatedAt := now)
  }

  function FreshEntity(m: ProtocolMutation, now: Stamp): Entity {
    Entity(EMPTY, 0, m.createdAt, now, false)
  }

  /** The entity a mutation makes out of what the server held for its key. */
  function Result(previous: Option<Entity>, m: ProtocolMutation, now: Stamp): Entity {
    ApplyMutation(match previous case Some(e) => e case None => FreshEntity(m, now), m, now)
  }

  // ----- One mutation of a request

  datatype Verdict = Duplicate | Conflicting(info: ConflictInfo) | Accepted(entity: Entity)

  function AbsentEntity(): Entity {
    Entity(EMPTY, 0, Blank, Blank, true)
  }

  function Judge(s: Server, m: ProtocolMutation, now: Stamp): Verdict {
    if m.id in s.tracked then Duplicate
    else
      var existing := Get(s.entities, m.key);
      if m.baseRevision != RevisionOf(s.entities, m.key) then
        Conflicting(ConflictInfo(m.id, m.key, m.baseRevision, RevisionOf(s.entities, m.key),
                                 match existing case Some(e) => e case None => AbsentEntity()))
      else Accepted(Result(existing, m, now))
  }

  function ChangeOf(sequence: int, a: Applied): Change {
    Change(sequence, a.mutation.key, a.entity, a.mutation.operation, a.mutation.field, a.mutation.value)
  }

  function Accept(s: Server, m: ProtocolMutation, now: Stamp, entity: Entity): Server {
    var applied := Applied(m, now, entity);
    s.(entities := s.entities[m.key := entity],
       log := s.log + [ChangeOf(s.nextSequence, applied)],
       nextSequence := s.nextSequence + 1,
       tracked := s.tracked[m.id := s.nextSequence],
       history := s.history + [applied])
  }

  function Absorb(s: Server, m: ProtocolMutation, now: Stamp): Server {
    match Judge(s, m, now)
    case Accepted(entity) => Accept(s, m, now, entity)
    case _ => s
  }

  // ----- A request

  datatype Answers = Answers(server: Server, acknowledged: seq<string>, conflicts: seq<ConflictInfo>)

  function Process(s: Server, ms: seq<ProtocolMutation>, now: Stamp): Answers {
    if ms == [] then Answers(s, [], [])
    else
      var before := Process(s, ms[..|ms| - 1], now);
      var m := ms[|ms| - 1];
      var verdict := Judge(before.server, m, now);
      Answers(Absorb(before.server, m, now),
              if verdict.Conflicting? then before.acknowledged else before.acknowledged + [m.id],
              if verdict.Conflicting? then before.conflicts + [verdict.info] else before.conflicts)
  }

  /** `Number(cursor)`, where None stands for NaN. */
  function Number(c: Cursor): Option<int> {
    match c
    case NoCursor => Some(0)
    case Position(n) => Some(n)
    case Unparsable(_) => None
  }

  predicate TooOld(minimum: Cursor, c: Cursor) {
    Number(c).Some? && Number(minimum).Some? && Number(c).value < Number(minimum).value
  }

  function After(log: seq<Change>, n: int): seq<Change> {
    if log == [] then []
    else After(log[..|log| - 1], n) + if log[|log| - 1].serverSequence > n then [log[|log| - 1]] else []
  }

  function ChangesSince(log: seq<Change>, c: Cursor): seq<Change> {
    match Number(c)
    case Some(n) => After(log, n)
    case None => log
  }

  function CurrentCursor(s: Server): Cursor {
    Position(s.nextSequence - 1)
  }

  datatype Handled = Handled(server: Server, reply: SyncReply)

  predicate Refused(s: Server, c: Cursor) {
    !c.NoCursor? && TooOld(s.minimum, c)
  }

  function HandleSync(s: Server, request: SyncRequest, now: Stamp): Handled {
    if Refused(s, request.cursor) then Handled(s, CursorTooOld(s.minimum))
    else
      var batch := Process(s, request.mutations, now);
      Handled(batch.server,
              Response(SyncResponse(ChangesSince(batch.server.log, request.cursor),
                                    batch.acknowledged, batch.conflicts, CurrentCursor(batch.server))))
  }

  /** An empty list of collections asks for everything. */
  function Snapshot(s: Server, collections: seq<string>): SnapshotResponse {
    SnapshotResponse(
      if collections == [] then s.entities
      else map k | k in s.entities && k.collection in collections :: s.entities[k],
      CurrentCursor(s))
  }

  // ----- Pruning

  function Retained(log: seq<Change>, n: int): seq<Change> {
    if log == [] then []
    else Retained(log[..|log| - 1], n) + if log[|log| - 1].serverSequence >= n then [log[|log| - 1]] else []
  }

  function StillTracked(tracked: map<string, int>, n: int): map<string, int> {
    map id | id in tracked && tracked[id] >= n :: tracked[id]
  }

  function Prune(s: Server, c: Cursor): Server {
    match Number(c)
    case Some(n) =>
      s.(minimum := c,
         log := Retained(s.log, n),
         tracked := StillTracked(s.tracked, n),
         pruned := s.pruned + |s.tracked| - |StillTracked(s.tracked, n)|)
    case None => s.(minimum := c)
  }

  // ----- Runs

  datatype ServerEvent = Sync(request: SyncRequest, now: Stamp) | SetMinimum(cursor: Cursor)

  function Next(s: Server, e: ServerEvent): Server {
    match e
    case Sync(request, now) => HandleSync(s, request, now).server
    case SetMinimum(cursor) => Prune(s, cursor)
  }

  function Run(events: seq<ServerEvent>): Server {
    if events == [] then INITIAL else Next(Run(events[..|events| - 1]), events[|events| - 1])
  }
}
