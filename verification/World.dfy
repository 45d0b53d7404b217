/** One client, the server and everybody else as a state machine: local writes,
    foreign requests, prunings, lost messages, crashes and recoveries interleave
    freely with the single durable writes of the client's own cycles. */
module World {
  import opened Json
  import opened Protocol
  import opened ServerSpec
  import opened EngineSpec
  import opened Rounds
  import Queue

  /** Where the client's one cycle stands. Nothing of it survives a crash. */
  datatype Phase =
    | Idle
    | Asking(request: SyncRequest, batch: Batch)
    | Holding(reply: SyncReply, batch: Batch)
    | AskingSnapshot(collections: seq<string>)
    | HoldingSnapshot(response: SnapshotResponse)
    | Working(tasks: seq<Task>, thenSnapshot: bool)

  /** `torn` records that remote data was written and its cursor not yet; no step
      reads it. */
  datatype World = World(server: Server, disk: Disk, phase: Phase, torn: bool)

  datatype Event =
    | LocalWrite(mutation: Mutation, entity: Entity)
    | Foreign(request: SyncRequest, now: Stamp)
    | PruneTo(cursor: Cursor)
    | Begin
    | ForceSnapshot(collections: seq<string>)
    | Serve(now: Stamp)
    | Lose
    | Deliver
    | Work(now: Stamp)
    | Crash
    | Recover

  const START := World(INITIAL, Disk(map[], [], NoCursor), Idle, false)

  /** `sync`: without a cursor a snapshot, otherwise a request with the next batch. */
  function Opening(disk: Disk, settings: Settings): Phase {
    if disk.cursor.NoCursor? then AskingSnapshot([])
    else
      var batch := Queue.DequeuePending(disk.queue, settings.batchSize);
      Asking(BuildRequest(disk, batch, settings.clientId), batch)
  }

  function Served(w: World, now: Stamp): World {
    match w.phase
    case Asking(request, batch) =>
      var handled := HandleSync(w.server, request, now);
      w.(server := handled.server, phase := Holding(handled.reply, batch))
    case AskingSnapshot(collections) => w.(phase := HoldingSnapshot(Snapshot(w.server, collections)))
    case _ => w
  }

  /** An answer that is not valid throws the cycle away. */
  function Delivered(phase: Phase): Phase {
    match phase
    case Holding(Response(r), batch) => if IsSyncResponse(r) then Working(Completion(batch, r), false) else Idle
    case Holding(CursorTooOld(_), batch) => Working(Reenqueued(batch), true)
    case HoldingSnapshot(response) => if IsSnapshotResponse(response) then Working(SnapshotCompletion(response), false) else Idle
    case _ => phase
  }

  /** One durable write. A conflict that is resolved takes two: the entity, then
      the mutation. */
  function Worked(w: World, tasks: seq<Task>, thenSnapshot: bool, resolver: Option<Resolver>, now: Stamp): World {
    if tasks == [] then w.(phase := if thenSnapshot then AskingSnapshot([]) else Idle)
    else
      var task, rest := tasks[0], tasks[1..];
      if task.Settle? && Resolve(w.disk.entities, task.conflict, task.local, resolver).Resolved? then
        var data := Resolve(w.disk.entities, task.conflict, task.local, resolver).data;
        w.(disk := PutResolved(w.disk, task.conflict, data, now),
           phase := Working([Reissue(task.conflict.mutationId, data)] + rest, thenSnapshot))
      else
        var o := Step(w.disk, task, resolver, now);
        w.(disk := o.disk,
           phase := if o.completed then Working(rest, thenSnapshot) else Idle,
           torn := (w.torn || task.ApplyChanges? || task.ApplySnapshot?) && !task.SaveCursor?)
  }

  function Advance(w: World, e: Event, settings: Settings): World {
    match e
    case LocalWrite(m, entity) =>
      w.(disk := w.disk.(entities := w.disk.entities[m.key := entity], queue := Queue.Enqueue(w.disk.queue, m)))
    case Foreign(request, now) => w.(server := HandleSync(w.server, request, now).server)
    case PruneTo(cursor) => w.(server := Prune(w.server, cursor))
    case Begin => if w.phase.Idle? then w.(phase := Opening(w.disk, settings)) else w
    case ForceSnapshot(collections) => if w.phase.Idle? then w.(phase := AskingSnapshot(collections)) else w
    case Serve(now) => Served(w, now)
    case Lose => if w.phase.Working? then w else w.(phase := Idle)
    case Deliver => w.(phase := Delivered(w.phase))
    case Work(now) =>
      if w.phase.Working? then Worked(w, w.phase.tasks, w.phase.thenSnapshot, settings.resolver, now) else w
    case Crash => w.(phase := Idle)
    case Recover => if w.phase.Idle? then w.(disk := w.disk.(queue := Queue.ResetInFlight(w.disk.queue))) else w
  }

  function Reach(w: World, events: seq<Event>, settings: Settings): World {
    if events == [] then w
    else Advance(Reach(w, events[..|events| - 1], settings), events[|events| - 1], settings)
  }

  /** A local write brings a new mutation, under an id of its own. */
  predicate Fresh(w: World, e: Event) {
    e.LocalWrite? ==> !Queue.Has(w.disk.queue, e.mutation.id) && e.mutation.status.PENDING?
  }

  predicate FreshRun(w: World, events: seq<Event>, settings: Settings)
    decreases |events|
  {
    events == [] ||
    var before := events[..|events| - 1];
    FreshRun(w, before, settings) && Fresh(Reach(w, before, settings), events[|events| - 1])
  }
}
