/** Runs that show why convergence asks for whole snapshots and for a minimum that is
    not lowered below what is gone, and why it has to allow for a torn replica. */
module ConvergenceLimits {
  import opened Json
  import opened Protocol
  import opened ServerSpec
  import opened ServerLaws
  import opened EngineSpec
  import opened Rounds
  import opened World
  import opened Convergence
  import opened ConvergenceExact

  lemma RunOne(w: World, events: seq<Event>, e: Event, settings: Settings)
    ensures Reach(w, events + [e], settings) == Advance(Reach(w, events, settings), e, settings)
  {
    assert (events + [e])[..|events + [e]| - 1] == events;
  }

  // ----- Somebody creates a key

  function Create(k: Key): ProtocolMutation {
    ProtocolMutation("m", k, Set, None, EMPTY, 0, Stamp(0))
  }

  /** The server after somebody has created the key. */
  function Created(k: Key): Server {
    Accept(INITIAL, Create(k), Stamp(1), Result(None, Create(k), Stamp(1)))
  }

  function Creation(k: Key): Event {
    Foreign(SyncRequest(NoCursor, [Create(k)], "other"), Stamp(1))
  }

  lemma CreationCreates(w: World, k: Key, settings: Settings)
    requires w.server == INITIAL
    ensures Advance(w, Creation(k), settings) == w.(server := Created(k))
  {
    assert [Create(k)][..0] == [];
    assert Process(INITIAL, [], Stamp(1)).server == INITIAL;
  }

  lemma CreatedConsistent(k: Key)
    ensures Consistent(Created(k))
  {
    HistoryLaw([]);
    ProcessConsistent(INITIAL, [Create(k)], Stamp(1));
    ProcessOne(INITIAL, Create(k), Stamp(1));
    assert Created(k) == Absorb(INITIAL, Create(k), Stamp(1));
  }

  lemma CreationTouches(k: Key)
    ensures |Created(k).history| == 1 && TouchedSince(Created(k).history, 0, k)
    ensures TouchedBetween(Created(k).history, 0, 1, k)
  {
    var h := Created(k).history;
    assert h[..1] == h && h[0].mutation.key == k;
  }

  // ----- A cycle that brings nothing

  /** What the client holds before the cycle writes anything. */
  function Holder(s: Server, cursor: Cursor, phase: Phase): World {
    World(s, Disk(map[], [], cursor), phase, false)
  }

  lemma WriteNothing(s: Server, cursor: Cursor, first: Task, settings: Settings)
    requires first == ApplySnapshot(map[]) || first == ApplyChanges([])
    ensures Advance(Holder(s, cursor, Working([first, SaveCursor(Position(1))], false)), Work(Stamp(2)), settings) ==
            Holder(s, cursor, Working([SaveCursor(Position(1))], false)).(torn := true)
  {
    var tasks := [first, SaveCursor(Position(1))];
    assert tasks[1..] == [SaveCursor(Position(1))];
    var nothing: map<Key, Entity> := map[];
    assert nothing + nothing == nothing;
  }

  lemma WriteCursor(s: Server, cursor: Cursor, settings: Settings)
    ensures Advance(Holder(s, cursor, Working([SaveCursor(Position(1))], false)).(torn := true), Work(Stamp(2)), settings) ==
            Holder(s, Position(1), Working([], false))
  {
    assert [SaveCursor(Position(1))][1..] == [];
  }

  /** Two durable writes later the cursor has moved and nothing else. */
  lemma EmptyCycle(start: World, events: seq<Event>, s: Server, cursor: Cursor, first: Task, settings: Settings)
    requires first == ApplySnapshot(map[]) || first == ApplyChanges([])
    requires Reach(start, events, settings) == Holder(s, cursor, Working([first, SaveCursor(Position(1))], false))
    ensures Reach(start, events + [Work(Stamp(2))] + [Work(Stamp(2))], settings) == Holder(s, Position(1), Working([], false))
  {
    RunOne(start, events, Work(Stamp(2)), settings);
    RunOne(start, events + [Work(Stamp(2))], Work(Stamp(2)), settings);
    WriteNothing(s, cursor, first, settings);
    WriteCursor(s, cursor, settings);
  }

  // ----- A filtered snapshot

  /** A snapshot of other collections moves the cursor past a key it left out. */
  lemma FilteredSnapshotLosesKey(k: Key, other: string, settings: Settings)
    requires k.collection != other
    ensures var w := Reach(START, [Creation(k), ForceSnapshot([other]), Serve(Stamp(2)), Deliver] + [Work(Stamp(2))] + [Work(Stamp(2))], settings);
            && w == Holder(w.server, Position(1), Working([], false))
            && |w.server.history| == 1 && !ServerValueAt(w.server.history, w.disk.entities, k, 1)
  {
    var events := [Creation(k), ForceSnapshot([other]), Serve(Stamp(2)), Deliver];
    assert events == [] + [Creation(k)] + [ForceSnapshot([other])] + [Serve(Stamp(2))] + [Deliver];
    RunOne(START, [], Creation(k), settings);
    CreationCreates(START, k, settings);
    RunOne(START, [] + [Creation(k)], ForceSnapshot([other]), settings);
    RunOne(START, [] + [Creation(k)] + [ForceSnapshot([other])], Serve(Stamp(2)), settings);
    RunOne(START, [] + [Creation(k)] + [ForceSnapshot([other])] + [Serve(Stamp(2))], Deliver, settings);
    EmptySnapshot(k, other, settings);
    EmptyCycle(START, events, Created(k), NoCursor, ApplySnapshot(map[]), settings);
    LeftOutIsMissing(k, other);
  }

  /** The case of a key that was left out and touched. */
  lemma LeftOutIsMissing(k: Key, other: string)
    requires k.collection != other
    ensures |Created(k).history| == 1 && !ServerValueAt(Created(k).history, map[], k, 1)
  {
    CreatedConsistent(k);
    CreationTouches(k);
    assert ServerValueAt(Created(k).history, map[], k, 0);
    SnapshotExactIff(Created(k), map[], [other], k, 0);
    var nothing: map<Key, Entity> := map[];
    assert Snapshot(Created(k), [other]).entities == nothing && nothing + nothing == nothing;
  }

  lemma EmptySnapshot(k: Key, other: string, settings: Settings)
    requires k.collection != other
    ensures var w := Holder(Created(k), NoCursor, Idle);
            Advance(Advance(Advance(w, ForceSnapshot([other]), settings), Serve(Stamp(2)), settings), Deliver, settings) ==
            Holder(Created(k), NoCursor, Working([ApplySnapshot(map[]), SaveCursor(Position(1))], false))
  {
    assert Snapshot(Created(k), [other]) == SnapshotResponse(map[], Position(1));
  }

  // ----- A crash between data and cursor

  /** The data of a response and its cursor are two durable writes: after a crash
      between them the client holds the data and not the cursor. */
  lemma CrashTearsReplica(k: Key, settings: Settings)
    requires k.id != ""
    ensures var w := Reach(START, [Creation(k), Begin, Serve(Stamp(2)), Deliver] + [Work(Stamp(2))] + [Crash], settings);
            w.phase.Idle? && w.torn && w.disk.cursor.NoCursor? && ServerValueAt(w.server.history, w.disk.entities, k, 1) && !AtCursor(w, k)
  {
    var events := [Creation(k), Begin, Serve(Stamp(2)), Deliver];
    WholeAnswer(k, settings);
    RunOne(START, events, Work(Stamp(2)), settings);
    RunOne(START, events + [Work(Stamp(2))], Crash, settings);
    TornByOne(k);
  }

  lemma WholeAnswer(k: Key, settings: Settings)
    requires k.id != ""
    ensures Reach(START, [Creation(k), Begin, Serve(Stamp(2)), Deliver], settings) ==
            Holder(Created(k), NoCursor, Working([ApplySnapshot(Created(k).entities), SaveCursor(Position(1))], false))
  {
    assert [Creation(k), Begin, Serve(Stamp(2)), Deliver] == [] + [Creation(k)] + [Begin] + [Serve(Stamp(2))] + [Deliver];
    RunOne(START, [], Creation(k), settings);
    CreationCreates(START, k, settings);
    RunOne(START, [] + [Creation(k)], Begin, settings);
    RunOne(START, [] + [Creation(k)] + [Begin], Serve(Stamp(2)), settings);
    RunOne(START, [] + [Creation(k)] + [Begin] + [Serve(Stamp(2))], Deliver, settings);
    WholeSnapshot(k, settings);
  }

  lemma TornByOne(k: Key)
    ensures ServerValueAt(Created(k).history, Created(k).entities, k, 1)
    ensures !ServerValueAt(Created(k).history, Created(k).entities, k, 0)
  {
    assert Created(k).history[..1] == Created(k).history;
    CreatedConsistent(k);
    CreationTouches(k);
    OffCursorIff(Created(k), Created(k).entities, k, 0, 1);
  }

  lemma WholeSnapshot(k: Key, settings: Settings)
    requires k.id != ""
    ensures var w := Holder(Created(k), NoCursor, Idle);
            Advance(Advance(Advance(w, Begin, settings), Serve(Stamp(2)), settings), Deliver, settings) ==
            Holder(Created(k), NoCursor, Working([ApplySnapshot(Created(k).entities), SaveCursor(Position(1))], false))
  {
    assert Snapshot(Created(k), []) == SnapshotResponse(Created(k).entities, Position(1));
    assert IsSnapshotResponse(Snapshot(Created(k), []));
  }

  // ----- A lowered minimum

  /** Lowering the minimum after a pruning lets a client in whose changes are gone. */
  lemma LoweredMinimumLosesKey(k: Key, settings: Settings)
    ensures var start := Holder(INITIAL, Position(0), Idle);
            var w := Reach(start, [Creation(k), PruneTo(Position(2)), PruneTo(Position(0)), Begin, Serve(Stamp(2)), Deliver]
                                  + [Work(Stamp(2))] + [Work(Stamp(2))], settings);
            && w == Holder(w.server, Position(1), Working([], false))
            && |w.server.history| == 1 && !ServerValueAt(w.server.history, w.disk.entities, k, 1)
  {
    var start := Holder(INITIAL, Position(0), Idle);
    var s := Prune(Prune(Created(k), Position(2)), Position(0));
    var pruned := [Creation(k)] + [PruneTo(Position(2))] + [PruneTo(Position(0))];
    var events := [Creation(k), PruneTo(Position(2)), PruneTo(Position(0)), Begin, Serve(Stamp(2)), Deliver];
    assert events == pruned + [Begin] + [Serve(Stamp(2))] + [Deliver];
    PrunedTwice(k, settings);
    PrunedServer(k);
    RunOne(start, pruned, Begin, settings);
    RunOne(start, pruned + [Begin], Serve(Stamp(2)), settings);
    RunOne(start, pruned + [Begin] + [Serve(Stamp(2))], Deliver, settings);
    EmptyExchange(s, settings);
    EmptyCycle(start, events, s, Position(0), ApplyChanges([]), settings);
    PrunedIsMissing(k);
  }

  /** The case of a key that was touched only in what pruning took. */
  lemma PrunedIsMissing(k: Key)
    ensures var h := Prune(Prune(Created(k), Position(2)), Position(0)).history;
            |h| == 1 && !ServerValueAt(h, map[], k, 1)
  {
    var s := Prune(Prune(Created(k), Position(2)), Position(0));
    PrunedServer(k);
    CreatedConsistent(k);
    PruneConsistent(Created(k), Position(2));
    PruneConsistent(Prune(Created(k), Position(2)), Position(0));
    CreationTouches(k);
    assert ServerValueAt(s.history, map[], k, 0);
    ChangesExactIff(s, map[], 0, k);
  }

  lemma PrunedTwice(k: Key, settings: Settings)
    ensures Reach(Holder(INITIAL, Position(0), Idle), [Creation(k)] + [PruneTo(Position(2))] + [PruneTo(Position(0))], settings) ==
            Holder(Prune(Prune(Created(k), Position(2)), Position(0)), Position(0), Idle)
  {
    var start := Holder(INITIAL, Position(0), Idle);
    assert [] + [Creation(k)] == [Creation(k)];
    RunOne(start, [], Creation(k), settings);
    CreationCreates(start, k, settings);
    RunOne(start, [Creation(k)], PruneTo(Position(2)), settings);
    RunOne(start, [Creation(k)] + [PruneTo(Position(2))], PruneTo(Position(0)), settings);
  }

  lemma PrunedServer(k: Key)
    ensures var s := Prune(Prune(Created(k), Position(2)), Position(0));
            s.log == [] && s.nextSequence == 2 && s.minimum == Position(0) && s.history == Created(k).history
  {
    RetainedOne(Created(k).log, 2);
  }

  lemma RetainedOne(log: seq<Change>, n: int)
    requires |log| == 1
    ensures Retained(log, n) == if log[0].serverSequence >= n then log else []
  {
    assert log[..0] == [] && Retained(log[..0], n) == [] && log == [log[0]];
  }

  lemma EmptyExchange(s: Server, settings: Settings)
    requires s.log == [] && s.nextSequence == 2 && s.minimum == Position(0)
    ensures Advance(Advance(Advance(Holder(s, Position(0), Idle), Begin, settings), Serve(Stamp(2)), settings), Deliver, settings) ==
            Holder(s, Position(0), Working([ApplyChanges([]), SaveCursor(Position(1))], false))
  {
    var d, r := Disk(map[], [], Position(0)), SyncResponse([], [], [], Position(1));
    EmptyBatch(d, settings);
    EmptyAnswer(s, settings);
    assert Completion([], r) == [ApplyChanges([]), SaveCursor(Position(1))];
    assert Delivered(Holding(Response(r), [])) == Working([ApplyChanges([]), SaveCursor(Position(1))], false);
  }

  lemma EmptyBatch(d: Disk, settings: Settings)
    requires d.queue == [] && d.cursor.Position?
    ensures Opening(d, settings) == Asking(SyncRequest(d.cursor, [], settings.clientId), [])
  {
  }

  lemma EmptyAnswer(s: Server, settings: Settings)
    requires s.log == [] && s.nextSequence == 2 && s.minimum == Position(0)
    ensures HandleSync(s, SyncRequest(Position(0), [], settings.clientId), Stamp(2)) ==
            Handled(s, Response(SyncResponse([], [], [], Position(1))))
  {
    assert Process(s, [], Stamp(2)) == Answers(s, [], []);
  }
}
