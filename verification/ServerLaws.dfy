/** What holds of the server after every run of requests and prunings: its store,
    log and tracker are functions of the history of accepted mutations, a fixed
    protocol mutation takes effect at most once, and a request may be repeated. */
module ServerLaws {
  import opened Json
  import opened Protocol
  import opened ServerSpec

  // ----- The history

  /** The store that a history leaves behind. */
  function StoreOf(h: seq<Applied>): map<Key, Entity> {
    if h == [] then map[]
    else StoreOf(h[..|h| - 1])[h[|h| - 1].mutation.key := h[|h| - 1].entity]
  }

  function Latest(h: seq<Applied>, k: Key): Option<Entity> {
    Get(StoreOf(h), k)
  }

  /** Every entry was based on the revision its key had, and made the entity the
      operation prescribes. */
  predicate Replayable(h: seq<Applied>) {
    h == [] ||
    var before, last := h[..|h| - 1], h[|h| - 1];
    && Replayable(before)
    && last.mutation.baseRevision == RevisionOf(StoreOf(before), last.mutation.key)
    && last.entity == Result(Latest(before, last.mutation.key), last.mutation, last.now)
  }

  function Logged(h: seq<Applied>): seq<Change> {
    seq(|h|, i requires 0 <= i < |h| => ChangeOf(i + 1, h[i]))
  }

  /** How many positions of the history the log has lost at its front. */
  function Lost(s: Server): int {
    |s.history| - |s.log|
  }

  predicate LogConsistent(s: Server) {
    && s.nextSequence == |s.history| + 1
    && |s.log| <= |s.history|
    && s.log == Logged(s.history)[Lost(s)..]
  }

  predicate TrackerConsistent(s: Server) {
    forall id | id in s.tracked ::
      1 <= s.tracked[id] <= |s.history| && s.history[s.tracked[id] - 1].mutation.id == id
  }

  /** Every position is accounted for by a tracked id or a pruned one. */
  predicate IdsAccounted(s: Server) {
    |s.tracked| + s.pruned == |s.history|
  }

  predicate Consistent(s: Server) {
    && Replayable(s.history)
    && s.entities == StoreOf(s.history)
    && LogConsistent(s)
    && TrackerConsistent(s)
  }

  lemma LoggedAppend(h: seq<Applied>, a: Applied)
    ensures Logged(h + [a]) == Logged(h) + [ChangeOf(|h| + 1, a)]
  {
  }

  lemma AcceptReplayable(s: Server, m: ProtocolMutation, now: Stamp)
    requires Replayable(s.history) && s.entities == StoreOf(s.history) && Judge(s, m, now).Accepted?
    ensures Replayable(Absorb(s, m, now).history)
    ensures Absorb(s, m, now).entities == StoreOf(Absorb(s, m, now).history)
  {
    var t := Absorb(s, m, now);
    assert t.history[..|t.history| - 1] == s.history;
  }

  lemma AcceptTracked(s: Server, m: ProtocolMutation, now: Stamp)
    requires TrackerConsistent(s) && s.nextSequence == |s.history| + 1 && Judge(s, m, now).Accepted?
    ensures TrackerConsistent(Absorb(s, m, now))
  {
  }

  /** The tracker alone: it knows where each of its ids was applied. */
  predicate TrackerSound(s: Server) {
    s.nextSequence == |s.history| + 1 && TrackerConsistent(s)
  }

  lemma {:induction false} ProcessTracks(s: Server, ms: seq<ProtocolMutation>, now: Stamp)
    requires TrackerSound(s)
    ensures TrackerSound(Process(s, ms, now).server)
  {
    if ms != [] {
      var t, m := Process(s, ms[..|ms| - 1], now).server, ms[|ms| - 1];
      ProcessTracks(s, ms[..|ms| - 1], now);
      if Judge(t, m, now).Accepted? {
        AcceptTracked(t, m, now);
      }
    }
  }

  lemma {:induction false} AcceptLogged(s: Server, m: ProtocolMutation, now: Stamp)
    requires LogConsistent(s) && Judge(s, m, now).Accepted?
    ensures LogConsistent(Absorb(s, m, now)) && Lost(Absorb(s, m, now)) == Lost(s)
  {
    LoggedAppend(s.history, Absorb(s, m, now).history[|s.history|]);
  }

  lemma {:induction false} ProcessConsistent(s: Server, ms: seq<ProtocolMutation>, now: Stamp)
    requires Consistent(s)
    ensures var t := Process(s, ms, now).server;
            Consistent(t) && s.history <= t.history && Lost(t) == Lost(s)
            && t.minimum == s.minimum
  {
    if ms != [] {
      ProcessConsistent(s, ms[..|ms| - 1], now);
      var t, m := Process(s, ms[..|ms| - 1], now).server, ms[|ms| - 1];
      if Judge(t, m, now).Accepted? {
        AcceptReplayable(t, m, now);
        AcceptLogged(t, m, now);
        AcceptTracked(t, m, now);
      }
    }
  }

  lemma {:induction false} RetainedIsSuffix(h: seq<Applied>, from: int, n: int)
    requires 0 <= from <= |h|
    ensures var kept := if n - 1 <= from then from else if n - 1 <= |h| then n - 1 else |h|;
            Retained(Logged(h)[from..], n) == Logged(h)[kept..]
    decreases |h|
  {
    if from < |h| {
      RetainedIsSuffix(h[..|h| - 1], from, n);
      RetainedLast(h, from, n);
    }
  }

  /** The newest entry stays if its number does. */
  lemma RetainedLast(h: seq<Applied>, from: int, n: int)
    requires 0 <= from < |h|
    ensures Retained(Logged(h)[from..], n) ==
            Retained(Logged(h[..|h| - 1])[from..], n) + if |h| >= n then [Logged(h)[|h| - 1]] else []
    ensures Logged(h) == Logged(h[..|h| - 1]) + [Logged(h)[|h| - 1]]
  {
    var log := Logged(h)[from..];
    assert log[..|log| - 1] == Logged(h[..|h| - 1])[from..];
  }

  lemma PruneConsistent(s: Server, c: Cursor)
    requires Consistent(s)
    ensures Consistent(Prune(s, c)) && Prune(s, c).history == s.history
    ensures Number(c).Some? ==>
              Lost(Prune(s, c)) == (var n := Number(c).value;
                                    if n - 1 <= Lost(s) then Lost(s) else if n - 1 <= |s.history| then n - 1 else |s.history|)
    ensures Number(c).None? ==> Lost(Prune(s, c)) == Lost(s)
  {
    if Number(c).Some? {
      PruneKeepsLog(s, c);
      PruneKeepsTracker(s, c);
    }
  }

  lemma PruneKeepsLog(s: Server, c: Cursor)
    requires LogConsistent(s) && Number(c).Some?
    ensures LogConsistent(Prune(s, c))
    ensures var n := Number(c).value;
            Lost(Prune(s, c)) == if n - 1 <= Lost(s) then Lost(s) else if n - 1 <= |s.history| then n - 1 else |s.history|
  {
    RetainedIsSuffix(s.history, Lost(s), Number(c).value);
  }

  lemma PruneKeepsTracker(s: Server, c: Cursor)
    requires TrackerConsistent(s) && Number(c).Some?
    ensures TrackerConsistent(Prune(s, c))
  {
  }

  lemma {:induction false} ProcessAccounts(s: Server, ms: seq<ProtocolMutation>, now: Stamp)
    requires IdsAccounted(s)
    ensures IdsAccounted(Process(s, ms, now).server)
  {
    if ms != [] {
      ProcessAccounts(s, ms[..|ms| - 1], now);
    }
  }

  lemma PruneAccounts(s: Server, c: Cursor)
    requires IdsAccounted(s)
    ensures IdsAccounted(Prune(s, c))
  {
  }

  /** The store is the fold of everything ever accepted, the retained log is a
      contiguous run ending at the head, and every position is accounted for by
      a tracked id or a pruned one. */
  lemma {:induction false} HistoryLaw(events: seq<ServerEvent>)
    ensures Consistent(Run(events)) && IdsAccounted(Run(events))
  {
    if events != [] {
      HistoryLaw(events[..|events| - 1]);
      var s := Run(events[..|events| - 1]);
      match events[|events| - 1] {
        case Sync(request, now) =>
          ProcessConsistent(s, request.mutations, now);
          ProcessAccounts(s, request.mutations, now);
        case SetMinimum(cursor) =>
          PruneConsistent(s, cursor);
          PruneAccounts(s, cursor);
      }
    }
  }

  // ----- Revisions count

  function Count(h: seq<Applied>, k: Key): nat {
    if h == [] then 0
    else Count(h[..|h| - 1], k) + if h[|h| - 1].mutation.key == k then 1 else 0
  }

  lemma {:induction false} RevisionCounts(h: seq<Applied>, k: Key)
    requires Replayable(h)
    ensures RevisionOf(StoreOf(h), k) == Count(h, k)
    ensures k in StoreOf(h) <==> Count(h, k) > 0
  {
    if h != [] {
      RevisionCounts(h[..|h| - 1], k);
    }
  }

  lemma {:induction false} ReplayablePrefix(h: seq<Applied>, n: nat)
    requires Replayable(h) && n <= |h|
    ensures Replayable(h[..n])
    decreases |h|
  {
    if n < |h| {
      ReplayablePrefix(h[..|h| - 1], n);
      assert h[..|h| - 1][..n] == h[..n];
    } else {
      assert h[..n] == h;
    }
  }

  /** The n-th accepted mutation of an entity was based on revision n - 1 and
      produced revision n. */
  lemma EntryRevision(h: seq<Applied>, i: nat)
    requires Replayable(h) && i < |h|
    ensures h[i].mutation.baseRevision == Count(h[..i], h[i].mutation.key)
    ensures h[i].entity.revision == Count(h[..i], h[i].mutation.key) + 1
  {
    ReplayablePrefix(h, i + 1);
    var upTo := h[..i + 1];
    assert upTo[..|upTo| - 1] == h[..i];
    ReplayablePrefix(h, i);
    RevisionCounts(h[..i], h[i].mutation.key);
  }

  lemma {:induction false} CountGrows(h: seq<Applied>, i: nat, j: nat, k: Key)
    requires i <= j <= |h|
    ensures Count(h[..i], k) <= Count(h[..j], k)
    ensures i < j && h[i].mutation.key == k ==> Count(h[..i], k) < Count(h[..j], k)
    decreases j
  {
    if i < j {
      CountGrows(h, i, j - 1, k);
      assert h[..j][..|h[..j]| - 1] == h[..j - 1];
    }
  }

  /** No two accepted mutations share an entity and a base revision. */
  lemma BasesDistinct(h: seq<Applied>, i: nat, j: nat)
    requires Replayable(h) && i < j < |h| && h[i].mutation.key == h[j].mutation.key
    ensures h[i].mutation.baseRevision < h[j].mutation.baseRevision
  {
    EntryRevision(h, i);
    EntryRevision(h, j);
    CountGrows(h, i, j, h[i].mutation.key);
  }

  function Effects(h: seq<Applied>, m: ProtocolMutation): nat {
    if h == [] then 0
    else Effects(h[..|h| - 1], m) + if h[|h| - 1].mutation == m then 1 else 0
  }

  lemma {:induction false} NoEffect(h: seq<Applied>, m: ProtocolMutation)
    requires forall i | 0 <= i < |h| :: h[i].mutation != m
    ensures Effects(h, m) == 0
  {
    if h != [] {
      NoEffect(h[..|h| - 1], m);
    }
  }

  lemma {:induction false} EffectsAtMostOnce(h: seq<Applied>, m: ProtocolMutation)
    requires Replayable(h)
    ensures Effects(h, m) <= 1
  {
    if h != [] {
      var before := h[..|h| - 1];
      if h[|h| - 1].mutation == m {
        forall i | 0 <= i < |before| ensures before[i].mutation != m {
          if before[i].mutation == m {
            BasesDistinct(h, i, |h| - 1);
          }
        }
        NoEffect(before, m);
      } else {
        EffectsAtMostOnce(before, m);
      }
    }
  }

  /** However often it is sent and whatever is pruned in between, a protocol
      mutation takes effect at most once. */
  lemma ExactlyOnce(events: seq<ServerEvent>, m: ProtocolMutation)
    ensures Effects(Run(events).history, m) <= 1
  {
    HistoryLaw(events);
    EffectsAtMostOnce(Run(events).history, m);
  }

  // ----- At most once by id

  /** Every accepted mutation is tracked at its own position. */
  predicate AllTracked(s: Server) {
    s.nextSequence == |s.history| + 1 &&
    forall i | 0 <= i < |s.history| :: s.history[i].mutation.id in s.tracked && s.tracked[s.history[i].mutation.id] == i + 1
  }

  lemma {:induction false} ProcessTracksAll(s: Server, ms: seq<ProtocolMutation>, now: Stamp)
    ensures Process(s, ms, now).server.pruned == s.pruned
    ensures AllTracked(s) ==> AllTracked(Process(s, ms, now).server)
  {
    if ms != [] {
      ProcessTracksAll(s, ms[..|ms| - 1], now);
    }
  }

  lemma PruneNothing(s: Server, c: Cursor)
    ensures Prune(s, c).pruned >= s.pruned
    ensures Prune(s, c).pruned == s.pruned ==> Prune(s, c).tracked == s.tracked
  {
    if Number(c).Some? {
      var kept := StillTracked(s.tracked, Number(c).value);
      assert kept.Keys <= s.tracked.Keys;
      KeysSubset(kept.Keys, s.tracked.Keys);
      assert |kept| == |kept.Keys| && |s.tracked| == |s.tracked.Keys|;
    }
  }

  lemma KeysSubset(a: set<string>, b: set<string>)
    requires a <= b
    ensures |a| <= |b| && (|a| == |b| ==> a == b)
  {
    assert b == a + (b - a);
  }

  /** As long as no pruning has dropped an id, no id takes effect twice, whatever bases
      it is sent with. */
  lemma {:induction false} IdsOnceUnlessPruned(events: seq<ServerEvent>)
    ensures Run(events).pruned >= 0
    ensures var h := Run(events).history;
            Run(events).pruned == 0 ==> forall i, j | 0 <= i < j < |h| :: h[i].mutation.id != h[j].mutation.id
    ensures Run(events).pruned == 0 ==> AllTracked(Run(events))
  {
    if events != [] {
      var before := events[..|events| - 1];
      IdsOnceUnlessPruned(before);
      match events[|events| - 1]
      case Sync(request, now) => ProcessTracksAll(Run(before), request.mutations, now);
      case SetMinimum(cursor) => PruneNothing(Run(before), cursor);
    }
  }

  /** Across a prune the guarantee does not extend to the mutation's id: the same
      id, resent with the revision the client has since learned, applies again. */
  lemma RebasedResendAppliesTwice(m: ProtocolMutation)
    requires m.baseRevision == 0
    ensures var again := m.(baseRevision := 1);
            var h := Run([Sync(SyncRequest(Position(0), [m], "client"), Stamp(1)),
                          SetMinimum(Position(2)),
                          Sync(SyncRequest(Position(2), [again], "client"), Stamp(2))]).history;
            |h| == 2 && h[0].mutation == m && h[1].mutation == again
  {
    var again := m.(baseRevision := 1);
    var e1 := Sync(SyncRequest(Position(0), [m], "client"), Stamp(1));
    var e2 := SetMinimum(Position(2));
    var e3 := Sync(SyncRequest(Position(2), [again], "client"), Stamp(2));
    assert [e1, e2, e3][..2] == [e1, e2] && [e1, e2][..1] == [e1] && [e1][..0] == [];
    var s1 := Absorb(INITIAL, m, Stamp(1));
    ProcessOne(INITIAL, m, Stamp(1));
    assert Run([]) == INITIAL && Run([e1]) == s1;
    assert Run([e1, e2]) == Prune(s1, Position(2));
    ProcessOne(Prune(s1, Position(2)), again, Stamp(2));
    assert Run([e1, e2, e3]) == Absorb(Prune(s1, Position(2)), again, Stamp(2));
    AppliedThenPruned(m);
  }

  lemma ProcessOne(s: Server, m: ProtocolMutation, now: Stamp)
    ensures Process(s, [m], now).server == Absorb(s, m, now)
  {
    assert [m][..0] == [] && Process(s, [], now).server == s;
  }

  lemma AppliedThenPruned(m: ProtocolMutation)
    requires m.baseRevision == 0
    ensures var s := Prune(Absorb(INITIAL, m, Stamp(1)), Position(2));
            && |s.history| == 1 && s.history[0].mutation == m
            && s.tracked == map[] && RevisionOf(s.entities, m.key) == 1
  {
  }

  /** An id takes effect again exactly when the tracker has lost it and its base
      revision is current. */
  lemma TakesEffectIff(s: Server, m: ProtocolMutation, now: Stamp)
    ensures |Absorb(s, m, now).history| > |s.history| <==>
            m.id !in s.tracked && m.baseRevision == RevisionOf(s.entities, m.key)
  {
  }

  // ----- The sum of all revisions is the cursor

  ghost function TotalRevision(store: map<Key, Entity>): int {
    if store == map[] then 0
    else
      var k :| k in store;
      store[k].revision + TotalRevision(store - {k})
  }

  lemma {:induction false} TotalWithout(store: map<Key, Entity>, k: Key)
    requires k in store
    ensures TotalRevision(store) == store[k].revision + TotalRevision(store - {k})
    decreases |store|
  {
    var p :| p in store && TotalRevision(store) == store[p].revision + TotalRevision(store - {p});
    if p != k {
      TotalWithout(store - {p}, k);
      TotalWithout(store - {k}, p);
      assert store - {p} - {k} == store - {k} - {p};
    }
  }

  lemma {:induction false} RevisionsSumToHead(h: seq<Applied>)
    requires Replayable(h)
    ensures TotalRevision(StoreOf(h)) == |h|
  {
    if h != [] {
      var before, last := h[..|h| - 1], h[|h| - 1];
      RevisionsSumToHead(before);
      var k := last.mutation.key;
      var store := StoreOf(before);
      TotalWithout(StoreOf(h), k);
      assert StoreOf(h) - {k} == store - {k};
      if k in store {
        TotalWithout(store, k);
      } else {
        assert store - {k} == store;
      }
    }
  }

  /** The cursor handed to clients is the sum of all entity revisions. */
  lemma CursorIsTotalRevision(events: seq<ServerEvent>)
    ensures CurrentCursor(Run(events)) == Position(TotalRevision(Run(events).entities))
  {
    HistoryLaw(events);
    RevisionsSumToHead(Run(events).history);
  }
}
