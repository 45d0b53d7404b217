/** What one request gets back: every mutation is answered once, an
    acknowledgement means the mutation is in the history, the changes are
    complete exactly when pruning was safe, and repeating a request is harmless
    exactly when nothing in it is still due. */
module ServerRequests {
  import opened Json
  import opened Protocol
  import opened ServerSpec
  import opened ServerLaws

  // ----- Every mutation is answered once

  function Ids(ms: seq<ProtocolMutation>): seq<string> {
    seq(|ms|, i requires 0 <= i < |ms| => ms[i].id)
  }

  function ConflictIds(cs: seq<ConflictInfo>): seq<string> {
    seq(|cs|, i requires 0 <= i < |cs| => cs[i].mutationId)
  }

  lemma ConflictIdsAppend(cs: seq<ConflictInfo>, c: ConflictInfo)
    ensures ConflictIds(cs + [c]) == ConflictIds(cs) + [c.mutationId]
  {
  }

  /** Acknowledgements and conflicts together are the request's ids, each as often
      as it was sent. */
  lemma {:induction false} RequestPartition(s: Server, ms: seq<ProtocolMutation>, now: Stamp)
    ensures var b := Process(s, ms, now);
            multiset(b.acknowledged) + multiset(ConflictIds(b.conflicts)) == multiset(Ids(ms))
  {
    if ms != [] {
      var init, m := ms[..|ms| - 1], ms[|ms| - 1];
      RequestPartition(s, init, now);
      LastAnswered(s, ms, now);
      assert Ids(ms) == Ids(init) + [m.id];
      var b, before := Process(s, ms, now), Process(s, init, now);
      OneMore(before.acknowledged, ConflictIds(before.conflicts), Ids(init), b.acknowledged, ConflictIds(b.conflicts), m.id);
    }
  }

  lemma OneMore(a: seq<string>, c: seq<string>, all: seq<string>, longerA: seq<string>, longerC: seq<string>, id: string)
    requires multiset(a) + multiset(c) == multiset(all)
    requires (longerA == a + [id] && longerC == c) || (longerA == a && longerC == c + [id])
    ensures multiset(longerA) + multiset(longerC) == multiset(all + [id])
  {
  }

  /** The last mutation's id joins one of the two lists. */
  lemma {:induction false} LastAnswered(s: Server, ms: seq<ProtocolMutation>, now: Stamp)
    requires ms != []
    ensures var b, before, id := Process(s, ms, now), Process(s, ms[..|ms| - 1], now), ms[|ms| - 1].id;
            || (b.acknowledged == before.acknowledged + [id] && ConflictIds(b.conflicts) == ConflictIds(before.conflicts))
            || (b.acknowledged == before.acknowledged && ConflictIds(b.conflicts) == ConflictIds(before.conflicts) + [id])
  {
    var before, m := Process(s, ms[..|ms| - 1], now), ms[|ms| - 1];
    var verdict := Judge(before.server, m, now);
    if verdict.Conflicting? {
      ConflictIdsAppend(before.conflicts, verdict.info);
    }
  }

  predicate InHistory(h: seq<Applied>, id: string) {
    exists i :: 0 <= i < |h| && h[i].mutation.id == id
  }

  lemma {:induction false} AcknowledgedIsTracked(s: Server, ms: seq<ProtocolMutation>, now: Stamp)
    ensures forall id | id in s.tracked :: id in Process(s, ms, now).server.tracked
    ensures forall id | id in Process(s, ms, now).acknowledged :: id in Process(s, ms, now).server.tracked
  {
    if ms != [] {
      AcknowledgedIsTracked(s, ms[..|ms| - 1], now);
    }
  }

  lemma {:induction false} AcknowledgedHistory(s: Server, ms: seq<ProtocolMutation>, now: Stamp, id: string)
    requires TrackerSound(s) && id in Process(s, ms, now).acknowledged
    ensures InHistory(Process(s, ms, now).server.history, id)
  {
    ProcessTracks(s, ms, now);
    AcknowledgedIsTracked(s, ms, now);
    var t := Process(s, ms, now).server;
    assert t.history[t.tracked[id] - 1].mutation.id == id;
  }

  /** No mutation is acknowledged that the server did not at some time apply. */
  lemma {:induction false} AcknowledgedIsApplied(s: Server, request: SyncRequest, now: Stamp, id: string)
    requires TrackerSound(s)
    requires HandleSync(s, request, now).reply.Response?
    requires id in HandleSync(s, request, now).reply.response.acknowledgedMutationIds
    ensures InHistory(HandleSync(s, request, now).server.history, id)
  {
    AcknowledgedHistory(s, request.mutations, now, id);
  }

  // ----- Repeating a request

  lemma {:induction false} RevisionsGrow(s: Server, ms: seq<ProtocolMutation>, now: Stamp, k: Key)
    ensures RevisionOf(s.entities, k) <= RevisionOf(Process(s, ms, now).server.entities, k)
  {
    if ms != [] {
      RevisionsGrow(s, ms[..|ms| - 1], now, k);
    }
  }

  /** A mutation that the server, in this state, would apply. */
  predicate Due(s: Server, m: ProtocolMutation) {
    m.id !in s.tracked && m.baseRevision == RevisionOf(s.entities, m.key)
  }

  lemma {:induction false} NothingDue(s: Server, ms: seq<ProtocolMutation>, now: Stamp)
    requires forall m | m in ms :: !Due(s, m)
    ensures Process(s, ms, now).server == s
  {
    if ms != [] {
      NothingDue(s, ms[..|ms| - 1], now);
      assert !Due(s, ms[|ms| - 1]);
    }
  }

  lemma {:induction false} HistoryGrows(s: Server, ms: seq<ProtocolMutation>, now: Stamp)
    ensures s.history <= Process(s, ms, now).server.history
    ensures (exists m :: m in ms && Due(s, m)) ==> |Process(s, ms, now).server.history| > |s.history|
  {
    if ms != [] {
      HistoryGrows(s, ms[..|ms| - 1], now);
      if forall m | m in ms[..|ms| - 1] :: !Due(s, m) {
        NothingDue(s, ms[..|ms| - 1], now);
      }
    }
  }

  /** Handling the same mutations again changes the server exactly if one of them
      is still due after the first time. */
  lemma RepeatIsNoOpIff(s: Server, ms: seq<ProtocolMutation>, now: Stamp, later: Stamp)
    ensures var t := Process(s, ms, now).server;
            Process(t, ms, later).server == t <==> forall m | m in ms :: !Due(t, m)
  {
    var t := Process(s, ms, now).server;
    HistoryGrows(t, ms, later);
    if forall m | m in ms :: !Due(t, m) {
      NothingDue(t, ms, later);
    }
  }

  predicate NotAhead(s: Server, ms: seq<ProtocolMutation>) {
    forall m | m in ms :: m.baseRevision <= RevisionOf(s.entities, m.key)
  }

  predicate DistinctIds(ms: seq<ProtocolMutation>) {
    forall i, j | 0 <= i < j < |ms| :: ms[i].id != ms[j].id
  }

  lemma {:induction false} NothingStaysDue(s: Server, ms: seq<ProtocolMutation>, now: Stamp)
    requires NotAhead(s, ms)
    ensures forall m | m in ms :: !Due(Process(s, ms, now).server, m)
  {
    if ms != [] {
      var init, last := ms[..|ms| - 1], ms[|ms| - 1];
      NothingStaysDue(s, init, now);
      RevisionsGrow(s, init, now, last.key);
      var t := Process(s, init, now).server;
      forall m | m in ms ensures !Due(Absorb(t, last, now), m) {
        if m in init {
          assert !Due(t, m);
          RevisionsGrow(s, init, now, m.key);
        }
      }
    }
  }

  lemma {:induction false} ConflictsStayUntracked(s: Server, ms: seq<ProtocolMutation>, now: Stamp)
    requires DistinctIds(ms)
    ensures var b := Process(s, ms, now);
            (forall id | id in b.server.tracked :: id in s.tracked || id in Ids(ms)) &&
            (forall c | c in b.conflicts :: c.mutationId !in b.server.tracked && c.mutationId in Ids(ms))
  {
    if ms != [] {
      var init, m := ms[..|ms| - 1], ms[|ms| - 1];
      ConflictsStayUntracked(s, init, now);
      assert Ids(ms) == Ids(init) + [m.id];
      assert m.id !in Ids(init);
    }
  }

  /** No id of the request is both acknowledged and reported as a conflict. */
  predicate OneVerdictPerId(b: Answers) {
    forall id | id in b.acknowledged :: id !in ConflictIds(b.conflicts)
  }

  lemma ConflictIdOf(cs: seq<ConflictInfo>, id: string)
    ensures id in ConflictIds(cs) <==> exists c :: c in cs && c.mutationId == id
  {
    if id in ConflictIds(cs) {
      var i :| 0 <= i < |cs| && ConflictIds(cs)[i] == id;
      assert cs[i] in cs;
    }
    if exists c :: c in cs && c.mutationId == id {
      var c :| c in cs && c.mutationId == id;
      var i :| 0 <= i < |cs| && cs[i] == c;
      assert ConflictIds(cs)[i] == id;
    }
  }

  /** What a request makes the tracker know, it acknowledges. */
  lemma {:induction false} TrackedIsAcknowledged(s: Server, ms: seq<ProtocolMutation>, now: Stamp)
    ensures var b := Process(s, ms, now);
            forall id | id in b.server.tracked :: id in s.tracked || id in b.acknowledged
    ensures var b := Process(s, ms, now);
            forall c | c in b.conflicts :: c.mutationId !in s.tracked
  {
    if ms != [] {
      TrackedIsAcknowledged(s, ms[..|ms| - 1], now);
      AcknowledgedIsTracked(s, ms[..|ms| - 1], now);
    }
  }

  lemma {:induction false} TrackedNeverConflicts(t: Server, ms: seq<ProtocolMutation>, later: Stamp, id: string)
    requires id in t.tracked
    ensures id !in ConflictIds(Process(t, ms, later).conflicts)
  {
    TrackedIsAcknowledged(t, ms, later);
    ConflictIdOf(Process(t, ms, later).conflicts, id);
  }

  /** The verdict on each mutation, read off the tracker afterwards. */
  lemma {:induction false} VerdictsFromTracker(s: Server, t: Server, ms: seq<ProtocolMutation>, now: Stamp, later: Stamp)
    requires forall m | m in ms :: !Due(t, m)
    requires var b := Process(s, ms, now);
             && (forall id | id in b.acknowledged :: id in t.tracked)
             && (forall c | c in b.conflicts :: c.mutationId !in t.tracked)
    ensures Process(t, ms, later).acknowledged == Process(s, ms, now).acknowledged
    ensures ConflictIds(Process(t, ms, later).conflicts) == ConflictIds(Process(s, ms, now).conflicts)
  {
    if ms != [] {
      var init, m := ms[..|ms| - 1], ms[|ms| - 1];
      var b, whole := Process(s, init, now), Process(s, ms, now);
      assert forall id | id in b.acknowledged :: id in whole.acknowledged;
      assert forall c | c in b.conflicts :: c in whole.conflicts;
      VerdictsFromTracker(s, t, init, now, later);
      NothingDue(t, init, later);
      assert !Due(t, m);
      var verdict := Judge(b.server, m, now);
      if verdict.Conflicting? {
        assert verdict.info in whole.conflicts;
        var again := Judge(t, m, later);
        ConflictIdsAppend(b.conflicts, verdict.info);
        ConflictIdsAppend(Process(t, init, later).conflicts, again.info);
      } else {
        assert m.id in whole.acknowledged;
      }
    }
  }

  /** The second time the verdicts are the same exactly if the first time no id got
      both. */
  lemma VerdictsRepeatIff(s: Server, ms: seq<ProtocolMutation>, now: Stamp, later: Stamp)
    requires NotAhead(s, ms)
    ensures var first := Process(s, ms, now);
            var second := Process(first.server, ms, later);
            second.acknowledged == first.acknowledged && ConflictIds(second.conflicts) == ConflictIds(first.conflicts)
            <==> OneVerdictPerId(first)
  {
    var first := Process(s, ms, now);
    NothingStaysDue(s, ms, now);
    AcknowledgedIsTracked(s, ms, now);
    TrackedIsAcknowledged(s, ms, now);
    if OneVerdictPerId(first) {
      forall c | c in first.conflicts ensures c.mutationId !in first.server.tracked {
        ConflictIdOf(first.conflicts, c.mutationId);
      }
      VerdictsFromTracker(s, first.server, ms, now, later);
    } else {
      var id :| id in first.acknowledged && id in ConflictIds(first.conflicts);
      TrackedNeverConflicts(first.server, ms, later, id);
    }
  }

  lemma DistinctIdsOneVerdict(s: Server, ms: seq<ProtocolMutation>, now: Stamp)
    requires DistinctIds(ms)
    ensures OneVerdictPerId(Process(s, ms, now))
  {
    var b := Process(s, ms, now);
    ConflictsStayUntracked(s, ms, now);
    AcknowledgedIsTracked(s, ms, now);
    forall id | id in b.acknowledged ensures id !in ConflictIds(b.conflicts) {
      ConflictIdOf(b.conflicts, id);
    }
  }

  /** A request whose response was lost can be repeated: if no base revision runs
      ahead of the server, the second time changes nothing and the answer has the
      same changes and cursor. It has the same acknowledgements and conflicting ids
      exactly if the first answer gave no id both verdicts, which requests with
      distinct ids never see. */
  lemma LostResponseRetry(s: Server, request: SyncRequest, now: Stamp, later: Stamp)
    requires NotAhead(s, request.mutations)
    ensures var first := HandleSync(s, request, now);
            var second := HandleSync(first.server, request, later);
            second.server == first.server &&
            (first.reply.CursorTooOld? ==> second.reply == first.reply) &&
            (first.reply.Response? ==>
               && second.reply.Response?
               && second.reply.response.changes == first.reply.response.changes
               && second.reply.response.newCursor == first.reply.response.newCursor
               && (SameVerdicts(first.reply.response, second.reply.response) <==>
                     OneVerdictPerId(Process(s, request.mutations, now))))
    ensures DistinctIds(request.mutations) ==> OneVerdictPerId(Process(s, request.mutations, now))
  {
    var ms := request.mutations;
    var t := Process(s, ms, now).server;
    NothingStaysDue(s, ms, now);
    NothingDue(t, ms, later);
    MinimumKept(s, ms, now);
    VerdictsRepeatIff(s, ms, now, later);
    if DistinctIds(ms) {
      DistinctIdsOneVerdict(s, ms, now);
    }
  }

  predicate SameVerdicts(a: SyncResponse, b: SyncResponse) {
    a.acknowledgedMutationIds == b.acknowledgedMutationIds && ConflictIds(a.conflicts) == ConflictIds(b.conflicts)
  }

  /** Two mutations under one id, the first stale and the second due: the first
      answer has the id in both lists, the second acknowledges it twice. */
  lemma SharedIdChangesVerdict(s: Server, stale: ProtocolMutation, due: ProtocolMutation, now: Stamp, later: Stamp)
    requires stale.id == due.id && stale.id !in s.tracked
    requires stale.baseRevision < RevisionOf(s.entities, stale.key) && due.baseRevision == RevisionOf(s.entities, due.key)
    ensures var first := Process(s, [stale, due], now);
            var second := Process(first.server, [stale, due], later);
            && NotAhead(s, [stale, due])
            && first.acknowledged == [due.id] && ConflictIds(first.conflicts) == [due.id]
            && second.acknowledged == [due.id, due.id] && second.conflicts == []
  {
    var ms := [stale, due];
    assert ms[..1] == [stale] && [stale][..0] == [];
    assert Process(s, [], now) == Answers(s, [], []);
    var t := Process(s, ms, now).server;
    assert Process(s, [stale], now).server == s;
    assert due.id in t.tracked;
    assert Process(t, [], later) == Answers(t, [], []);
    assert Process(t, [stale], later) == Answers(t, [due.id], []);
  }

  lemma {:induction false} MinimumKept(s: Server, ms: seq<ProtocolMutation>, now: Stamp)
    ensures Process(s, ms, now).server.minimum == s.minimum
  {
    if ms != [] {
      MinimumKept(s, ms[..|ms| - 1], now);
    }
  }

  /** A base revision one ahead of the server's, of which another mutation of the
      request makes up the difference: the first time it conflicts, the second time it
      is applied. */
  lemma AheadBreaksRetry(s: Server, first: ProtocolMutation, ahead: ProtocolMutation, now: Stamp, later: Stamp)
    requires first.key == ahead.key && first.id != ahead.id && first.id !in s.tracked && ahead.id !in s.tracked
    requires first.baseRevision == RevisionOf(s.entities, first.key) == ahead.baseRevision - 1
    ensures var t := Process(s, [ahead, first], now).server;
            |t.history| == |s.history| + 1 && |Process(t, [ahead, first], later).server.history| == |t.history| + 1
  {
    var ms := [ahead, first];
    assert ms[..1] == [ahead] && [ahead][..0] == [];
    assert Process(s, [], now) == Answers(s, [], []);
    assert Process(s, [ahead], now).server == s;
    var t := Process(s, ms, now).server;
    assert t == Absorb(s, first, now);
    assert Process(t, [], later) == Answers(t, [], []);
    var u := Process(t, [ahead], later).server;
    assert u == Absorb(t, ahead, later) && first.id in u.tracked;
    assert Process(t, ms, later).server == u;
  }

  // ----- Completeness of the changes

  lemma {:induction false} AfterIsSuffix(h: seq<Applied>, from: int, n: int)
    requires 0 <= from <= |h|
    ensures var kept := if n <= from then from else if n <= |h| then n else |h|;
            After(Logged(h)[from..], n) == Logged(h)[kept..]
    decreases |h|
  {
    if from < |h| {
      var init := h[..|h| - 1];
      var log := Logged(h)[from..];
      assert log[..|log| - 1] == Logged(init)[from..];
      AfterIsSuffix(init, from, n);
    }
  }

  predicate CompleteAt(s: Server, n: int)
    requires 0 <= n <= |s.history|
  {
    After(s.log, n) == Logged(s.history)[n..]
  }

  /** Every cursor the server accepts gets everything that happened after it. */
  ghost predicate Covered(s: Server) {
    forall n | 0 <= n <= |s.history| && !Refused(s, Position(n)) :: CompleteAt(s, n)
  }

  /** The minimum cursor is no lower than what pruning has removed. */
  predicate MinimumHonest(s: Server) {
    Lost(s) == 0 || (Number(s.minimum).Some? && Lost(s) <= Number(s.minimum).value)
  }

  lemma CompleteIff(s: Server, n: int)
    requires Consistent(s) && 0 <= n <= |s.history|
    ensures CompleteAt(s, n) <==> Lost(s) <= n
  {
    AfterIsSuffix(s.history, Lost(s), n);
    assert |Logged(s.history)[n..]| == |s.history| - n;
  }

  lemma CoveredIff(s: Server)
    requires Consistent(s)
    ensures Covered(s) <==> MinimumHonest(s)
  {
    if MinimumHonest(s) {
      forall n | 0 <= n <= |s.history| && !Refused(s, Position(n)) ensures CompleteAt(s, n) {
        CompleteIff(s, n);
      }
    } else {
      CompleteIff(s, Lost(s) - 1);
      assert !Refused(s, Position(Lost(s) - 1));
    }
  }

  /** A new minimum may be lower than the old one, but not lower than what is gone. */
  predicate SafeMinimum(s: Server, c: Cursor) {
    Lost(s) == 0 || (Number(c).Some? && Lost(s) <= Number(c).value)
  }

  /** A prune leaves every accepted cursor with complete changes exactly when the
      new minimum does not fall below what earlier prunes removed. */
  lemma PruneCoverage(s: Server, c: Cursor)
    requires Consistent(s)
    ensures Covered(Prune(s, c)) <==> SafeMinimum(s, c)
  {
    PruneConsistent(s, c);
    CoveredIff(Prune(s, c));
  }

  predicate SafePrunes(events: seq<ServerEvent>)
    decreases |events|
  {
    events == [] ||
    var before, last := events[..|events| - 1], events[|events| - 1];
    SafePrunes(before) && (last.SetMinimum? ==> SafeMinimum(Run(before), last.cursor))
  }

  lemma {:induction false} SafeRunsAreCovered(events: seq<ServerEvent>)
    requires SafePrunes(events)
    ensures Covered(Run(events))
  {
    HistoryLaw(events);
    if events != [] {
      var before, last := events[..|events| - 1], events[|events| - 1];
      SafeRunsAreCovered(before);
      HistoryLaw(before);
      var s := Run(before);
      CoveredIff(s);
      match last {
        case Sync(request, now) =>
          ProcessConsistent(s, request.mutations, now);
          CoveredIff(Run(events));
        case SetMinimum(cursor) => PruneCoverage(s, cursor);
      }
    } else {
      CoveredIff(INITIAL);
    }
  }
}
