/** What the integrity report says about a client that only writes locally: never a
    repetition, and one gap for every commit that follows failed writes. */
module WriteReports {
  import opened Json
  import opened Protocol
  import opened LocalWrites
  import opened Integrity
  import Queue

  /** The commit's number is not the successor of the collection's last one. */
  predicate Skips(l: Local, a: Attempt) {
    var c := a.key.collection;
    && Commits(l.entities, a)
    && (exists m :: m in l.queue && m.key.collection == c)
    && Current(l.sequences, c) > Queue.MaxSequence(l.queue, c)
  }

  function Skipping(events: seq<Event>): nat {
    if events == [] then 0
    else
      var before, last := events[..|events| - 1], events[|events| - 1];
      Skipping(before) + if last.Do? && Skips(Run(before), last.attempt) then 1 else 0
  }

  /** Every restart reads back the numbers of every collection that is written. */
  predicate SeedsWritten(events: seq<Event>) {
    forall i | 0 <= i < |events| && events[i].Do? :: Seeds(events, events[i].attempt.key.collection)
  }

  lemma AppendSlots(q: Mutations, m: Queue.Mutation)
    requires forall x | x in q && x.key.collection == m.key.collection :: x.sequence < m.sequence
    ensures |Slots(q + [m])| == |Slots(q)| + 1
    ensures |RunStarts(Slots(q + [m]))| ==
            |RunStarts(Slots(q))| + if (m.key.collection, m.sequence - 1) in Slots(q) then 0 else 1
  {
    var slots := Slots(q);
    SlotsAppend(q, m);
    forall s | s in slots && s.0 == m.key.collection ensures s.1 < m.sequence {
      var x :| x in q && (x.key.collection, x.sequence) == s;
    }
    NewLastSlot(slots, m.key.collection, m.sequence);
  }

  lemma NewLastSlot(slots: set<Slot>, c: string, n: int)
    requires forall s | s in slots && s.0 == c :: s.1 < n
    ensures |slots + {(c, n)}| == |slots| + 1
    ensures |RunStarts(slots + {(c, n)})| == |RunStarts(slots)| + if (c, n - 1) in slots then 0 else 1
  {
    assert (c, n) !in slots && (c, n + 1) !in slots;
    if (c, n - 1) in slots {
      assert RunStarts(slots + {(c, n)}) == RunStarts(slots);
    } else {
      assert RunStarts(slots + {(c, n)}) == RunStarts(slots) + {(c, n)};
    }
  }

  lemma AppendReport(q: Mutations, m: Queue.Mutation)
    requires forall x | x in q && x.key.collection == m.key.collection :: x.sequence < m.sequence
    ensures OfSeverity(AllIssues(q + [m]), Critical) == OfSeverity(AllIssues(q), Critical)
    ensures OfSeverity(AllIssues(q + [m]), High) == OfSeverity(AllIssues(q), High) +
            if (exists x :: x in q && x.key.collection == m.key.collection)
               && m.sequence > Queue.MaxSequence(q, m.key.collection) + 1 then 1 else 0
  {
    AppendSlots(q, m);
    ReportCounts(q);
    ReportCounts(q + [m]);
    PredecessorStored(q, m);
    CollectionsLaw(q);
    assert (q + [m])[..|q|] == q;
  }

  /** The number before is stored exactly if it is the collection's last one. */
  lemma PredecessorStored(q: Mutations, m: Queue.Mutation)
    requires forall x | x in q && x.key.collection == m.key.collection :: x.sequence < m.sequence
    ensures (m.key.collection, m.sequence - 1) in Slots(q) <==>
            (exists x :: x in q && x.key.collection == m.key.collection)
            && m.sequence <= Queue.MaxSequence(q, m.key.collection) + 1
  {
    var c := m.key.collection;
    Queue.MaxSequenceLaw(q, c);
    if (c, m.sequence - 1) in Slots(q) {
      var x :| x in q && (x.key.collection, x.sequence) == (c, m.sequence - 1);
    } else if exists x :: x in q && x.key.collection == c {
      var x :| x in q && x.key.collection == c && x.sequence == Queue.MaxSequence(q, c);
      assert (c, x.sequence) in Slots(q);
    }
  }

  /** Without a sync the checker finds no repetition, and as many gaps as there were
      commits whose collection had used up numbers on failed writes: a gap does not
      mean that anything was lost. */
  lemma {:induction false} GapsAreFailedWrites(events: seq<Event>)
    requires FreshIds(events) && SeedsWritten(events)
    ensures OfSeverity(AllIssues(Run(events).queue), Critical) == 0
    ensures OfSeverity(AllIssues(Run(events).queue), High) == Skipping(events)
  {
    if events == [] {
      assert AllIssues([]) == [];
    } else {
      var before, last := events[..|events| - 1], events[|events| - 1];
      SeedsBefore(events);
      GapsAreFailedWrites(before);
      if last.Do? && Commits(Run(before).entities, last.attempt) {
        CommitReported(Run(before), last.attempt, before);
      }
    }
  }

  lemma SeedsBefore(events: seq<Event>)
    requires SeedsWritten(events) && events != []
    ensures SeedsWritten(events[..|events| - 1])
    ensures events[|events| - 1].Do? ==> Seeds(events[..|events| - 1], events[|events| - 1].attempt.key.collection)
  {
    var before := events[..|events| - 1];
    assert forall i | 0 <= i < |before| :: before[i] == events[i];
  }

  lemma {:induction false} CommitReported(l: Local, a: Attempt, before: seq<Event>)
    requires l == Run(before) && FreshIds(before) && Seeds(before, a.key.collection)
    requires Commits(l.entities, a) && !Queue.Has(l.queue, a.id)
    ensures var q := Attempted(l, a).queue;
            && OfSeverity(AllIssues(q), Critical) == OfSeverity(AllIssues(l.queue), Critical)
            && OfSeverity(AllIssues(q), High) == OfSeverity(AllIssues(l.queue), High) + if Skips(l, a) then 1 else 0
  {
    var c := a.key.collection;
    SequencesIncrease(before, c);
    CommitAppends(l, a);
    IncreasingBelow(l, c);
    AppendReport(l.queue, NewMutation(l, a));
  }

  function NewMutation(l: Local, a: Attempt): Queue.Mutation
    requires Commits(l.entities, a)
  {
    Recorded(a, Intended(l.entities, a).value, Current(l.sequences, a.key.collection) + 1)
  }

  lemma CommitAppends(l: Local, a: Attempt)
    requires Commits(l.entities, a) && !Queue.Has(l.queue, a.id)
    ensures Attempted(l, a).queue == l.queue + [NewMutation(l, a)]
  {
  }

  lemma IncreasingBelow(l: Local, c: string)
    requires Increasing(l, c)
    ensures forall x | x in l.queue && x.key.collection == c :: x.sequence <= Current(l.sequences, c)
  {
    forall x | x in l.queue && x.key.collection == c ensures x.sequence <= Current(l.sequences, c) {
      var i :| 0 <= i < |l.queue| && l.queue[i] == x;
    }
  }
}
