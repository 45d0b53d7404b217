/** The sequence checks of the integrity checker and of recovery, and what their
    reports amount to in terms of the stored sequences alone. */
module Integrity {
  import opened Json
  import opened Protocol
  import Queue

  type Mutations = Queue.Mutations

  datatype Severity = Critical | High | Medium | Low

  datatype Issue =
    | NonMonotonic(collection: string, mutationId: string, sequence: int, previous: int)
    | Gap(collection: string, expected: int, found: int)

  function SeverityOf(issue: Issue): Severity {
    if issue.NonMonotonic? then Critical else High
  }

  // ----- The report as a function

  /** Names of collections in the order in which they first appear. */
  function Collections(q: Mutations): seq<string> {
    if q == [] then []
    else
      var before, c := Collections(q[..|q| - 1]), q[|q| - 1].key.collection;
      if c in before then before else before + [c]
  }

  function PairIssues(collection: string, previous: Queue.Mutation, current: Queue.Mutation): seq<Issue> {
    (if current.sequence <= previous.sequence
     then [NonMonotonic(collection, current.id, current.sequence, previous.sequence)] else [])
    + (if current.sequence > previous.sequence + 1
       then [Gap(collection, previous.sequence + 1, current.sequence)] else [])
  }

  /** What scanning a sorted list finds. */
  function Scan(collection: string, sorted: Mutations): seq<Issue> {
    if |sorted| < 2 then []
    else Scan(collection, sorted[..|sorted| - 1]) + PairIssues(collection, sorted[|sorted| - 2], sorted[|sorted| - 1])
  }

  function IssuesOf(q: Mutations, collection: string): seq<Issue> {
    Scan(collection, Queue.BySequence(Queue.InCollection(q, collection)))
  }

  function IssuesIn(q: Mutations, collections: seq<string>): seq<Issue> {
    if collections == [] then []
    else IssuesIn(q, collections[..|collections| - 1]) + IssuesOf(q, collections[|collections| - 1])
  }

  function AllIssues(q: Mutations): seq<Issue> {
    IssuesIn(q, Collections(q))
  }

  function OfSeverity(issues: seq<Issue>, severity: Severity): nat {
    if issues == [] then 0
    else OfSeverity(issues[..|issues| - 1], severity) + if SeverityOf(issues[|issues| - 1]) == severity then 1 else 0
  }

  lemma {:induction false} SeverityAdds(a: seq<Issue>, b: seq<Issue>, severity: Severity)
    ensures OfSeverity(a + b, severity) == OfSeverity(a, severity) + OfSeverity(b, severity)
  {
    if b == [] {
      assert a + b == a;
    } else {
      assert (a + b)[..|a + b| - 1] == a + b[..|b| - 1];
      SeverityAdds(a, b[..|b| - 1], severity);
    }
  }

  // ----- What it amounts to

  /** A collection and a sequence number in it. */
  type Slot = (string, int)

  function Slots(q: Mutations): set<Slot> {
    set m | m in q :: (m.key.collection, m.sequence)
  }

  /** Where a maximal run of consecutive numbers begins. */
  function RunStarts(slots: set<Slot>): set<Slot> {
    set x | x in slots && (x.0, x.1 - 1) !in slots
  }

  lemma SlotsAppend(q: Mutations, m: Queue.Mutation)
    ensures Slots(q + [m]) == Slots(q) + {(m.key.collection, m.sequence)}
  {
    assert m in q + [m];
  }

  predicate OneCollection(q: Mutations, collection: string) {
    forall m | m in q :: m.key.collection == collection
  }

  /** In a sorted collection every repetition is one critical issue and every new
      run but the first is one gap. */
  lemma {:induction false} ScanCounts(sorted: Mutations, collection: string)
    requires Queue.Ascending(sorted) && OneCollection(sorted, collection)
    ensures OfSeverity(Scan(collection, sorted), Critical) == |sorted| - |Slots(sorted)|
    ensures OfSeverity(Scan(collection, sorted), High) == |RunStarts(Slots(sorted))| - (if sorted == [] then 0 else 1)
  {
    if |sorted| == 1 {
      OneSlot(sorted[0]);
      assert sorted == [sorted[0]] && sorted[0] in sorted;
    } else if |sorted| > 1 {
      var init, prev, last := sorted[..|sorted| - 1], sorted[|sorted| - 2], sorted[|sorted| - 1];
      assert sorted == init + [last] && last in sorted && prev == init[|init| - 1];
      assert OneCollection(init, collection);
      ScanCounts(init, collection);
      SlotsAppend(init, last);
      ScanStep(init, prev, last, collection);
      SeverityAdds(Scan(collection, init), PairIssues(collection, prev, last), Critical);
      SeverityAdds(Scan(collection, init), PairIssues(collection, prev, last), High);
      PairCounts(collection, prev, last);
    }
  }

  lemma OneSlot(m: Queue.Mutation)
    ensures Slots([m]) == {(m.key.collection, m.sequence)} == RunStarts(Slots([m]))
  {
    assert m in [m];
  }

  lemma PairCounts(collection: string, previous: Queue.Mutation, current: Queue.Mutation)
    ensures OfSeverity(PairIssues(collection, previous, current), Critical) == if current.sequence <= previous.sequence then 1 else 0
    ensures OfSeverity(PairIssues(collection, previous, current), High) == if current.sequence > previous.sequence + 1 then 1 else 0
  {
    if current.sequence <= previous.sequence {
      assert PairIssues(collection, previous, current) == [NonMonotonic(collection, current.id, current.sequence, previous.sequence)];
    } else if current.sequence > previous.sequence + 1 {
      assert PairIssues(collection, previous, current) == [Gap(collection, previous.sequence + 1, current.sequence)];
    }
  }

  /** A number not below all others adds a slot unless it repeats the last one, and
      a run unless it is within one of it. */
  lemma ScanStep(init: Mutations, prev: Queue.Mutation, last: Queue.Mutation, collection: string)
    requires init != [] && prev == init[|init| - 1] && Queue.Ascending(init) && prev.sequence <= last.sequence
    requires OneCollection(init, collection) && last.key.collection == collection
    ensures var slots, slot := Slots(init), (collection, last.sequence);
            && (slot in slots <==> last.sequence == prev.sequence)
            && |slots + {slot}| == |slots| + (if last.sequence == prev.sequence then 0 else 1)
            && |RunStarts(slots + {slot})| == |RunStarts(slots)| + (if last.sequence > prev.sequence + 1 then 1 else 0)
  {
    var slots, slot := Slots(init), (collection, last.sequence);
    forall x | x in slots ensures x.0 == collection && x.1 <= prev.sequence {
      var m :| m in init && x == (m.key.collection, m.sequence);
      var i :| 0 <= i < |init| && init[i] == m;
    }
    assert prev in init;
    assert (collection, prev.sequence) in slots;
    RunsStep(slots, collection, prev.sequence, last.sequence);
  }

  lemma RunsStep(slots: set<Slot>, collection: string, prev: int, last: int)
    requires prev <= last && (collection, prev) in slots
    requires forall x | x in slots :: x.0 == collection && x.1 <= prev
    ensures var slot := (collection, last);
            && (slot in slots <==> last == prev)
            && |slots + {slot}| == |slots| + (if last == prev then 0 else 1)
            && |RunStarts(slots + {slot})| == |RunStarts(slots)| + (if last > prev + 1 then 1 else 0)
  {
    var slot := (collection, last);
    if last == prev {
      assert slots + {slot} == slots;
    } else if last == prev + 1 {
      assert RunStarts(slots + {slot}) == RunStarts(slots);
    } else {
      assert RunStarts(slots + {slot}) == RunStarts(slots) + {slot};
    }
  }

  lemma SortedCollection(q: Mutations, collection: string)
    ensures var sorted := Queue.BySequence(Queue.InCollection(q, collection));
            && Queue.Ascending(sorted) && OneCollection(sorted, collection)
            && |sorted| == |Queue.InCollection(q, collection)|
            && Slots(sorted) == Slots(Queue.InCollection(q, collection))
  {
    var mine := Queue.InCollection(q, collection);
    var sorted := Queue.BySequence(mine);
    Queue.BySequenceLaw(mine);
    Queue.InCollectionMembers(q, collection);
    assert |multiset(sorted)| == |multiset(mine)|;
    forall m ensures m in sorted <==> m in mine {
      assert m in multiset(sorted) <==> m in multiset(mine);
    }
  }

  /** What one collection reports: as many critical issues as it has mutations more
      than numbers, and as many gaps as it has runs but one. */
  lemma CollectionReport(q: Mutations, collection: string)
    ensures var mine := Queue.InCollection(q, collection);
            && OfSeverity(IssuesOf(q, collection), Critical) == |mine| - |Slots(mine)|
            && OfSeverity(IssuesOf(q, collection), High) == |RunStarts(Slots(mine))| - (if mine == [] then 0 else 1)
  {
    SortedCollection(q, collection);
    ScanCounts(Queue.BySequence(Queue.InCollection(q, collection)), collection);
  }

  // ----- All collections together

  function Among(q: Mutations, collections: seq<string>): Mutations {
    if q == [] then []
    else Among(q[..|q| - 1], collections) + if q[|q| - 1].key.collection in collections then [q[|q| - 1]] else []
  }

  lemma {:induction false} AmongSplits(q: Mutations, collections: seq<string>, c: string)
    requires c !in collections
    ensures |Among(q, collections + [c])| == |Among(q, collections)| + |Queue.InCollection(q, c)|
    ensures Slots(Among(q, collections + [c])) == Slots(Among(q, collections)) + Slots(Queue.InCollection(q, c))
  {
    if q != [] {
      AmongSplits(q[..|q| - 1], collections, c);
    }
    AmongMembers(q, collections + [c]);
    AmongMembers(q, collections);
    Queue.InCollectionMembers(q, c);
  }

  lemma {:induction false} AmongMembers(q: Mutations, collections: seq<string>)
    ensures forall m :: m in Among(q, collections) <==> m in q && m.key.collection in collections
  {
    if q != [] {
      AmongMembers(q[..|q| - 1], collections);
      assert q == q[..|q| - 1] + [q[|q| - 1]];
    }
  }

  lemma {:induction false} AmongNone(q: Mutations)
    ensures Among(q, []) == []
  {
    if q != [] {
      AmongNone(q[..|q| - 1]);
    }
  }

  predicate DistinctNames(collections: seq<string>) {
    forall i, j | 0 <= i < j < |collections| :: collections[i] != collections[j]
  }

  lemma {:induction false} ReportOver(q: Mutations, collections: seq<string>)
    requires DistinctNames(collections) && forall c | c in collections :: Queue.InCollection(q, c) != []
    ensures var some := Among(q, collections);
            && OfSeverity(IssuesIn(q, collections), Critical) == |some| - |Slots(some)|
            && OfSeverity(IssuesIn(q, collections), High) == |RunStarts(Slots(some))| - |collections|
  {
    if collections == [] {
      AmongNone(q);
    } else {
      var init, c := collections[..|collections| - 1], collections[|collections| - 1];
      assert collections == init + [c] && c in collections;
      ReportOver(q, init);
      CollectionReport(q, c);
      SeverityAdds(IssuesIn(q, init), IssuesOf(q, c), Critical);
      SeverityAdds(IssuesIn(q, init), IssuesOf(q, c), High);
      AmongSplits(q, init, c);
      SlotsApart(q, init, c);
    }
  }

  lemma {:induction false} SlotsApart(q: Mutations, init: seq<string>, c: string)
    requires c !in init
    ensures var a, b := Slots(Among(q, init)), Slots(Queue.InCollection(q, c));
            |a + b| == |a| + |b| && |RunStarts(a + b)| == |RunStarts(a)| + |RunStarts(b)|
  {
    var a, b := Slots(Among(q, init)), Slots(Queue.InCollection(q, c));
    AmongMembers(q, init);
    Queue.InCollectionMembers(q, c);
    assert a !! b && RunStarts(a) !! RunStarts(b);
    assert RunStarts(a + b) == RunStarts(a) + RunStarts(b);
  }

  lemma {:induction false} CollectionsLaw(q: Mutations)
    ensures DistinctNames(Collections(q))
    ensures forall c :: c in Collections(q) <==> exists m :: m in q && m.key.collection == c
  {
    if q != [] {
      var init, last := q[..|q| - 1], q[|q| - 1];
      CollectionsLaw(init);
      assert q == init + [last];
      forall c ensures c in Collections(q) <==> exists m :: m in q && m.key.collection == c {
        assert last in q;
        if exists m :: m in init && m.key.collection == c {
          var m :| m in init && m.key.collection == c;
          assert m in q;
        }
      }
    }
  }

  predicate FirstAt(q: Mutations, c: string, p: int) {
    0 <= p < |q| && q[p].key.collection == c && forall r | 0 <= r < p :: q[r].key.collection != c
  }

  /** The names stand in the order in which they first appear. */
  lemma {:induction false} CollectionsInOrder(q: Mutations, i: nat, j: nat, p: int, r: int)
    requires i < j < |Collections(q)|
    requires FirstAt(q, Collections(q)[i], p) && FirstAt(q, Collections(q)[j], r)
    ensures p < r
  {
    var init := q[..|q| - 1];
    CollectionsLaw(init);
    FirstBefore(q, Collections(q)[i], p);
    if j < |Collections(init)| {
      FirstBefore(q, Collections(q)[j], r);
      CollectionsInOrder(init, i, j, p, r);
    } else {
      NotBefore(q, Collections(q)[j], r);
    }
  }

  lemma FirstBefore(q: Mutations, c: string, p: int)
    requires FirstAt(q, c, p) && exists m :: m in q[..|q| - 1] && m.key.collection == c
    ensures FirstAt(q[..|q| - 1], c, p)
  {
    var init := q[..|q| - 1];
    var m :| m in init && m.key.collection == c;
    var k :| 0 <= k < |init| && init[k] == m;
    assert q[k] == m;
  }

  lemma NotBefore(q: Mutations, c: string, p: int)
    requires FirstAt(q, c, p) && !exists m :: m in q[..|q| - 1] && m.key.collection == c
    ensures p == |q| - 1
  {
    Appears(q, p);
  }

  lemma Appears(q: Mutations, p: int)
    requires 0 <= p < |q|
    ensures p == |q| - 1 || exists m :: m in q[..|q| - 1] && m.key.collection == q[p].key.collection
  {
    if p < |q| - 1 {
      assert q[..|q| - 1][p] == q[p];
      assert q[p] in q[..|q| - 1];
    }
  }

  lemma {:induction false} AmongAll(q: Mutations, collections: seq<string>)
    requires forall m | m in q :: m.key.collection in collections
    ensures Among(q, collections) == q
  {
    if q != [] {
      assert q == q[..|q| - 1] + [q[|q| - 1]];
      AmongAll(q[..|q| - 1], collections);
    }
  }

  /** The whole report counts: critical issues are the mutations beyond the distinct
      numbers, gaps the runs beyond one per collection. */
  lemma ReportCounts(q: Mutations)
    ensures OfSeverity(AllIssues(q), Critical) == |q| - |Slots(q)|
    ensures OfSeverity(AllIssues(q), High) == |RunStarts(Slots(q))| - |Collections(q)|
    ensures |AllIssues(q)| == OfSeverity(AllIssues(q), Critical) + OfSeverity(AllIssues(q), High)
  {
    var names := Collections(q);
    CollectionsLaw(q);
    forall c | c in names ensures Queue.InCollection(q, c) != [] {
      var m :| m in q && m.key.collection == c;
      Queue.InCollectionMembers(q, c);
    }
    ReportOver(q, names);
    forall m | m in q ensures m.key.collection in names {
    }
    AmongAll(q, names);
    OnlyTwoSeverities(AllIssues(q));
  }

  lemma {:induction false} OnlyTwoSeverities(issues: seq<Issue>)
    ensures |issues| == OfSeverity(issues, Critical) + OfSeverity(issues, High)
  {
    if issues != [] {
      OnlyTwoSeverities(issues[..|issues| - 1]);
    }
  }

  // ----- Exactly when nothing is reported

  predicate DistinctNumbers(q: Mutations) {
    forall i, j | 0 <= i < j < |q| && q[i].key.collection == q[j].key.collection :: q[i].sequence != q[j].sequence
  }

  /** What lies between two numbers of a collection is one of its numbers. */
  ghost predicate Intervals(q: Mutations) {
    forall c: string, lo: int, n: int, hi: int ::
      (c, lo) in Slots(q) && (c, hi) in Slots(q) && lo <= n <= hi ==> (c, n) in Slots(q)
  }

  lemma {:induction false} SlotsCount(q: Mutations)
    ensures |Slots(q)| <= |q|
    ensures |Slots(q)| == |q| <==> DistinctNumbers(q)
  {
    if q != [] {
      var init, last := q[..|q| - 1], q[|q| - 1];
      var slot := (last.key.collection, last.sequence);
      SlotsCount(init);
      assert q == init + [last];
      SlotsAppend(init, last);
      SlotTaken(init, last);
    }
  }

  lemma SlotTaken(init: Mutations, last: Queue.Mutation)
    ensures DistinctNumbers(init + [last]) <==>
            DistinctNumbers(init) && (last.key.collection, last.sequence) !in Slots(init)
  {
    var q := init + [last];
    if (last.key.collection, last.sequence) in Slots(init) {
      var m :| m in init && (m.key.collection, m.sequence) == (last.key.collection, last.sequence);
      var i :| 0 <= i < |init| && init[i] == m;
      assert q[i] == m && q[|init|] == last;
    } else if DistinctNumbers(init) {
      forall i, j | 0 <= i < j < |q| && q[i].key.collection == q[j].key.collection ensures q[i].sequence != q[j].sequence {
        assert q[i] == init[i] && init[i] in init;
        assert (q[i].key.collection, q[i].sequence) in Slots(init);
      }
    } else {
      var i, j :| 0 <= i < j < |init| && init[i].key.collection == init[j].key.collection && init[i].sequence == init[j].sequence;
      assert q[i] == init[i] && q[j] == init[j];
    }
  }

  /** The least number of a collection begins a run. */
  lemma LeastStarts(slots: set<Slot>, c: string, n: int) returns (lo: int)
    requires (c, n) in slots
    ensures lo <= n && (c, lo) in RunStarts(slots)
    ensures forall i | lo <= i <= n :: (c, i) in slots
    decreases slots
  {
    if (c, n - 1) in slots {
      var below := set x | x in slots && x.1 < n;
      assert (c, n) !in below;
      lo := LeastStarts(below, c, n - 1);
      assert (c, lo) in slots;
      if (c, lo - 1) in slots { assert (c, lo - 1) in below; }
    } else {
      lo := n;
    }
  }

  predicate OneRunPerName(starts: set<Slot>) {
    forall x, y | x in starts && y in starts && x.0 == y.0 :: x == y
  }

  lemma {:induction false} OneRunIsInterval(q: Mutations)
    requires OneRunPerName(RunStarts(Slots(q)))
    ensures Intervals(q)
  {
    forall c: string, lo: int, n: int, hi: int | (c, lo) in Slots(q) && (c, hi) in Slots(q) && lo <= n <= hi
      ensures (c, n) in Slots(q)
    {
      var a := LeastStarts(Slots(q), c, lo);
      var b := LeastStarts(Slots(q), c, hi);
      assert (c, a) == (c, b);
    }
  }

  lemma TwoRunsAreNoInterval(q: Mutations, c: string, lo: int, hi: int)
    requires (c, lo) in RunStarts(Slots(q)) && (c, hi) in RunStarts(Slots(q)) && lo < hi
    ensures !Intervals(q)
  {
    assert lo <= hi - 1 <= hi && (c, hi - 1) !in Slots(q);
  }

  lemma {:induction false} OneRunIffInterval(q: Mutations)
    ensures OneRunPerName(RunStarts(Slots(q))) <==> Intervals(q)
  {
    var starts := RunStarts(Slots(q));
    if OneRunPerName(starts) {
      OneRunIsInterval(q);
    } else {
      var x, y :| x in starts && y in starts && x.0 == y.0 && x != y;
      if x.1 < y.1 {
        TwoRunsAreNoInterval(q, x.0, x.1, y.1);
      } else {
        TwoRunsAreNoInterval(q, x.0, y.1, x.1);
      }
    }
  }

  /** As many runs as collections means one run in each. */
  lemma OneRunEach(q: Mutations)
    ensures |RunStarts(Slots(q))| >= |Collections(q)|
    ensures |RunStarts(Slots(q))| == |Collections(q)| <==> Intervals(q)
  {
    CollectionsLaw(q);
    NamesOfStarts(q);
    ImageCount(RunStarts(Slots(q)));
    NamesCount(Collections(q));
    OneRunIffInterval(q);
  }

  lemma NamesOfStarts(q: Mutations)
    ensures (set x | x in RunStarts(Slots(q)) :: x.0) == set c | c in Collections(q)
  {
    CollectionsLaw(q);
    forall c | c in Collections(q) ensures exists x :: x in RunStarts(Slots(q)) && x.0 == c {
      var m :| m in q && m.key.collection == c;
      assert (c, m.sequence) in Slots(q);
      var lo := LeastStarts(Slots(q), c, m.sequence);
      assert (c, lo).0 == c;
    }
    forall x | x in RunStarts(Slots(q)) ensures x.0 in Collections(q) {
      var m :| m in q && x == (m.key.collection, m.sequence);
    }
  }

  lemma {:induction false} NamesCount(names: seq<string>)
    requires DistinctNames(names)
    ensures |set c | c in names| == |names|
  {
    if names != [] {
      var init, last := names[..|names| - 1], names[|names| - 1];
      NamesCount(init);
      assert (set c | c in names) == (set c | c in init) + {last};
      assert last !in init;
    }
  }

  lemma {:induction false} ImageCount(slots: set<Slot>)
    ensures |set x | x in slots :: x.0| <= |slots|
    ensures |set x | x in slots :: x.0| == |slots| <==> OneRunPerName(slots)
    decreases slots
  {
    if slots != {} {
      var s :| s in slots;
      var rest := slots - {s};
      ImageCount(rest);
      var image := set x | x in rest :: x.0;
      assert (set x | x in slots :: x.0) == image + {s.0};
      if s.0 in image {
        var y :| y in rest && y.0 == s.0;
        assert y in slots && y != s;
      }
    }
  }

  /** Nothing is reported exactly if the sequences of every collection are distinct
      and form an interval. */
  lemma HealthyIff(q: Mutations)
    ensures AllIssues(q) == [] <==> DistinctNumbers(q) && Intervals(q)
  {
    ReportCounts(q);
    SlotsCount(q);
    OneRunEach(q);
  }

  // ----- Which gaps and which repetitions

  /** Nothing is stored from the expected number up to the found one, and something is at
      the number before and at the found one. */
  ghost predicate IsGap(slots: set<Slot>, c: string, expected: int, found: int) {
    && expected < found && (c, expected - 1) in slots && (c, found) in slots
    && forall n: int | expected <= n < found :: (c, n) !in slots
  }

  lemma SortedBelow(sorted: Mutations, c: string)
    requires sorted != [] && Queue.Ascending(sorted) && OneCollection(sorted, c)
    ensures (c, sorted[|sorted| - 1].sequence) in Slots(sorted)
    ensures forall x | x in Slots(sorted) :: x.0 == c && x.1 <= sorted[|sorted| - 1].sequence
  {
    assert sorted[|sorted| - 1] in sorted;
    forall x | x in Slots(sorted) ensures x.0 == c && x.1 <= sorted[|sorted| - 1].sequence {
      var m :| m in sorted && x == (m.key.collection, m.sequence);
      var i :| 0 <= i < |sorted| && sorted[i] == m;
    }
  }

  lemma GapStep(slots: set<Slot>, c: string, prev: int, last: int, expected: int, found: int)
    requires (c, prev) in slots && prev <= last && forall x | x in slots :: x.0 == c && x.1 <= prev
    ensures IsGap(slots + {(c, last)}, c, expected, found) <==>
            IsGap(slots, c, expected, found) || (expected == prev + 1 && found == last && last > prev + 1)
  {
    var more := slots + {(c, last)};
    if IsGap(more, c, expected, found) && found == last && last > prev {
      assert !(expected <= prev < found);
    }
    if IsGap(slots, c, expected, found) {
      assert found <= prev;
      assert forall n: int | expected <= n < found :: (c, n) in more ==> (c, n) in slots;
    }
  }

  lemma {:induction false} ScanGapIff(sorted: Mutations, c: string, expected: int, found: int)
    requires Queue.Ascending(sorted) && OneCollection(sorted, c)
    ensures Gap(c, expected, found) in Scan(c, sorted) <==> IsGap(Slots(sorted), c, expected, found)
  {
    if |sorted| < 2 {
      NoGapInOne(sorted, c, expected, found);
    } else {
      var init, prev, last := sorted[..|sorted| - 1], sorted[|sorted| - 2], sorted[|sorted| - 1];
      assert sorted == init + [last] && last in sorted && prev == init[|init| - 1];
      ScanGapIff(init, c, expected, found);
      SlotsAppend(init, last);
      SortedBelow(init, c);
      GapStep(Slots(init), c, prev.sequence, last.sequence, expected, found);
      PairGap(c, prev, last, expected, found);
    }
  }

  lemma NoGapInOne(sorted: Mutations, c: string, expected: int, found: int)
    requires |sorted| < 2
    ensures !IsGap(Slots(sorted), c, expected, found)
  {
    forall x, y | x in Slots(sorted) && y in Slots(sorted) ensures x == y {
    }
  }

  lemma PairGap(c: string, previous: Queue.Mutation, current: Queue.Mutation, expected: int, found: int)
    ensures Gap(c, expected, found) in PairIssues(c, previous, current) <==>
            current.sequence > previous.sequence + 1 && expected == previous.sequence + 1 && found == current.sequence
  {
  }

  lemma {:induction false} ScanNames(c: string, sorted: Mutations)
    ensures forall issue | issue in Scan(c, sorted) :: issue.collection == c
  {
    if |sorted| >= 2 {
      ScanNames(c, sorted[..|sorted| - 1]);
    }
  }

  lemma {:induction false} IssuesByName(q: Mutations, collections: seq<string>, issue: Issue)
    ensures issue in IssuesIn(q, collections) <==> issue.collection in collections && issue in IssuesOf(q, issue.collection)
  {
    if collections != [] {
      var init, c := collections[..|collections| - 1], collections[|collections| - 1];
      assert collections == init + [c];
      IssuesByName(q, init, issue);
      ScanNames(c, Queue.BySequence(Queue.InCollection(q, c)));
    }
  }

  /** A gap is reported exactly if it is there: from its expected number up to the number
      found nothing is stored in the collection, and on both sides something is. */
  lemma {:induction false} GapReportedIff(q: Mutations, c: string, expected: int, found: int)
    ensures Gap(c, expected, found) in AllIssues(q) <==> IsGap(Slots(q), c, expected, found)
  {
    var mine := Queue.InCollection(q, c);
    IssuesByName(q, Collections(q), Gap(c, expected, found));
    CollectionsLaw(q);
    SortedCollection(q, c);
    ScanGapIff(Queue.BySequence(mine), c, expected, found);
    Queue.InCollectionMembers(q, c);
    assert forall n: int :: (c, n) in Slots(q) <==> (c, n) in Slots(mine);
    if IsGap(Slots(q), c, expected, found) {
      var m :| m in q && (m.key.collection, m.sequence) == (c, found);
    }
  }

  lemma {:induction false} ScanRepetition(sorted: Mutations, c: string, issue: Issue)
    requires Queue.Ascending(sorted) && issue in Scan(c, sorted) && issue.NonMonotonic?
    ensures issue.sequence == issue.previous
    ensures exists i, j :: 0 <= i < j < |sorted| && Repeats(sorted[i], sorted[j], issue)
  {
    var init, prev, last := sorted[..|sorted| - 1], sorted[|sorted| - 2], sorted[|sorted| - 1];
    if issue in Scan(c, init) {
      ScanRepetition(init, c, issue);
      var i, j :| 0 <= i < j < |init| && Repeats(init[i], init[j], issue);
      assert Repeats(sorted[i], sorted[j], issue);
    } else {
      assert Repeats(sorted[|sorted| - 2], sorted[|sorted| - 1], issue);
    }
  }

  /** The issue names the second of two mutations with one number. */
  predicate Repeats(first: Queue.Mutation, second: Queue.Mutation, issue: Issue)
    requires issue.NonMonotonic?
  {
    first.sequence == second.sequence == issue.sequence && second.id == issue.mutationId
  }

  /** A repetition is reported of a mutation that is stored, under the number it has; its
      number and the one before it are the same. */
  lemma RepetitionReported(q: Mutations, issue: Issue)
    requires issue in AllIssues(q) && issue.NonMonotonic?
    ensures issue.previous == issue.sequence
    ensures exists m :: m in q && m.id == issue.mutationId && m.key.collection == issue.collection && m.sequence == issue.sequence
  {
    var c := issue.collection;
    var mine := Queue.InCollection(q, c);
    var sorted := Queue.BySequence(mine);
    IssuesByName(q, Collections(q), issue);
    SortedCollection(q, c);
    ScanRepetition(sorted, c, issue);
    var i, j :| 0 <= i < j < |sorted| && Repeats(sorted[i], sorted[j], issue);
    Queue.BySequenceLaw(mine);
    Queue.InCollectionMembers(q, c);
    assert sorted[j] in multiset(sorted) && sorted[j] in mine;
  }
}
