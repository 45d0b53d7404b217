/** The checks as loops over the stored mutations, proved against Integrity. */
module IntegrityChecker {
  import opened Json
  import opened Protocol
  import opened Integrity
  import opened ClientStorage
  import Queue

  datatype Summary = Summary(critical: nat, high: nat, medium: nat, low: nat)

  /** The gaps among the issues, which is all that recovery warns about. */
  function GapsAmong(issues: seq<Issue>): seq<Issue> {
    if issues == [] then []
    else GapsAmong(issues[..|issues| - 1]) + if issues[|issues| - 1].Gap? then [issues[|issues| - 1]] else []
  }

  lemma {:induction false} GapsAmongAppend(a: seq<Issue>, b: seq<Issue>)
    ensures GapsAmong(a + b) == GapsAmong(a) + GapsAmong(b)
  {
    if b == [] {
      assert a + b == a;
    } else {
      assert (a + b)[..|a + b| - 1] == a + b[..|b| - 1];
      GapsAmongAppend(a, b[..|b| - 1]);
    }
  }

  lemma {:induction false} GapsAmongCount(issues: seq<Issue>)
    ensures |GapsAmong(issues)| == OfSeverity(issues, High)
  {
    if issues != [] {
      GapsAmongCount(issues[..|issues| - 1]);
    }
  }

  class Checker {
    const storage: Storage

    constructor (storage: Storage)
      ensures this.storage == storage
    {
      this.storage := storage;
    }

    /** A map with its keys in the order in which they were first set. */
    method GroupByCollection() returns (names: seq<string>, groups: map<string, Mutations>)
      ensures names == Collections(storage.mutations)
      ensures forall c :: c in groups <==> c in names
      ensures forall c | c in groups :: groups[c] == Queue.InCollection(storage.mutations, c)
    {
      var q := storage.mutations;
      names, groups := [], map[];
      for i := 0 to |q|
        invariant names == Collections(q[..i])
        invariant forall c :: c in groups <==> c in names
        invariant forall c | c in groups :: groups[c] == Queue.InCollection(q[..i], c)
        invariant forall c | c !in groups :: Queue.InCollection(q[..i], c) == []
      {
        assert q[..i + 1][..i] == q[..i];
        var c := q[i].key.collection;
        if c in groups {
          groups := groups[c := groups[c] + [q[i]]];
        } else {
          names, groups := names + [c], groups[c := [q[i]]];
        }
      }
      assert q[..|q|] == q;
    }

    method CheckSequenceMonotonicity() returns (issues: seq<Issue>)
      ensures issues == AllIssues(storage.mutations)
      ensures issues == [] <==> DistinctNumbers(storage.mutations) && Intervals(storage.mutations)
    {
      var names, groups := GroupByCollection();
      issues := [];
      for n := 0 to |names|
        invariant issues == IssuesIn(storage.mutations, names[..n])
      {
        assert names[..n + 1][..n] == names[..n];
        var collection := names[n];
        if |groups[collection]| >= 2 {
          var sorted := Queue.BySequence(groups[collection]);
          SortedCollection(storage.mutations, collection);
          var found := ScanSorted(collection, sorted);
          issues := issues + found;
        } else {
          SortedCollection(storage.mutations, collection);
        }
      }
      assert names[..|names|] == names;
      HealthyIff(storage.mutations);
    }

    method ScanSorted(collection: string, sorted: Mutations) returns (issues: seq<Issue>)
      requires |sorted| >= 1
      ensures issues == Scan(collection, sorted)
    {
      issues := [];
      for i := 1 to |sorted|
        invariant issues == Scan(collection, sorted[..i])
      {
        assert sorted[..i + 1][..i] == sorted[..i];
        var previous, current := sorted[i - 1], sorted[i];
        var found: seq<Issue> := [];
        if current.sequence <= previous.sequence {
          found := found + [NonMonotonic(collection, current.id, current.sequence, previous.sequence)];
        }
        if current.sequence > previous.sequence + 1 {
          found := found + [Gap(collection, previous.sequence + 1, current.sequence)];
        }
        issues := issues + found;
      }
      assert sorted[..|sorted|] == sorted;
    }

    /** Recovery walks the same lists and warns about gaps alone. */
    method CheckSequenceIntegrity() returns (warnings: seq<Issue>)
      ensures warnings == GapsAmong(AllIssues(storage.mutations))
      ensures |warnings| == |RunStarts(Slots(storage.mutations))| - |Collections(storage.mutations)|
      ensures warnings == [] <==> Intervals(storage.mutations)
    {
      var names, groups := GroupByCollection();
      warnings := [];
      for n := 0 to |names|
        invariant warnings == GapsAmong(IssuesIn(storage.mutations, names[..n]))
      {
        assert names[..n + 1][..n] == names[..n];
        var collection := names[n];
        var sorted := Queue.BySequence(groups[collection]);
        var found := GapsIn(collection, sorted);
        warnings := warnings + found;
        GapsAmongAppend(IssuesIn(storage.mutations, names[..n]), IssuesOf(storage.mutations, collection));
      }
      assert names[..|names|] == names;
      GapsAmongCount(AllIssues(storage.mutations));
      ReportCounts(storage.mutations);
      OneRunEach(storage.mutations);
    }

    method GapsIn(collection: string, sorted: Mutations) returns (gaps: seq<Issue>)
      ensures gaps == GapsAmong(Scan(collection, sorted))
    {
      gaps := [];
      if sorted == [] {
        return;
      }
      for i := 1 to |sorted|
        invariant gaps == GapsAmong(Scan(collection, sorted[..i]))
      {
        var expected := sorted[i - 1].sequence + 1;
        ScanGaps(collection, sorted[..i], sorted[i]);
        assert sorted[..i + 1] == sorted[..i] + [sorted[i]];
        if sorted[i].sequence > expected {
          gaps := gaps + [Gap(collection, expected, sorted[i].sequence)];
        }
      }
      assert sorted[..|sorted|] == sorted;
    }

    method BuildSummary(issues: seq<Issue>) returns (s: Summary)
      ensures s.critical == OfSeverity(issues, Critical) && s.high == OfSeverity(issues, High)
      ensures s.medium == OfSeverity(issues, Medium) && s.low == OfSeverity(issues, Low)
      ensures s.critical + s.high + s.medium + s.low == |issues|
    {
      var critical, high, medium, low := 0, 0, 0, 0;
      for i := 0 to |issues|
        invariant critical == OfSeverity(issues[..i], Critical) && high == OfSeverity(issues[..i], High)
        invariant medium == OfSeverity(issues[..i], Medium) && low == OfSeverity(issues[..i], Low)
        invariant critical + high + medium + low == i
      {
        assert issues[..i + 1][..i] == issues[..i];
        match SeverityOf(issues[i]) {
          case Critical => critical := critical + 1;
          case High => high := high + 1;
          case Medium => medium := medium + 1;
          case Low => low := low + 1;
        }
      }
      assert issues[..|issues|] == issues;
      s := Summary(critical, high, medium, low);
    }
  }

  lemma PairGaps(collection: string, previous: Queue.Mutation, current: Queue.Mutation)
    ensures GapsAmong(PairIssues(collection, previous, current)) ==
            if current.sequence > previous.sequence + 1 then [Gap(collection, previous.sequence + 1, current.sequence)] else []
  {
    if current.sequence <= previous.sequence {
      assert PairIssues(collection, previous, current) == [NonMonotonic(collection, current.id, current.sequence, previous.sequence)];
    } else if current.sequence > previous.sequence + 1 {
      assert PairIssues(collection, previous, current) == [Gap(collection, previous.sequence + 1, current.sequence)];
    }
  }

  lemma ScanGaps(collection: string, sorted: Mutations, m: Queue.Mutation)
    requires sorted != []
    ensures var expected := sorted[|sorted| - 1].sequence + 1;
            GapsAmong(Scan(collection, sorted + [m])) ==
            GapsAmong(Scan(collection, sorted)) + if m.sequence > expected then [Gap(collection, expected, m.sequence)] else []
  {
    assert (sorted + [m])[..|sorted|] == sorted;
    GapsAmongAppend(Scan(collection, sorted), PairIssues(collection, sorted[|sorted| - 1], m));
    PairGaps(collection, sorted[|sorted| - 1], m);
  }
}
