/** The recursive merge behind the client-wins strategy. `Merge` is the meaning
    of the merge on two objects; `MergeDeep` is the loop. */
module DeepMerge {
  import opened Json

  type Path = seq<string>

  function Merge(base: Object, source: Object): Object
    decreases source
  {
    Obj(map k | k in base.fields.Keys + source.fields.Keys :: MergedField(base, source, k))
  }

  function MergedField(base: Object, source: Object, k: string): Json
    requires k in base.fields.Keys + source.fields.Keys
    decreases source, 0
  {
    if k !in source.fields then base.fields[k]
    else if k in base.fields && base.fields[k].Obj? && source.fields[k].Obj?
    then Merge(base.fields[k], source.fields[k])
    else source.fields[k]
  }

  /** A fresh copy of the base, overwritten entry by entry in
      whatever order the entries come. */
  method MergeDeep(base: Json, source: Object) returns (result: Object)
    ensures result == Merge(Obj(SpreadObject(base)), source)
    decreases source
  {
    var start: Object := Obj(SpreadObject(base));
    result := start;
    var todo := source.fields.Keys;
    while todo != {}
      invariant todo <= source.fields.Keys
      invariant result.fields.Keys == start.fields.Keys + (source.fields.Keys - todo)
      invariant forall k | k in result.fields ::
        result.fields[k] == if k in todo || k !in source.fields then start.fields[k]
                            else MergedField(start, source, k)
    {
      var key :| key in todo;
      var value := source.fields[key];
      if value.Obj? && key in result.fields && result.fields[key].Obj? {
        var merged := MergeDeep(result.fields[key], value);
        result := Obj(result.fields[key := merged]);
      } else {
        result := Obj(result.fields[key := value]);
      }
      todo := todo - {key};
    }
  }

  // ----- Reading a document along a path

  function At(v: Json, p: Path): Option<Json> {
    if p == [] then Some(v)
    else if v.Obj? && p[0] in v.fields then At(v.fields[p[0]], p[1..])
    else None
  }

  predicate ObjectAt(v: Json, p: Path) {
    At(v, p).Some? && At(v, p).value.Obj?
  }

  /** The document says nothing about the path: no proper prefix holds a
      non-object and nothing is stored at the path itself. */
  predicate Silent(v: Object, p: Path)
    decreases |p|
  {
    p != [] && (p[0] in v.fields ==>
      |p| > 1 && v.fields[p[0]].Obj? && Silent(v.fields[p[0]], p[1..]))
  }

  /** What every path of a merged document holds: the source's value where the
      source has one (merged with the base's if both are objects), the base's
      where the source is silent, nothing elsewhere. */
  lemma {:induction false} MergeAtPath(a: Object, b: Object, p: Path)
    requires p != []
    ensures At(Merge(a, b), p) ==
            if At(b, p).None? then (if Silent(b, p) then At(a, p) else None)
            else if ObjectAt(b, p) && ObjectAt(a, p) then Some(Merge(At(a, p).value, At(b, p).value))
            else At(b, p)
    decreases |p|
  {
    var k, rest := p[0], p[1..];
    var m := Merge(a, b);
    if k in a.fields.Keys + b.fields.Keys {
      assert At(m, p) == At(MergedField(a, b, k), rest);
      assert k in a.fields ==> At(a, p) == At(a.fields[k], rest);
      assert k in b.fields ==> At(b, p) == At(b.fields[k], rest);
      if k in a.fields && k in b.fields && a.fields[k].Obj? && b.fields[k].Obj? && rest != [] {
        MergeAtPath(a.fields[k], b.fields[k], rest);
      }
    }
  }

  // ----- Idempotence and absorption

  /** Every key of `a` is present in `c`, at every level where both are objects. */
  predicate Covers(c: Object, a: Object)
    decreases a
  {
    forall k | k in a.fields ::
      k in c.fields && (a.fields[k].Obj? && c.fields[k].Obj? ==> Covers(c.fields[k], a.fields[k]))
  }

  lemma {:induction false} CoversSelf(a: Object)
    ensures Covers(a, a)
    decreases a
  {
    forall k | k in a.fields && a.fields[k].Obj? ensures Covers(a.fields[k], a.fields[k]) {
      CoversSelf(a.fields[k]);
    }
  }

  /** Merging leaves the source as it is exactly when the source covers the base. */
  lemma {:induction false} MergeAbsorbs(a: Object, c: Object)
    ensures Merge(a, c) == c <==> Covers(c, a)
    decreases a
  {
    forall k | k in a.fields && k in c.fields && a.fields[k].Obj? && c.fields[k].Obj?
      ensures Merge(a.fields[k], c.fields[k]) == c.fields[k] <==> Covers(c.fields[k], a.fields[k])
    {
      MergeAbsorbs(a.fields[k], c.fields[k]);
    }
    var m := Merge(a, c);
    if m == c {
      forall k | k in a.fields ensures k in c.fields {
        assert k in m.fields;
      }
      forall k | k in a.fields && a.fields[k].Obj? && c.fields[k].Obj?
        ensures Merge(a.fields[k], c.fields[k]) == c.fields[k]
      {
        assert m.fields[k] == MergedField(a, c, k);
      }
    }
    if Covers(c, a) {
      assert m.fields.Keys == c.fields.Keys;
      forall k | k in c.fields ensures m.fields[k] == c.fields[k] {
        assert m.fields[k] == MergedField(a, c, k);
      }
      assert m.fields == c.fields;
    }
  }

  /** Applying the same source twice changes nothing more. */
  lemma {:induction false} MergeIdempotent(a: Object, b: Object)
    ensures Merge(Merge(a, b), b) == Merge(a, b)
    ensures Merge(a, a) == a
    decreases b
  {
    CoversSelf(a);
    MergeAbsorbs(a, a);
    var m := Merge(a, b);
    forall k | k in m.fields ensures MergedField(m, b, k) == m.fields[k] {
      assert m.fields[k] == MergedField(a, b, k);
      if k in b.fields && m.fields[k].Obj? && b.fields[k].Obj? {
        if k in a.fields && a.fields[k].Obj? {
          MergeIdempotent(a.fields[k], b.fields[k]);
        } else {
          CoversSelf(b.fields[k]);
          MergeAbsorbs(b.fields[k], b.fields[k]);
        }
      }
    }
    assert Merge(m, b).fields == m.fields;
  }

  // ----- Associativity, and exactly when it fails

  /** No value of `a` that `b` has overwritten by a non-object comes back when
      `c` puts an object there again. */
  predicate NoResurrection(a: Object, b: Object, c: Object)
    decreases b
  {
    forall k | k in a.fields && k in b.fields && k in c.fields && a.fields[k].Obj? && c.fields[k].Obj? ::
      if b.fields[k].Obj? then NoResurrection(a.fields[k], b.fields[k], c.fields[k])
      else Covers(c.fields[k], a.fields[k])
  }

  predicate AssociatesAt(a: Object, b: Object, c: Object, k: string)
    requires k in a.fields.Keys + b.fields.Keys + c.fields.Keys
  {
    MergedField(Merge(a, b), c, k) == MergedField(a, Merge(b, c), k)
  }

  lemma {:induction false} AssociativeByField(a: Object, b: Object, c: Object)
    ensures Merge(Merge(a, b), c) == Merge(a, Merge(b, c)) <==>
            forall k | k in a.fields.Keys + b.fields.Keys + c.fields.Keys :: AssociatesAt(a, b, c, k)
  {
    var l, r := Merge(Merge(a, b), c), Merge(a, Merge(b, c));
    var keys := a.fields.Keys + b.fields.Keys + c.fields.Keys;
    assert l.fields.Keys == keys && r.fields.Keys == keys;
    assert forall k | k in keys :: l.fields[k] == MergedField(Merge(a, b), c, k);
    assert forall k | k in keys :: r.fields[k] == MergedField(a, Merge(b, c), k);
    if forall k | k in keys :: AssociatesAt(a, b, c, k) {
      assert l.fields == r.fields;
    }
    if l == r {
      forall k | k in keys ensures AssociatesAt(a, b, c, k) {
        assert l.fields[k] == r.fields[k];
      }
    }
  }

  lemma {:induction false} MergeAssociative(a: Object, b: Object, c: Object)
    ensures Merge(Merge(a, b), c) == Merge(a, Merge(b, c)) <==> NoResurrection(a, b, c)
    decreases b
  {
    AssociativeByField(a, b, c);
    forall k | k in a.fields.Keys + b.fields.Keys + c.fields.Keys
      ensures AssociatesAt(a, b, c, k) <==>
              (k in a.fields && k in b.fields && k in c.fields && a.fields[k].Obj? && c.fields[k].Obj? ==>
                 if b.fields[k].Obj? then NoResurrection(a.fields[k], b.fields[k], c.fields[k])
                 else Covers(c.fields[k], a.fields[k]))
    {
      if k in a.fields && k in b.fields && k in c.fields && a.fields[k].Obj? && c.fields[k].Obj? {
        if b.fields[k].Obj? {
          MergeAssociative(a.fields[k], b.fields[k], c.fields[k]);
        } else {
          MergeAbsorbs(a.fields[k], c.fields[k]);
        }
      }
    }
  }

  /** The failure, read along one path `p`: `a` has a value at `p`, `b` holds a
      non-object at the prefix of length `n`, and `c` has objects all the way
      down but no entry at `p`. */
  predicate Resurrects(a: Object, b: Object, c: Object, p: Path, n: nat) {
    && 0 < n < |p|
    && At(a, p).Some?
    && At(b, p[..n]).Some? && !At(b, p[..n]).value.Obj?
    && ObjectAt(c, p[..|p| - 1]) && At(c, p).None?
  }

  predicate Uncovered(c: Object, a: Object, p: Path) {
    p != [] && At(a, p).Some? && ObjectAt(c, p[..|p| - 1]) && At(c, p).None?
  }

  lemma {:induction false} CoversAlongPaths(c: Object, a: Object)
    ensures Covers(c, a) <==> forall p: Path :: !Uncovered(c, a, p)
    decreases a
  {
    if !Covers(c, a) {
      var k :| k in a.fields &&
        !(k in c.fields && (a.fields[k].Obj? && c.fields[k].Obj? ==> Covers(c.fields[k], a.fields[k])));
      if k !in c.fields {
        UncoveredStep(c, a, k, []);
        assert Uncovered(c, a, [k]);
      } else {
        CoversAlongPaths(c.fields[k], a.fields[k]);
        var q: Path :| Uncovered(c.fields[k], a.fields[k], q);
        UncoveredStep(c, a, k, q);
        assert Uncovered(c, a, [k] + q);
      }
    }
    forall p: Path | Covers(c, a) && Uncovered(c, a, p) ensures false {
      var k, q := p[0], p[1..];
      assert p == [k] + q;
      UncoveredStep(c, a, k, q);
      if q != [] {
        CoversAlongPaths(c.fields[k], a.fields[k]);
      }
    }
  }

  lemma UncoveredStep(c: Object, a: Object, k: string, q: Path)
    ensures Uncovered(c, a, [k] + q) <==>
            k in a.fields &&
            if q == [] then k !in c.fields
            else a.fields[k].Obj? && k in c.fields && c.fields[k].Obj? && Uncovered(c.fields[k], a.fields[k], q)
  {
    var p := [k] + q;
    assert p[..|p|] == p && q[..|q|] == q && p[1..] == q;
    Descend(a, p, |p|);
    Descend(c, p, |p|);
    if q != [] {
      Descend(c, p, |p| - 1);
      assert q[..|q| - 1] == p[1..][..|p| - 2];
    } else {
      assert p[..0] == [];
    }
  }

  /** Reading below the first key, for a prefix of the path. */
  lemma Descend(v: Json, p: Path, n: nat)
    requires 0 < n <= |p|
    ensures At(v, p[..n]) ==
            if v.Obj? && p[0] in v.fields then At(v.fields[p[0]], p[1..][..n - 1]) else None
  {
    assert p[..n][0] == p[0] && p[..n][1..] == p[1..][..n - 1];
  }

  /** Deep merge is associative exactly when no path resurrects a value. */
  lemma {:induction false} ResurrectionAlongPaths(a: Object, b: Object, c: Object)
    ensures NoResurrection(a, b, c) <==> forall p: Path, n: nat :: !Resurrects(a, b, c, p, n)
    decreases b
  {
    if !NoResurrection(a, b, c) {
      var k :| k in a.fields && k in b.fields && k in c.fields && a.fields[k].Obj? && c.fields[k].Obj? &&
        !(if b.fields[k].Obj? then NoResurrection(a.fields[k], b.fields[k], c.fields[k])
          else Covers(c.fields[k], a.fields[k]));
      if b.fields[k].Obj? {
        ResurrectionAlongPaths(a.fields[k], b.fields[k], c.fields[k]);
        var q: Path, n: nat :| Resurrects(a.fields[k], b.fields[k], c.fields[k], q, n);
        ResurrectsStep(a, b, c, k, q, n + 1);
        assert Resurrects(a, b, c, [k] + q, n + 1);
      } else {
        CoversAlongPaths(c.fields[k], a.fields[k]);
        var q: Path :| Uncovered(c.fields[k], a.fields[k], q);
        ResurrectsStep(a, b, c, k, q, 1);
        assert Resurrects(a, b, c, [k] + q, 1);
      }
    }
    forall p: Path, n: nat | NoResurrection(a, b, c) && Resurrects(a, b, c, p, n) ensures false {
      NoResurrectionBlocks(a, b, c, p, n);
    }
  }

  lemma ResurrectsStep(a: Object, b: Object, c: Object, k: string, q: Path, n: nat)
    ensures Resurrects(a, b, c, [k] + q, n) <==>
            q != [] && 0 < n <= |q| &&
            k in a.fields && k in b.fields && k in c.fields && a.fields[k].Obj? && c.fields[k].Obj? &&
            if n == 1 then !b.fields[k].Obj? && Uncovered(c.fields[k], a.fields[k], q)
            else b.fields[k].Obj? && Resurrects(a.fields[k], b.fields[k], c.fields[k], q, n - 1)
  {
    UncoveredStep(c, a, k, q);
    var p := [k] + q;
    if 0 < n <= |q| {
      Descend(b, p, n);
      assert p[1..][..n - 1] == q[..n - 1];
    }
  }

  lemma {:induction false} NoResurrectionBlocks(a: Object, b: Object, c: Object, p: Path, n: nat)
    requires NoResurrection(a, b, c)
    ensures !Resurrects(a, b, c, p, n)
    decreases |p|
  {
    if Resurrects(a, b, c, p, n) {
      var k, q := p[0], p[1..];
      assert p == [k] + q;
      ResurrectsStep(a, b, c, k, q, n);
      if n == 1 {
        CoversAlongPaths(c.fields[k], a.fields[k]);
      } else {
        NoResurrectionBlocks(a.fields[k], b.fields[k], c.fields[k], q, n - 1);
      }
    }
  }
}
