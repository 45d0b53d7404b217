/** The conflict strategies and the manager that routes conflicts to them. */
module Strategies {
  import opened Json
  import opened Protocol
  import DeepMerge
  import FieldOperations
  import ServerSpec

  datatype Context = Context(
    conflict: ConflictInfo, operation: Operation, field: Option<string>, value: Json,
    createdAt: Stamp, localEntity: Option<Entity>)

  datatype Side = SERVER_WINS | CLIENT_WINS | MERGED | CUSTOM

  datatype Resolution = Unresolved | Resolved(outcome: Side, data: Json)

  datatype Strategy =
    | ServerWins
    | ClientWins
    | LastWriteWins
    | Manual
    | FieldMerge(fallback: Strategy)
    | OperationAware(commutative: Strategy, nonCommutative: Strategy, other: Strategy)
    | Custom(decide: Context -> Resolution)

  predicate IsFieldOperation(op: Operation) {
    op.Increment? || op.Decrement? || op.Add? || op.Remove?
  }

  /** `localEntity?.data ?? otherwise` */
  function LocalDataOr(c: Context, otherwise: Json): Json {
    match c.localEntity
    case Some(e) => if e.data.Null? then otherwise else e.data
    case None => otherwise
  }

  function OnServerData(c: Context): Json
    requires c.field.Some?
  {
    FieldOperations.ApplyFieldOperation(
      c.conflict.serverEntity.data, FieldOperations.FieldOp(c.field.value, c.operation, c.value))
  }

  function ClientData(c: Context): Json {
    var serverData := c.conflict.serverEntity.data;
    if c.operation.Set? then LocalDataOr(c, c.value)
    else if c.operation.Patch? && (c.value.Obj? || c.value.Arr?) then
      DeepMerge.Merge(Obj(SpreadObject(serverData)), Obj(SpreadObject(c.value)))
    else if c.field.Some? then OnServerData(c)
    else LocalDataOr(c, serverData)
  }

  /** A blank timestamp parses to NaN and is never the newer one. */
  predicate LocalIsNewer(c: Context) {
    var serverTime := c.conflict.serverEntity.updatedAt;
    c.createdAt.Stamp? && serverTime.Stamp? && c.createdAt.time > serverTime.time
  }

  function Resolve(s: Strategy, c: Context): Resolution {
    match s
    case ServerWins => Resolved(SERVER_WINS, c.conflict.serverEntity.data)
    case ClientWins => Resolved(CLIENT_WINS, ClientData(c))
    case LastWriteWins =>
      if LocalIsNewer(c) then Resolved(CLIENT_WINS, ClientData(c))
      else Resolved(SERVER_WINS, c.conflict.serverEntity.data)
    case Manual => Unresolved
    case FieldMerge(fallback) =>
      if c.field.Some? && IsFieldOperation(c.operation) then Resolved(MERGED, OnServerData(c))
      else Resolve(fallback, c)
    case OperationAware(commutative, nonCommutative, other) =>
      if c.field.Some? && IsFieldOperation(c.operation) then Resolve(commutative, c)
      else if c.operation.Set? || c.operation.Patch? then Resolve(nonCommutative, c)
      else Resolve(other, c)
    case Custom(decide) => decide(c)
  }

  // ----- The manager

  datatype Manager = Manager(
    defaultStrategy: Strategy, collectionStrategies: map<string, Strategy>, fallbackChain: seq<Strategy>)

  function Primary(m: Manager, c: Context): Strategy {
    var name := c.conflict.key.collection;
    if name in m.collectionStrategies then m.collectionStrategies[name] else m.defaultStrategy
  }

  function FirstResolved(chain: seq<Strategy>, c: Context): Resolution
    decreases |chain|
  {
    if chain == [] then Unresolved
    else if Resolve(chain[0], c).Resolved? then Resolve(chain[0], c)
    else FirstResolved(chain[1..], c)
  }

  function Manage(m: Manager, c: Context): Resolution {
    var first := Resolve(Primary(m, c), c);
    if first.Resolved? then first else FirstResolved(m.fallbackChain, c)
  }

  /** The strategies in the order in which they are asked. */
  function Asked(m: Manager, c: Context): seq<Strategy> {
    var name := c.conflict.key.collection;
    (if name in m.collectionStrategies then [m.collectionStrategies[name]] else [m.defaultStrategy]) + m.fallbackChain
  }

  /** The manager's answer is that of the first strategy that has one; it has none
      exactly when no strategy has. */
  lemma {:induction false} ManagerTakesFirstAnswer(m: Manager, c: Context)
    ensures Manage(m, c).Unresolved? <==> forall s | s in Asked(m, c) :: Resolve(s, c).Unresolved?
    ensures Manage(m, c).Resolved? ==>
              exists i :: 0 <= i < |Asked(m, c)| && Manage(m, c) == Resolve(Asked(m, c)[i], c)
                && forall j | 0 <= j < i :: Resolve(Asked(m, c)[j], c).Unresolved?
  {
    var asked := Asked(m, c);
    assert asked[0] == Primary(m, c) && asked[1..] == m.fallbackChain;
    if Resolve(asked[0], c).Resolved? {
      assert asked[0] in asked;
    } else {
      FirstInChain(m.fallbackChain, c);
      if Manage(m, c).Resolved? {
        var i :| 0 <= i < |m.fallbackChain| && Manage(m, c) == Resolve(m.fallbackChain[i], c)
          && forall j | 0 <= j < i :: Resolve(m.fallbackChain[j], c).Unresolved?;
        assert Manage(m, c) == Resolve(asked[i + 1], c);
        assert forall j | 0 <= j < i + 1 :: asked[j] == if j == 0 then asked[0] else m.fallbackChain[j - 1];
      }
    }
  }

  lemma {:induction false} FirstInChain(chain: seq<Strategy>, c: Context)
    ensures FirstResolved(chain, c).Unresolved? <==> forall s | s in chain :: Resolve(s, c).Unresolved?
    ensures FirstResolved(chain, c).Resolved? ==>
              exists i :: 0 <= i < |chain| && FirstResolved(chain, c) == Resolve(chain[i], c)
                && forall j | 0 <= j < i :: Resolve(chain[j], c).Unresolved?
    decreases |chain|
  {
    if chain != [] {
      assert chain[0] in chain && chain == [chain[0]] + chain[1..];
    }
    if chain != [] && Resolve(chain[0], c).Unresolved? {
      FirstInChain(chain[1..], c);
      if FirstResolved(chain[1..], c).Resolved? {
        var i :| 0 <= i < |chain[1..]| && FirstResolved(chain[1..], c) == Resolve(chain[1..][i], c)
          && forall j | 0 <= j < i :: Resolve(chain[1..][j], c).Unresolved?;
        assert chain[1..][i] == chain[i + 1];
        assert forall j | 0 < j < i + 1 :: chain[j] == chain[1..][j - 1];
      }
    }
  }

  /** Built from strategies none of which defers to a person. */
  predicate NeverManual(s: Strategy) {
    match s
    case Manual => false
    case FieldMerge(fallback) => NeverManual(fallback)
    case OperationAware(a, b, d) => NeverManual(a) && NeverManual(b) && NeverManual(d)
    case Custom(_) => false
    case _ => true
  }

  lemma {:induction false} NeverManualResolves(s: Strategy, c: Context)
    requires NeverManual(s)
    ensures Resolve(s, c).Resolved?
  {
    match s
    case FieldMerge(fallback) => NeverManualResolves(fallback, c);
    case OperationAware(a, b, d) =>
      NeverManualResolves(a, c);
      NeverManualResolves(b, c);
      NeverManualResolves(d, c);
    case _ =>
  }

  /** The client's merge of a field operation is what the server itself would have
      made of the mutation, except that the client's add is a set insertion and
      its remove leaves an array behind. */
  lemma FieldMergeMatchesServer(c: Context, m: ProtocolMutation)
    requires c.field.Some? && IsFieldOperation(c.operation) && c.conflict.serverEntity.data.Obj?
    requires m.operation == c.operation && m.field == c.field && m.value == c.value
    ensures var data := c.conflict.serverEntity.data;
            var current := Get(data.fields, c.field.value);
            Resolve(FieldMerge(ServerWins), c).data == ServerSpec.NewData(data, m) <==>
            (c.operation.Add? ==> !FieldOperations.Includes(FieldOperations.ItemsOrEmpty(current), c.value)) &&
            (c.operation.Remove? ==> current.Some? && current.value.Arr?)
  {
    var data := c.conflict.serverEntity.data;
    var f := c.field.value;
    var ours, theirs := OnServerData(c), ServerSpec.NewData(data, m);
    assert ours.Obj? && theirs.Obj?;
    if ours != theirs {
      assert ours.fields != theirs.fields;
    }
    if c.operation.Add? {
      assert |theirs.fields[f].items| == |FieldOperations.ItemsOrEmpty(Get(data.fields, f))| + 1;
    }
  }
}
