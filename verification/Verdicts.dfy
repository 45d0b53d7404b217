/** What the strategies decide, case by case, and what a round makes of it. */
module Verdicts {
  import opened Json
  import opened Protocol
  import opened ServerSpec
  import opened EngineSpec
  import opened EngineLaws
  import opened Rounds
  import opened Draining
  import opened RoundTrips
  import opened Strategies
  import DeepMerge
  import FieldOperations
  import ServerEffects
  import Queue

  // ----- Client-wins by operation

  /** A `set` takes the local entity's data if there is any, the mutation's value
      otherwise; neither the server's data nor the operation's field matters. */
  lemma ClientWinsOnSet(c: Context)
    requires c.operation.Set?
    ensures var data := Strategies.Resolve(ClientWins, c).data;
            if c.localEntity.Some? && c.localEntity.value.data != Null then data == c.localEntity.value.data else data == c.value
  {
  }

  /** A `patch` is merged into the server's data, an array as the record of its indices:
      where it names a value that one is found, merged if both are records, and elsewhere
      the server's. */
  lemma {:induction false} ClientWinsOnPatch(c: Context, p: DeepMerge.Path)
    requires c.operation.Patch? && !IsScalar(c.value) && c.conflict.serverEntity.data.Obj? && p != []
    ensures var theirs, ours: Object := c.conflict.serverEntity.data, Obj(Spread(c.value));
            var found := DeepMerge.At(Strategies.Resolve(ClientWins, c).data, p);
            && (DeepMerge.At(ours, p).Some? && !DeepMerge.ObjectAt(ours, p) ==> found == DeepMerge.At(ours, p))
            && (DeepMerge.Silent(ours, p) ==> found == DeepMerge.At(theirs, p))
            && (DeepMerge.ObjectAt(ours, p) ==> found.Some? && found.value.Obj?)
  {
    var ours: Object := Obj(Spread(c.value));
    DeepMerge.MergeAtPath(c.conflict.serverEntity.data, ours, p);
    if DeepMerge.Silent(ours, p) {
      SilentIsAbsent(ours, p);
    }
  }

  lemma {:induction false} SilentIsAbsent(v: Object, p: DeepMerge.Path)
    requires DeepMerge.Silent(v, p)
    ensures DeepMerge.At(v, p).None?
    decreases |p|
  {
    if p[0] in v.fields {
      SilentIsAbsent(v.fields[p[0]], p[1..]);
    }
  }

  /** An operation on a field is applied to the server's data: it changes that field
      alone, and the numbers add up; one the client does not know changes nothing. */
  lemma ClientWinsOnField(c: Context)
    requires c.field.Some? && !c.operation.Set? && (c.operation.Patch? ==> IsScalar(c.value))
    requires c.conflict.serverEntity.data.Obj?
    ensures var theirs, f := c.conflict.serverEntity.data, c.field.value;
            var data := Strategies.Resolve(ClientWins, c).data;
            && data.Obj? && (forall k | k != f :: Get(data.fields, k) == Get(theirs.fields, k))
            && (c.operation.Increment? ==>
                  Get(data.fields, f) == Some(Num(ServerEffects.NumberIn(theirs, f) + ServerEffects.Amount(c.value))))
            && (c.operation.Decrement? ==>
                  Get(data.fields, f) == Some(Num(ServerEffects.NumberIn(theirs, f) - ServerEffects.Amount(c.value))))
            && (!IsFieldOperation(c.operation) ==> Get(data.fields, f) == Get(theirs.fields, f))
  {
    ServerEffects.ClientFieldEffect(c.conflict.serverEntity.data, FieldOperations.FieldOp(c.field.value, c.operation, c.value));
  }

  /** Anything else without a field keeps the local data, or the server's if there is none. */
  lemma ClientWinsOtherwise(c: Context)
    requires c.field.None? && !c.operation.Set? && (c.operation.Patch? ==> IsScalar(c.value))
    ensures var data := Strategies.Resolve(ClientWins, c).data;
            if c.localEntity.Some? && c.localEntity.value.data != Null then data == c.localEntity.value.data
            else data == c.conflict.serverEntity.data
  {
  }

  // ----- Last-write-wins

  /** The local write is younger than the server's entity; an unreadable time is never
      younger. */
  predicate Younger(local: Stamp, server: Stamp) {
    match (local, server)
    case (Stamp(l), Stamp(s)) => s < l
    case _ => false
  }

  /** The client's side wins exactly if its write is younger, and then with what
      client-wins answers; otherwise the server's data stands. */
  lemma LastWriteWinsIff(c: Context)
    ensures var answer := Strategies.Resolve(LastWriteWins, c);
            && (answer.Resolved? && answer.outcome.CLIENT_WINS? <==> Younger(c.createdAt, c.conflict.serverEntity.updatedAt))
            && (answer.Resolved? && answer.outcome.SERVER_WINS? <==> !Younger(c.createdAt, c.conflict.serverEntity.updatedAt))
            && (answer.outcome.CLIENT_WINS? ==> answer == Strategies.Resolve(ClientWins, c))
            && (answer.outcome.SERVER_WINS? ==> answer.data == c.conflict.serverEntity.data)
  {
  }

  // ----- Any strategy

  /** Put together from the program's own strategies. */
  predicate BuiltIn(s: Strategy) {
    match s
    case FieldMerge(fallback) => BuiltIn(fallback)
    case OperationAware(a, b, d) => BuiltIn(a) && BuiltIn(b) && BuiltIn(d)
    case Custom(_) => false
    case _ => true
  }

  /** Whatever is put together, the outcome tells the data: the server's own, the
      answer of client-wins, or the operation applied to the server's data. */
  lemma {:induction false} OutcomeTellsData(s: Strategy, c: Context)
    requires BuiltIn(s) && Strategies.Resolve(s, c).Resolved?
    ensures var answer := Strategies.Resolve(s, c);
            && !answer.outcome.CUSTOM?
            && (answer.outcome.SERVER_WINS? ==> answer.data == c.conflict.serverEntity.data)
            && (answer.outcome.CLIENT_WINS? ==> answer == Strategies.Resolve(ClientWins, c))
            && (answer.outcome.MERGED? ==> c.field.Some? && IsFieldOperation(c.operation)
                                           && answer.data == Strategies.Resolve(ClientWins, c).data)
  {
    match s
    case FieldMerge(fallback) =>
      if !(c.field.Some? && IsFieldOperation(c.operation)) {
        OutcomeTellsData(fallback, c);
      }
    case OperationAware(commutative, nonCommutative, other) =>
      if c.field.Some? && IsFieldOperation(c.operation) {
        OutcomeTellsData(commutative, c);
      } else if c.operation.Set? || c.operation.Patch? {
        OutcomeTellsData(nonCommutative, c);
      } else {
        OutcomeTellsData(other, c);
      }
    case _ =>
  }

  /** The documented set-up: field operations are merged, records go by age. */
  lemma RecommendedSetup(c: Context, other: Strategy)
    ensures var answer := Strategies.Resolve(OperationAware(FieldMerge(ServerWins), LastWriteWins, other), c);
            && (c.field.Some? && (c.operation.Increment? || c.operation.Decrement? || c.operation.Add? || c.operation.Remove?) ==>
                  answer.Resolved? && answer.outcome.MERGED?)
            && (c.operation.Set? || c.operation.Patch? ==>
                  answer.Resolved? && answer.outcome == if Younger(c.createdAt, c.conflict.serverEntity.updatedAt) then CLIENT_WINS else SERVER_WINS)
  {
  }

  // ----- A round with last-write-wins

  function LastWriteWinsResolver(): Resolver {
    c => Strategies.Resolve(LastWriteWins, c)
  }

  /** The verdict on a conflicting `set`: the server's data unless the write is younger
      than the server's entity and the round brings no change of it. */
  function AgeVerdict(d: Disk, c: ConflictInfo, m: Mutation, changed: bool): Json {
    if !Younger(m.createdAt, c.serverEntity.updatedAt) || changed then c.serverEntity.data
    else if c.key in d.entities && d.entities[c.key].data != Null then d.entities[c.key].data
    else m.value
  }

  lemma LastWriteWinsVerdict(s: Server, d: Disk, settings: Settings, now: Stamp, c: ConflictInfo, m: Mutation)
    requires Ready(s, d) && now.Stamp?
    requires c in ResponseOf(s, d, settings, now).conflicts && m.operation.Set?
    ensures var local := Overlay(d.entities, ResponseOf(s, d, settings, now).changes);
            var answer := EngineSpec.Resolve(local, c, Some(m), Some(LastWriteWinsResolver()));
            && answer.Resolved? && answer.data == AgeVerdict(d, c, m, TouchedSince(ServerAfter(s, d, settings, now).history, d.cursor.n, c.key))
            && (answer.outcome.CLIENT_WINS? <==> Younger(m.createdAt, c.serverEntity.updatedAt))
  {
    var local := Overlay(d.entities, ResponseOf(s, d, settings, now).changes);
    ClientWinsVerdict(s, d, settings, now, c, m);
    LastWriteWinsIff(ContextOf(local, c, m));
  }

  /** A round with this resolver leaves that verdict in the replica and, as a pending
      `set`, in the mutation, for a `set` whose conflict is the only one on its entity. */
  lemma LastWriteWinsRound(s: Server, d: Disk, settings: Settings, now: Stamp, i: nat, j: nat)
    requires Ready(s, d) && now.Stamp? && settings.resolver == Some(LastWriteWinsResolver())
    requires i < |d.queue| && d.queue[i].operation.Set?
    requires var cs := ResponseOf(s, d, settings, now).conflicts;
             && j < |cs| && cs[j].mutationId == d.queue[i].id
             && (forall l | 0 <= l < |cs| && l != j :: cs[l].key != cs[j].key)
    ensures var c := ResponseOf(s, d, settings, now).conflicts[j];
            var changed := TouchedSince(ServerAfter(s, d, settings, now).history, d.cursor.n, c.key);
            Landed(d, DiskAfter(s, d, settings, now), i, c, AgeVerdict(d, c, d.queue[i], changed), now)
  {
    LastWriteWinsVerdict(s, d, settings, now, ResponseOf(s, d, settings, now).conflicts[j], d.queue[i]);
    ResolutionLands(s, d, settings, now, i, j);
  }

  /** So the younger write survives exactly if the client had already seen the server's
      entity, or wrote the same data: a change that the round itself brings has replaced
      the local data by the time the strategy looks. */
  lemma YoungerWriteSurvivesIff(s: Server, d: Disk, settings: Settings, now: Stamp, i: nat, j: nat)
    requires Ready(s, d) && now.Stamp? && settings.resolver == Some(LastWriteWinsResolver())
    requires i < |d.queue| && d.queue[i].operation.Set?
    requires d.queue[i].key in d.entities && d.entities[d.queue[i].key].data == d.queue[i].value != Null
    requires var cs := ResponseOf(s, d, settings, now).conflicts;
             && j < |cs| && cs[j].mutationId == d.queue[i].id && cs[j].key == d.queue[i].key
             && (forall l | 0 <= l < |cs| && l != j :: cs[l].key != cs[j].key)
             && Younger(d.queue[i].createdAt, cs[j].serverEntity.updatedAt)
    ensures var after := DiskAfter(s, d, settings, now);
            i < |after.queue| &&
            (after.queue[i].value == d.queue[i].value <==>
             !TouchedSince(ServerAfter(s, d, settings, now).history, d.cursor.n, d.queue[i].key)
             || ResponseOf(s, d, settings, now).conflicts[j].serverEntity.data == d.queue[i].value)
  {
    LastWriteWinsRound(s, d, settings, now, i, j);
  }
}
