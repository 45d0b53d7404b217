/** The conflict resolution manager as an object, proved against Strategies. */
module ConflictManager {
  import opened Json
  import opened Protocol
  import opened Strategies

  class ConflictResolutionManager {
    const defaultResolver: Strategy
    const fallbackChain: seq<Strategy>
    var collectionStrategies: map<string, Strategy>
    var strategies: map<string, Strategy>

    ghost function State(): Manager
      reads this
    {
      Manager(defaultResolver, collectionStrategies, fallbackChain)
    }

    constructor (defaultStrategy: Strategy, collectionStrategies: map<string, Strategy>, fallbackChain: seq<Strategy>)
      ensures State() == Manager(defaultStrategy, collectionStrategies, fallbackChain) && strategies == map[]
    {
      defaultResolver, this.fallbackChain := defaultStrategy, fallbackChain;
      this.collectionStrategies, strategies := collectionStrategies, map[];
    }

    /** The collection's own strategy or the default, then the chain until one answers. */
    method Resolve(c: Context) returns (resolution: Resolution)
      ensures resolution == Manage(State(), c)
    {
      var name := c.conflict.key.collection;
      var primary := if name in collectionStrategies then collectionStrategies[name] else defaultResolver;
      var result := Strategies.Resolve(primary, c);
      if result.Resolved? {
        return result;
      }
      for i := 0 to |fallbackChain|
        invariant FirstResolved(fallbackChain, c) == FirstResolved(fallbackChain[i..], c)
      {
        var fallback := Strategies.Resolve(fallbackChain[i], c);
        assert fallbackChain[i..][1..] == fallbackChain[i + 1..];
        if fallback.Resolved? {
          return fallback;
        }
      }
      return result;
    }

    /** From now on the collection is resolved by this strategy, every other as before. */
    method SetCollectionStrategy(collection: string, strategy: Strategy)
      modifies this`collectionStrategies
      ensures State() == old(State()).(collectionStrategies := old(collectionStrategies)[collection := strategy])
      ensures forall c: Context :: Primary(State(), c) ==
                if c.conflict.key.collection == collection then strategy else Primary(old(State()), c)
    {
      collectionStrategies := collectionStrategies[collection := strategy];
    }

    /** Registering by name is remembered and changes no resolution. */
    method RegisterStrategy(name: string, strategy: Strategy)
      modifies this`strategies
      ensures strategies == old(strategies)[name := strategy] && State() == old(State())
    {
      strategies := strategies[name := strategy];
    }
  }
}
