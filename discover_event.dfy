/**
 The composite discover-event channel and the accessor that builds it once.

 CompositeDiscoverChannel keeps the two fields of the Go struct (the chain
 of live sinks and the entries it was built from) and three ghost
 traces that record, in order, the calls it makes on its sinks. Initialize
 and Destroy are proved against Resolve and TearDown of PluginModel, whose
 properties are proved there; PublishEvent's contract gives the new delivery
 trace directly.
 */
module DiscoverEvent {
  import opened PluginModel

  /** One PublishEvent call on a sink: the sink and the event handed to it. */
  datatype Delivery<E> = Delivery(id: ChannelId, event: E)

  class CompositeDiscoverChannel<E> {
    var chain: seq<ChannelId>
    var options: seq<ConfigEntry>
    /** Initialize calls made on sinks, in order. */
    ghost var initialised: seq<Binding>
    /** Destroy calls made on sinks, in order. */
    ghost var destroyed: seq<ChannelId>
    /** PublishEvent calls made on sinks, in order. */
    ghost var delivered: seq<Delivery<E>>

    /** A new composite holds the given entries and an empty chain, and has
        made no call on any sink. */
    constructor (options: seq<ConfigEntry>)
      ensures this.options == options && chain == []
      ensures initialised == [] && destroyed == [] && delivered == []
    {
      this.options := options;
      chain := [];
      initialised := [];
      destroyed := [];
      delivered := [];
    }

    /** The composite's fixed diagnostic name. */
    function Name(): (n: string)
      ensures n == "CompositeDiscoverChannel"
    {
      "CompositeDiscoverChannel"
    }

    /** Resolves every entry against the plugin set, in entry order: an absent
        name or a plugin that is not a DiscoverChannel is skipped; a compatible
        sink is initialised with its own entry and appended to the chain; the
        first failing sink ends the walk and its error is returned. */
    method Initialize(plugins: map<string, PluginItem>, init: (ChannelId, ConfigEntry) -> Outcome)
      returns (err: Outcome)
      modifies this`chain, this`initialised
      ensures err == Resolve(options, plugins, init).outcome
      ensures chain == old(chain) + Resolve(options, plugins, init).chain
      ensures initialised == old(initialised) + Resolve(options, plugins, init).inits
    {
      for i := 0 to |options|
        invariant Resolve(options[..i], plugins, init).outcome.Pass?
        invariant chain == old(chain) + Resolve(options[..i], plugins, init).chain
        invariant initialised == old(initialised) + Resolve(options[..i], plugins, init).inits
      {
        var entry := options[i];
        if entry.name !in plugins {
          ResolvePrefixSkip(options, i, plugins, init);
          continue;
        }
        var item := plugins[entry.name];
        if !item.DiscoverChannel? {
          ResolvePrefixSkip(options, i, plugins, init);
          continue;
        }
        var outcome := init(item.id, entry);
        initialised := initialised + [Binding(item.id, entry)];
        if outcome.Fail? {
          ResolvePrefixAbort(options, i, plugins, init);
          return outcome;
        }
        ResolvePrefixTake(options, i, plugins, init);
        chain := chain + [item.id];
      }
      assert options[..|options|] == options;
      return Pass;
    }

    /** Destroys the chain members in chain order and returns the first error;
        members after the failing one are not destroyed. */
    method Destroy(destroy: ChannelId -> Outcome) returns (err: Outcome)
      modifies this`destroyed
      ensures err == TearDown(chain, destroy).outcome
      ensures destroyed == old(destroyed) + TearDown(chain, destroy).destroyed
    {
      for i := 0 to |chain|
        invariant destroyed == old(destroyed) + chain[..i]
        invariant forall j :: 0 <= j < i ==> destroy(chain[j]).Pass?
      {
        var outcome := destroy(chain[i]);
        destroyed := destroyed + [chain[i]];
        assert chain[..i + 1] == chain[..i] + [chain[i]];
        if outcome.Fail? {
          TearDownStopsAtFirstError(chain, destroy, i);
          return outcome;
        }
      }
      assert chain[..|chain|] == chain;
      TearDownPassIff(chain, destroy);
      return Pass;
    }

    /** Hands the event to every chain member exactly once, in chain order. */
    method PublishEvent(event: E)
      modifies this`delivered
      ensures |delivered| == |old(delivered)| + |chain|
      ensures delivered[..|old(delivered)|] == old(delivered)
      ensures forall i :: 0 <= i < |chain| ==> delivered[|old(delivered)| + i] == Delivery(chain[i], event)
    {
      for i := 0 to |chain|
        invariant |delivered| == |old(delivered)| + i
        invariant delivered[..|old(delivered)|] == old(delivered)
        invariant forall j :: 0 <= j < i ==> delivered[|old(delivered)| + j] == Delivery(chain[j], event)
      {
        delivered := delivered + [Delivery(chain[i], event)];
      }
    }
  }

  /** The result of asking for the process-wide channel: the channel, or the
      process exit that a failed start-up causes. */
  datatype Startup<E> = Ready(channel: CompositeDiscoverChannel<E>) | Exit(code: int, cause: string)

  /** The package-level state behind GetDiscoverEvent: the memoised composite,
      and whether its start-up failed and ended the process. */
  class DiscoverEventSingleton<E> {
    var instance: CompositeDiscoverChannel?<E>
    var exited: bool

    constructor ()
      ensures instance == null && !exited
    {
      instance := null;
      exited := false;
    }

    /** Returns the memoised composite when there is one. Otherwise builds it
        from the normalised entries, initialises it against the plugin set and
        memoises it; a failed initialisation ends the process with status -1. */
    method GetDiscoverEvent(cfg: DiscoverEventConfig, plugins: map<string, PluginItem>,
                            init: (ChannelId, ConfigEntry) -> Outcome) returns (s: Startup<E>)
      requires !exited
      modifies this
      ensures old(instance) != null ==> instance == old(instance) && !exited && s == Ready(instance)
      ensures old(instance) == null ==>
                var r := Resolve(NormalizeEntries(cfg), plugins, init);
                && instance != null && fresh(instance)
                && instance.options == NormalizeEntries(cfg)
                && instance.chain == r.chain && instance.initialised == r.inits
                && instance.destroyed == [] && instance.delivered == []
                && exited == r.outcome.Fail?
                && s == (if r.outcome.Fail? then Exit(-1, r.outcome.error) else Ready(instance))
    {
      if instance != null {
        return Ready(instance);
      }
      var entries := NormalizeEntries(cfg);
      var c := new CompositeDiscoverChannel<E>(entries);
      instance := c;
      var err := c.Initialize(plugins, init);
      if err.Fail? {
        exited := true;
        return Exit(-1, err.error);
      }
      return Ready(c);
    }
  }
}
