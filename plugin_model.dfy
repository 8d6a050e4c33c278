/**
 The values behind the composite discover-event channel: configuration
 entries, the plugin set they are resolved against, and the two reference
 definitions that Initialize and Destroy are proved against:

 - Resolve:  what CompositeDiscoverChannel.Initialize does to a list of
             entries (which sinks it initialises, with which entry, which
             ones it keeps, and which error it returns);
 - TearDown: what CompositeDiscoverChannel.Destroy does to a chain.

 Sinks are foreign code. Their Initialize and Destroy results are supplied
 by the caller as total functions (init, destroy), so every lemma below
 holds for every sink whose Initialize result depends only on the sink and
 its entry and whose Destroy result depends only on the sink.
 */
module PluginModel {

  /** A plugin's configuration record: its name and its plugin-specific options. */
  datatype ConfigEntry = ConfigEntry(name: string, option: map<string, string>)

  /** The discover-event section of the server configuration: a single entry
      (the embedded ConfigEntry) and an optional list of entries. */
  datatype DiscoverEventConfig = DiscoverEventConfig(entry: ConfigEntry, entries: seq<ConfigEntry>)

  /** The identity of a discover-event sink instance (the plugin object the chain refers to). */
  type ChannelId = string

  /** What the plugin set holds under a name: a plugin of some other kind, or a
      plugin that also implements DiscoverChannel. */
  datatype PluginItem = OtherPlugin | DiscoverChannel(id: ChannelId)

  /** Go's `error` result: nil, or an error carrying its message. */
  datatype Outcome = Pass | Fail(error: string)

  /** One Initialize call on a sink: the sink and the entry it was given. */
  datatype Binding = Binding(id: ChannelId, entry: ConfigEntry)

  /** The effect of resolving a list of entries: the sinks appended to the chain,
      the Initialize calls made (in order), and the error returned. */
  datatype Resolution = Resolution(chain: seq<ChannelId>, inits: seq<Binding>, outcome: Outcome)

  /** The effect of destroying a chain: the sinks whose Destroy was called (in
      order) and the error returned. */
  datatype Teardown = Teardown(destroyed: seq<ChannelId>, outcome: Outcome)

  // ---------------------------------------------------------------------------
  // Entry normalisation
  // ---------------------------------------------------------------------------

  /** The entries the composite is built from: the configured list when it is
      non-empty, otherwise the single entry on its own. */
  function NormalizeEntries(cfg: DiscoverEventConfig): (r: seq<ConfigEntry>)
    ensures |r| >= 1
    ensures |cfg.entries| != 0 ==> |r| == |cfg.entries| && forall i :: 0 <= i < |r| ==> r[i] == cfg.entries[i]
    ensures |cfg.entries| == 0 ==> |r| == 1 && r[0] == cfg.entry
  {
    if |cfg.entries| != 0 then cfg.entries else [cfg.entry]
  }

  // ---------------------------------------------------------------------------
  // Resolution of entries against the plugin set
  // ---------------------------------------------------------------------------

  /** True when the entry names a plugin that exists and is a DiscoverChannel. */
  predicate Compatible(plugins: map<string, PluginItem>, e: ConfigEntry)
  {
    e.name in plugins && plugins[e.name].DiscoverChannel?
  }

  /** The Initialize call a compatible entry leads to: its own sink and its own entry. */
  function BindingOf(plugins: map<string, PluginItem>, e: ConfigEntry): (b: Binding)
    requires Compatible(plugins, e)
    ensures b.entry == e && b.id == plugins[e.name].id
  {
    Binding(plugins[e.name].id, e)
  }

  /** Independent reference: the compatible entries in entry order, each paired
      with its sink (a filter over the entries, duplicates kept). */
  function Compatibles(options: seq<ConfigEntry>, plugins: map<string, PluginItem>): (r: seq<Binding>)
    ensures |r| <= |options|
  {
    if options == [] then []
    else
      (if Compatible(plugins, options[0]) then [BindingOf(plugins, options[0])] else [])
      + Compatibles(options[1..], plugins)
  }

  /** Independent reference: how many entries are skipped (absent, or not a DiscoverChannel). */
  function SkippedCount(options: seq<ConfigEntry>, plugins: map<string, PluginItem>): (n: nat)
    ensures n <= |options|
  {
    if options == [] then 0
    else (if Compatible(plugins, options[0]) then 0 else 1) + SkippedCount(options[1..], plugins)
  }

  /** The sinks named by a list of Initialize calls, in order. */
  function Ids(bs: seq<Binding>): (r: seq<ChannelId>)
    ensures |r| == |bs|
    ensures forall i :: 0 <= i < |bs| ==> r[i] == bs[i].id
  {
    if bs == [] then [] else [bs[0].id] + Ids(bs[1..])
  }

  /** Every listed Initialize call succeeds. */
  ghost predicate AllInitsPass(bs: seq<Binding>, init: (ChannelId, ConfigEntry) -> Outcome)
  {
    forall i :: 0 <= i < |bs| ==> init(bs[i].id, bs[i].entry).Pass?
  }

  /** Entry k is the first compatible entry whose sink fails to initialise. */
  ghost predicate FirstInitFailure(options: seq<ConfigEntry>, plugins: map<string, PluginItem>,
                                   init: (ChannelId, ConfigEntry) -> Outcome, k: nat)
  {
    && k < |options|
    && Compatible(plugins, options[k])
    && init(plugins[options[k].name].id, options[k]).Fail?
    && AllInitsPass(Compatibles(options[..k], plugins), init)
  }

  /** The loop of CompositeDiscoverChannel.Initialize as a recursive definition:
      a missing name and a plugin that is not a DiscoverChannel are skipped; a
      compatible sink is initialised with its own entry; the first failure ends
      the walk with that error; a success appends the sink to the chain. */
  function Resolve(options: seq<ConfigEntry>, plugins: map<string, PluginItem>,
                   init: (ChannelId, ConfigEntry) -> Outcome): (r: Resolution)
    // on success every Initialize call made went into the chain; on failure exactly one
    // more call was made, the failing one, and its error is the one returned
    ensures |r.inits| == |r.chain| + (if r.outcome.Fail? then 1 else 0)
    ensures r.outcome.Fail? ==> init(r.inits[|r.chain|].id, r.inits[|r.chain|].entry) == r.outcome
    // every chain member is a sink whose Initialize was called and succeeded, position by position
    ensures forall i :: 0 <= i < |r.chain| ==> r.chain[i] == r.inits[i].id
    ensures forall i :: 0 <= i < |r.chain| ==> init(r.inits[i].id, r.inits[i].entry).Pass?
  {
    if options == [] then Resolution([], [], Pass)
    else
      var entry := options[0];
      if entry.name !in plugins then
        Resolve(options[1..], plugins, init)
      else if !plugins[entry.name].DiscoverChannel? then
        Resolve(options[1..], plugins, init)
      else
        var b := Binding(plugins[entry.name].id, entry);
        var o := init(b.id, b.entry);
        if o.Fail? then Resolution([], [b], o)
        else
          var rest := Resolve(options[1..], plugins, init);
          Resolution([b.id] + rest.chain, [b] + rest.inits, rest.outcome)
  }

  // One step of Resolve on a non-empty list, one lemma per branch, so that
  // proofs can take a step without unfolding the whole definition.

  lemma ResolveSkip(options: seq<ConfigEntry>, plugins: map<string, PluginItem>,
                    init: (ChannelId, ConfigEntry) -> Outcome)
    requires options != [] && !Compatible(plugins, options[0])
    ensures Resolve(options, plugins, init) == Resolve(options[1..], plugins, init)
  {
  }

  lemma ResolveTake(options: seq<ConfigEntry>, plugins: map<string, PluginItem>,
                    init: (ChannelId, ConfigEntry) -> Outcome)
    requires options != [] && Compatible(plugins, options[0])
    requires init(BindingOf(plugins, options[0]).id, options[0]).Pass?
    ensures Resolve(options, plugins, init)
            == Resolution([BindingOf(plugins, options[0]).id] + Resolve(options[1..], plugins, init).chain,
                          [BindingOf(plugins, options[0])] + Resolve(options[1..], plugins, init).inits,
                          Resolve(options[1..], plugins, init).outcome)
  {
  }

  lemma ResolveAbort(options: seq<ConfigEntry>, plugins: map<string, PluginItem>,
                     init: (ChannelId, ConfigEntry) -> Outcome)
    requires options != [] && Compatible(plugins, options[0])
    requires init(BindingOf(plugins, options[0]).id, options[0]).Fail?
    ensures Resolve(options, plugins, init)
            == Resolution([], [BindingOf(plugins, options[0])], init(BindingOf(plugins, options[0]).id, options[0]))
  {
  }

  /** Resolving a concatenation whose first part succeeds is resolving the two
      parts one after the other. (Used to prove the loop of Initialize.) */
  lemma {:induction false} ResolveAppend(p: seq<ConfigEntry>, q: seq<ConfigEntry>,
                                         plugins: map<string, PluginItem>,
                                         init: (ChannelId, ConfigEntry) -> Outcome)
    requires Resolve(p, plugins, init).outcome.Pass?
    ensures Resolve(p + q, plugins, init)
            == Resolution(Resolve(p, plugins, init).chain + Resolve(q, plugins, init).chain,
                          Resolve(p, plugins, init).inits + Resolve(q, plugins, init).inits,
                          Resolve(q, plugins, init).outcome)
  {
    if p == [] {
      assert p + q == q;
    } else {
      var pq := p + q;
      assert pq[0] == p[0] && pq[1..] == p[1..] + q;
      if Compatible(plugins, p[0]) {
        var b := BindingOf(plugins, p[0]);
        if init(b.id, b.entry).Fail? {
          ResolveAbort(p, plugins, init);
          assert false;
        }
        ResolveTake(p, plugins, init);
        ResolveAppend(p[1..], q, plugins, init);
        ResolveAppendTake(p, q, plugins, init, Resolve(p[1..], plugins, init), Resolve(q, plugins, init));
      } else {
        ResolveSkip(p, plugins, init);
        ResolveSkip(pq, plugins, init);
        ResolveAppend(p[1..], q, plugins, init);
      }
    }
  }

  /** The step of ResolveAppend at a compatible first entry that initialises. */
  lemma ResolveAppendTake(p: seq<ConfigEntry>, q: seq<ConfigEntry>, plugins: map<string, PluginItem>,
                          init: (ChannelId, ConfigEntry) -> Outcome, rp: Resolution, rq: Resolution)
    requires p != [] && Compatible(plugins, p[0]) && init(BindingOf(plugins, p[0]).id, p[0]).Pass?
    requires (p + q)[0] == p[0] && (p + q)[1..] == p[1..] + q
    requires rp == Resolve(p[1..], plugins, init) && rq == Resolve(q, plugins, init)
    requires Resolve(p[1..] + q, plugins, init) == Resolution(rp.chain + rq.chain, rp.inits + rq.inits, rq.outcome)
    ensures Resolve(p + q, plugins, init)
            == Resolution(Resolve(p, plugins, init).chain + rq.chain, Resolve(p, plugins, init).inits + rq.inits, rq.outcome)
  {
    var b := BindingOf(plugins, p[0]);
    ResolveTake(p, plugins, init);
    ResolveTake(p + q, plugins, init);
    assert [b.id] + (rp.chain + rq.chain) == ([b.id] + rp.chain) + rq.chain;
    assert [b] + (rp.inits + rq.inits) == ([b] + rp.inits) + rq.inits;
  }

  // The loop of Initialize extends a prefix of the entries by one entry at a
  // time; these three lemmas are that step, one per branch.

  lemma ResolvePrefixSkip(options: seq<ConfigEntry>, i: nat, plugins: map<string, PluginItem>,
                          init: (ChannelId, ConfigEntry) -> Outcome)
    requires i < |options| && !Compatible(plugins, options[i])
    requires Resolve(options[..i], plugins, init).outcome.Pass?
    ensures Resolve(options[..i + 1], plugins, init) == Resolve(options[..i], plugins, init)
  {
    assert options[..i + 1] == options[..i] + [options[i]];
    ResolveAppend(options[..i], [options[i]], plugins, init);
    assert [options[i]][1..] == [];
    ResolveSkip([options[i]], plugins, init);
    var done := Resolve(options[..i], plugins, init);
    assert done.chain + [] == done.chain && done.inits + [] == done.inits;
  }

  lemma ResolvePrefixTake(options: seq<ConfigEntry>, i: nat, plugins: map<string, PluginItem>,
                          init: (ChannelId, ConfigEntry) -> Outcome)
    requires i < |options| && Compatible(plugins, options[i])
    requires init(BindingOf(plugins, options[i]).id, options[i]).Pass?
    requires Resolve(options[..i], plugins, init).outcome.Pass?
    ensures Resolve(options[..i + 1], plugins, init)
            == Resolution(Resolve(options[..i], plugins, init).chain + [BindingOf(plugins, options[i]).id],
                          Resolve(options[..i], plugins, init).inits + [BindingOf(plugins, options[i])],
                          Pass)
  {
    assert options[..i + 1] == options[..i] + [options[i]];
    ResolveAppend(options[..i], [options[i]], plugins, init);
    assert [options[i]][1..] == [];
    ResolveTake([options[i]], plugins, init);
  }

  lemma ResolvePrefixAbort(options: seq<ConfigEntry>, i: nat, plugins: map<string, PluginItem>,
                           init: (ChannelId, ConfigEntry) -> Outcome)
    requires i < |options| && Compatible(plugins, options[i])
    requires init(BindingOf(plugins, options[i]).id, options[i]).Fail?
    requires Resolve(options[..i], plugins, init).outcome.Pass?
    ensures Resolve(options, plugins, init)
            == Resolution(Resolve(options[..i], plugins, init).chain,
                          Resolve(options[..i], plugins, init).inits + [BindingOf(plugins, options[i])],
                          init(BindingOf(plugins, options[i]).id, options[i]))
  {
    assert options[..i] + options[i..] == options;
    ResolveAppend(options[..i], options[i..], plugins, init);
    assert options[i..][0] == options[i];
    ResolveAbort(options[i..], plugins, init);
    var done := Resolve(options[..i], plugins, init);
    assert done.chain + [] == done.chain;
  }

  /** Compatibles distributes over a split after the first entry. */
  lemma CompatiblesPrefix(options: seq<ConfigEntry>, plugins: map<string, PluginItem>, k: nat)
    requires 0 < k <= |options|
    ensures Compatibles(options[..k], plugins)
            == (if Compatible(plugins, options[0]) then [BindingOf(plugins, options[0])] else [])
               + Compatibles(options[1..][..k - 1], plugins)
  {
    assert options[..k][0] == options[0];
    assert options[..k][1..] == options[1..][..k - 1];
  }

  /** AllInitsPass of a concatenation is AllInitsPass of both parts. */
  lemma AllInitsPassConcat(a: seq<Binding>, b: seq<Binding>, init: (ChannelId, ConfigEntry) -> Outcome)
    ensures AllInitsPass(a + b, init) <==> AllInitsPass(a, init) && AllInitsPass(b, init)
  {
    if AllInitsPass(a, init) && AllInitsPass(b, init) {
      forall i | 0 <= i < |a + b| ensures init((a + b)[i].id, (a + b)[i].entry).Pass? {
        if i >= |a| { assert (a + b)[i] == b[i - |a|]; }
      }
    }
    if AllInitsPass(a + b, init) {
      forall i | 0 <= i < |b| ensures init(b[i].id, b[i].entry).Pass? {
        assert (a + b)[|a| + i] == b[i];
      }
      forall i | 0 <= i < |a| ensures init(a[i].id, a[i].entry).Pass? {
        assert (a + b)[i] == a[i];
      }
    }
  }

  /** Initialize returns nil exactly when every compatible entry's sink
      initialises successfully; the chain is then the compatible sinks in entry
      order (duplicates kept), each initialised with its own entry, and its
      length is the number of entries minus the skipped ones. */
  lemma {:induction false} ResolveSucceeds(options: seq<ConfigEntry>, plugins: map<string, PluginItem>,
                                           init: (ChannelId, ConfigEntry) -> Outcome)
    ensures Resolve(options, plugins, init).outcome.Pass? <==> AllInitsPass(Compatibles(options, plugins), init)
    ensures Resolve(options, plugins, init).outcome.Pass? ==>
              && Resolve(options, plugins, init).inits == Compatibles(options, plugins)
              && Resolve(options, plugins, init).chain == Ids(Compatibles(options, plugins))
              && |Resolve(options, plugins, init).chain| == |options| - SkippedCount(options, plugins)
  {
    if options != [] {
      ResolveSucceeds(options[1..], plugins, init);
      CompatiblesLength(options, plugins);
      var e := options[0];
      var tail := Compatibles(options[1..], plugins);
      if Compatible(plugins, e) {
        var b := BindingOf(plugins, e);
        assert Compatibles(options, plugins) == [b] + tail;
        AllInitsPassConcat([b], tail, init);
        assert AllInitsPass([b], init) <==> init(b.id, b.entry).Pass? by { assert [b][0] == b; }
        if init(b.id, b.entry).Pass? {
          ResolveTake(options, plugins, init);
          assert Ids([b] + tail) == [b.id] + Ids(tail) by {
            assert ([b] + tail)[1..] == tail;
          }
        } else {
          ResolveAbort(options, plugins, init);
        }
      } else {
        ResolveSkip(options, plugins, init);
        assert Compatibles(options, plugins) == tail;
      }
    }
  }

  /** The number of compatible entries plus the number of skipped ones is the
      number of entries. */
  lemma {:induction false} CompatiblesLength(options: seq<ConfigEntry>, plugins: map<string, PluginItem>)
    ensures |Compatibles(options, plugins)| == |options| - SkippedCount(options, plugins)
  {
    if options != [] {
      CompatiblesLength(options[1..], plugins);
    }
  }

  /** The first compatible entry whose Initialize fails (entry k) makes the
      composite return that same error: no entry after k is initialised, and
      the chain holds exactly the sinks of the compatible entries before k. */
  lemma {:induction false} ResolveAbortsAtFirstFailure(options: seq<ConfigEntry>, plugins: map<string, PluginItem>,
                                                       init: (ChannelId, ConfigEntry) -> Outcome, k: nat)
    requires FirstInitFailure(options, plugins, init, k)
    ensures Resolve(options, plugins, init).outcome == init(plugins[options[k].name].id, options[k])
    ensures Resolve(options, plugins, init).chain == Ids(Compatibles(options[..k], plugins))
    ensures Resolve(options, plugins, init).inits == Compatibles(options[..k + 1], plugins)
  {
    CompatiblesPrefix(options, plugins, k + 1);
    if k == 0 {
      assert options[1..][..0] == [];
    } else {
      CompatiblesPrefix(options, plugins, k);
      var e := options[0];
      var tailK := Compatibles(options[1..][..k - 1], plugins);
      assert options[1..][k - 1] == options[k];
      assert options[1..][..k] == options[1..][..k - 1 + 1];
      var head := if Compatible(plugins, e) then [BindingOf(plugins, e)] else [];
      AllInitsPassConcat(head, tailK, init);
      if Compatible(plugins, e) {
        var b := BindingOf(plugins, e);
        assert init(b.id, b.entry).Pass? by { assert head[0] == b; }
      }
      ResolveAbortsAtFirstFailure(options[1..], plugins, init, k - 1);
    }
  }

  /** Initialize fails exactly when some compatible entry is the first whose
      sink fails to initialise. */
  lemma {:induction false} ResolveFailsIff(options: seq<ConfigEntry>, plugins: map<string, PluginItem>,
                                           init: (ChannelId, ConfigEntry) -> Outcome)
    ensures Resolve(options, plugins, init).outcome.Fail? <==>
            exists k: nat :: FirstInitFailure(options, plugins, init, k)
  {
    if Resolve(options, plugins, init).outcome.Fail? {
      var k := FailureIndex(options, plugins, init);
    }
    if exists k: nat :: FirstInitFailure(options, plugins, init, k) {
      var k: nat :| FirstInitFailure(options, plugins, init, k);
      ResolveAbortsAtFirstFailure(options, plugins, init, k);
    }
  }

  /** A witness for ResolveFailsIff: the index of the first failing entry. */
  lemma {:induction false} FailureIndex(options: seq<ConfigEntry>, plugins: map<string, PluginItem>,
                                        init: (ChannelId, ConfigEntry) -> Outcome) returns (k: nat)
    requires Resolve(options, plugins, init).outcome.Fail?
    ensures FirstInitFailure(options, plugins, init, k)
  {
    var e := options[0];
    if Compatible(plugins, e) && init(plugins[e.name].id, e).Fail? {
      k := 0;
      assert options[..0] == [];
    } else {
      var k' := FailureIndex(options[1..], plugins, init);
      k := k' + 1;
      CompatiblesPrefix(options, plugins, k);
      assert options[1..][..k - 1] == options[1..][..k'];
      assert options[1..][k'] == options[k];
      if Compatible(plugins, e) {
        var b := BindingOf(plugins, e);
        AllInitsPassConcat([b], Compatibles(options[1..][..k'], plugins), init);
      }
    }
  }

  /** Whatever the outcome, the Initialize calls made are a prefix of the
      compatible entries: each sink gets its own entry, in entry order, and a
      skipped entry leads to no call. */
  lemma {:induction false} ResolveInitsArePrefix(options: seq<ConfigEntry>, plugins: map<string, PluginItem>,
                                                 init: (ChannelId, ConfigEntry) -> Outcome)
    ensures Resolve(options, plugins, init).inits <= Compatibles(options, plugins)
  {
    if options != [] {
      ResolveInitsArePrefix(options[1..], plugins, init);
    }
  }

  /** Independent reference: the positions, from `start` on, of the compatible
      entries, in increasing order; every compatible position is listed. */
  function Positions(options: seq<ConfigEntry>, plugins: map<string, PluginItem>, start: nat): (p: seq<nat>)
    requires start <= |options|
    decreases |options| - start
    ensures forall i :: 0 <= i < |p| ==> start <= p[i] < |options| && Compatible(plugins, options[p[i]])
    ensures forall i, j :: 0 <= i < j < |p| ==> p[i] < p[j]
    ensures forall k :: start <= k < |options| && Compatible(plugins, options[k]) ==> k in p
  {
    if start == |options| then []
    else (if Compatible(plugins, options[start]) then [start] else []) + Positions(options, plugins, start + 1)
  }

  /** Compatibles(options[start..]) pairs, call by call, the entry at the
      matching position with its sink. */
  lemma {:induction false} CompatiblesAtPositions(options: seq<ConfigEntry>, plugins: map<string, PluginItem>, start: nat)
    requires start <= |options|
    decreases |options| - start
    ensures |Compatibles(options[start..], plugins)| == |Positions(options, plugins, start)|
    ensures forall i :: 0 <= i < |Positions(options, plugins, start)| ==>
              Compatibles(options[start..], plugins)[i] == BindingOf(plugins, options[Positions(options, plugins, start)[i]])
  {
    if start < |options| {
      CompatiblesAtPositions(options, plugins, start + 1);
      assert options[start..][0] == options[start] && options[start..][1..] == options[start + 1..];
      if Compatible(plugins, options[start]) {
        PositionsStepTake(options, plugins, start, Compatibles(options[start + 1..], plugins),
                          Positions(options, plugins, start + 1));
      } else {
        assert Compatibles(options[start..], plugins) == Compatibles(options[start + 1..], plugins);
        assert Positions(options, plugins, start) == Positions(options, plugins, start + 1);
      }
    }
  }

  /** The step of CompatiblesAtPositions at a compatible entry. */
  lemma PositionsStepTake(options: seq<ConfigEntry>, plugins: map<string, PluginItem>, start: nat,
                          tail: seq<Binding>, rest: seq<nat>)
    requires start < |options| && Compatible(plugins, options[start])
    requires options[start..][0] == options[start] && options[start..][1..] == options[start + 1..]
    requires tail == Compatibles(options[start + 1..], plugins) && rest == Positions(options, plugins, start + 1)
    requires |tail| == |rest|
    requires forall i :: 0 <= i < |rest| ==> tail[i] == BindingOf(plugins, options[rest[i]])
    ensures |Compatibles(options[start..], plugins)| == |Positions(options, plugins, start)|
    ensures forall i :: 0 <= i < |Positions(options, plugins, start)| ==>
              Compatibles(options[start..], plugins)[i] == BindingOf(plugins, options[Positions(options, plugins, start)[i]])
  {
  }

  /** The i-th Initialize call carries the entry at the i-th compatible position
      of the entries, and the sink that entry's name resolves to: never another
      entry. The positions are strictly increasing and cover every compatible
      entry, so calls follow entry order one for one. */
  lemma CompatiblesOwnEntry(options: seq<ConfigEntry>, plugins: map<string, PluginItem>)
    ensures |Compatibles(options, plugins)| == |Positions(options, plugins, 0)|
    ensures forall i :: 0 <= i < |Compatibles(options, plugins)| ==>
              var j := Positions(options, plugins, 0)[i];
              && j < |options| && Compatible(plugins, options[j])
              && Compatibles(options, plugins)[i] == Binding(plugins[options[j].name].id, options[j])
  {
    assert options[0..] == options;
    CompatiblesAtPositions(options, plugins, 0);
  }

  /** An entry that is skipped (its name is absent, or names a plugin that is
      not a DiscoverChannel) changes nothing: resolving the entries without it
      gives the same chain, the same calls and the same outcome. */
  lemma {:induction false} SkippedEntryIsInvisible(options: seq<ConfigEntry>, plugins: map<string, PluginItem>,
                                                   init: (ChannelId, ConfigEntry) -> Outcome, k: nat)
    requires k < |options| && !Compatible(plugins, options[k])
    ensures Resolve(options[..k] + options[k + 1..], plugins, init) == Resolve(options, plugins, init)
  {
    if k == 0 {
      assert options[..0] + options[1..] == options[1..];
    } else {
      var s := options[..k] + options[k + 1..];
      var t := options[1..];
      assert s[0] == options[0];
      assert s[1..] == t[..k - 1] + t[k..];
      SkippedEntryIsInvisible(t, plugins, init, k - 1);
    }
  }

  // ---------------------------------------------------------------------------
  // Destroying the chain
  // ---------------------------------------------------------------------------

  /** The loop of CompositeDiscoverChannel.Destroy as a recursive definition:
      members are destroyed in chain order and the first error ends the walk. */
  function TearDown(chain: seq<ChannelId>, destroy: ChannelId -> Outcome): (r: Teardown)
    ensures r.destroyed <= chain
    ensures r.outcome.Pass? ==> r.destroyed == chain
    ensures r.outcome.Fail? ==> |r.destroyed| > 0 && destroy(r.destroyed[|r.destroyed| - 1]) == r.outcome
  {
    if chain == [] then Teardown([], Pass)
    else
      var o := destroy(chain[0]);
      if o.Fail? then Teardown([chain[0]], o)
      else
        var rest := TearDown(chain[1..], destroy);
        Teardown([chain[0]] + rest.destroyed, rest.outcome)
  }

  /** Destroy returns nil exactly when every member's Destroy succeeds. */
  lemma {:induction false} TearDownPassIff(chain: seq<ChannelId>, destroy: ChannelId -> Outcome)
    ensures TearDown(chain, destroy).outcome.Pass? <==> forall i :: 0 <= i < |chain| ==> destroy(chain[i]).Pass?
  {
    if chain != [] {
      TearDownPassIff(chain[1..], destroy);
      if forall i :: 0 <= i < |chain| ==> destroy(chain[i]).Pass? {
        forall i | 0 <= i < |chain[1..]| ensures destroy(chain[1..][i]).Pass? {
          assert chain[1..][i] == chain[i + 1];
        }
      }
      if destroy(chain[0]).Pass? && forall i :: 0 <= i < |chain[1..]| ==> destroy(chain[1..][i]).Pass? {
        forall i | 0 <= i < |chain| ensures destroy(chain[i]).Pass? {
          if i > 0 { assert chain[i] == chain[1..][i - 1]; }
        }
      }
    }
  }

  /** The first member whose Destroy fails (member k) stops the walk: members
      0..k are destroyed, later ones are left untouched, and that error is returned. */
  lemma {:induction false} TearDownStopsAtFirstError(chain: seq<ChannelId>, destroy: ChannelId -> Outcome, k: nat)
    requires k < |chain| && destroy(chain[k]).Fail?
    requires forall j :: 0 <= j < k ==> destroy(chain[j]).Pass?
    ensures TearDown(chain, destroy) == Teardown(chain[..k + 1], destroy(chain[k]))
  {
    if k > 0 {
      forall j | 0 <= j < k - 1 ensures destroy(chain[1..][j]).Pass? {
        assert chain[1..][j] == chain[j + 1];
      }
      assert chain[1..][k - 1] == chain[k];
      TearDownStopsAtFirstError(chain[1..], destroy, k - 1);
      assert [chain[0]] + chain[1..][..k] == chain[..k + 1];
    }
  }
}
