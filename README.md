# Composite discover-event channel (Polaris `plugin` package)

This project models the discover-event dispatcher of the Polaris service-discovery server, in `plugin/discoverevent.go`. It proves properties of that model.

The dispatcher is a `CompositeDiscoverChannel`. It is built from an ordered list of plugin configuration entries. Its `Initialize` resolves each entry by name against the plugin set:

- an entry whose name is absent is skipped;
- an entry whose plugin is not a `DiscoverChannel` is skipped;
- any other entry's sink is initialised with that entry and appended to the chain;
- the first sink that fails to initialise aborts the walk, and its error is returned.

`Destroy` destroys the chain members in order and stops at the first error. `PublishEvent` forwards one event to every chain member in order. `GetDiscoverEvent` builds the composite once from the configuration, memoises it, and ends the process if initialisation fails. The configuration is either the list of entries or, when that list is empty, the single entry.

Files:

- `plugin_model.dfy` (module `PluginModel`) holds the data model and two reference definitions. `Resolve` is what `Initialize` does to a list of entries. `TearDown` is what `Destroy` does to a chain. The module also holds independent reference definitions: `Compatibles`, which filters the entries to the (sink, entry) pairs of the compatible ones, and `SkippedCount`. The lemmas relating these are proved there.
- `discover_event.dfy` (module `DiscoverEvent`) holds two classes. `CompositeDiscoverChannel<E>` has the Go struct's `chain` and `options` fields. `DiscoverEventSingleton<E>` holds the package-level memoised instance. `Initialize` and `Destroy` are proved against `Resolve` and `TearDown`; `PublishEvent`'s contract gives the new delivery trace directly.

Foreign code is abstracted like this:

- Sinks' `Initialize` and `Destroy` results are caller-supplied total functions `init` and `destroy`. Every property therefore holds for every sink whose Initialize result depends only on the sink and its entry and whose Destroy result depends only on the sink.
- The calls the composite makes on its sinks are recorded in three ghost traces: `initialised`, `destroyed` and `delivered`.
- The event type (`model.InstanceEvent`) is the type parameter `E`.
- The global plugin set is a `map<string, PluginItem>` parameter.
- The global configuration is a `DiscoverEventConfig` parameter.

On a failed initialisation the sinks appended before the failure stay in `chain` (`plugin/discoverevent.go:99-102`), and `Initialize`'s contract keeps them. In this sequential model only the process exit in `GetDiscoverEvent` hides them; with concurrent callers the fast path at `plugin/discoverevent.go:41-43` can hand out the composite while its chain is still partial (see "## Left out"). `ResolveAbortsAtFirstFailure` states exactly which sinks they are.

## Model

| member | source | states |
|---|---|---|
| PluginModel.NormalizeEntries | plugin/discoverevent.go:50-54 | The result is never empty. If the configured list is non-empty, the result equals it element for element, in order. Otherwise the result is exactly the one-element list holding the single entry. |
| PluginModel.Resolve | plugin/discoverevent.go:84-105 | Resolving entries returns nil exactly when every Initialize call made succeeded; then every call made went into the chain. On failure exactly one more call was made than the chain holds, and the returned error is that last call's. Each chain member is, position by position, a sink that was initialised and succeeded. |
| PluginModel.ResolveSucceeds | plugin/discoverevent.go:85-104 | Initialize returns nil if and only if every compatible entry's sink initialises successfully. The Initialize calls are then exactly the compatible entries in entry order, each with its own sink, duplicates kept. The chain is exactly their sinks. Its length is the number of entries minus the skipped ones. |
| PluginModel.CompatiblesLength | plugin/discoverevent.go:85-97 | The number of compatible entries plus the number of skipped entries (absent, or not a DiscoverChannel) is the number of entries. |
| PluginModel.ResolveAbortsAtFirstFailure | plugin/discoverevent.go:99-101 | Let k be the first compatible entry whose Initialize fails. The composite returns that same error. No entry after k is initialised: the calls are exactly those of the compatible entries up to and including k. The chain holds exactly the sinks of the compatible entries before k. |
| PluginModel.ResolveFailsIff | plugin/discoverevent.go:85-104 | Initialize returns an error if and only if some compatible entry is the first whose sink fails to initialise. |
| PluginModel.ResolveInitsArePrefix | plugin/discoverevent.go:86-99 | Whatever the outcome, the Initialize calls made are a prefix of the compatible entries paired with their sinks. Each sink gets its own entry, in entry order, and a skipped entry leads to no call. |
| PluginModel.CompatiblesOwnEntry | plugin/discoverevent.go:86-99 | The i-th Initialize call carries the entry at the i-th compatible position of the entries (positions strictly increasing and covering every compatible entry) and the sink that entry's name resolves to, never another entry. |
| PluginModel.SkippedEntryIsInvisible | plugin/discoverevent.go:87-97 | Take an entry whose name is absent, or whose plugin is not a DiscoverChannel. Removing it from anywhere in the list leaves the chain, the Initialize calls and the outcome unchanged, so the loop simply goes on to the next entry. |
| PluginModel.ResolveAppend | plugin/discoverevent.go:85-103 | Resolving a list whose first part succeeds is resolving the parts one after the other. Chains and calls concatenate, and the outcome is the second part's. |
| PluginModel.TearDown | plugin/discoverevent.go:107-114 | The sinks destroyed are a prefix of the chain. On nil they are the whole chain. On error the error is the last destroyed member's. |
| PluginModel.TearDownPassIff | plugin/discoverevent.go:107-114 | Destroy returns nil if and only if every member's Destroy succeeds. |
| PluginModel.TearDownStopsAtFirstError | plugin/discoverevent.go:108-111 | Let k be the first member whose Destroy fails. Exactly members 0..k are destroyed, in chain order, and k's error is returned. Later members are untouched. |
| DiscoverEvent.DiscoverEventSingleton.constructor | plugin/discoverevent.go:27-30 | At start there is no memoised composite and the process has not exited. |
| DiscoverEvent.CompositeDiscoverChannel.constructor | plugin/discoverevent.go:67-72 | A new composite has an empty chain and options equal to the entries it was given. It has made no call on any sink. |
| DiscoverEvent.CompositeDiscoverChannel.Name | plugin/discoverevent.go:80-82 | Always returns "CompositeDiscoverChannel". |
| DiscoverEvent.CompositeDiscoverChannel.Initialize | plugin/discoverevent.go:84-105 | The loop's returned error equals Resolve's outcome. The chain grows by exactly Resolve's chain, appended in place to the old chain. The Initialize calls made are exactly Resolve's calls. The options sequence and the other traces do not change. |
| DiscoverEvent.CompositeDiscoverChannel.Destroy | plugin/discoverevent.go:107-114 | The returned error equals TearDown's outcome. The Destroy calls made are exactly TearDown's prefix of the chain, in chain order. The chain and options are not modified. |
| DiscoverEvent.CompositeDiscoverChannel.PublishEvent | plugin/discoverevent.go:117-121 | Exactly one PublishEvent call is added per chain member, in chain order, each carrying the identical event. The chain and options are unchanged. |
| DiscoverEvent.DiscoverEventSingleton.GetDiscoverEvent | plugin/discoverevent.go:40-64 | A memoised composite is returned as is, with no further resolution. Otherwise a fresh composite is built from the normalised entries and memoised, and its chain and calls are Resolve's. If initialisation succeeds it is returned. If it fails, the process exits with status -1 and that error. |

## Left out

- Concurrency is not modelled. The `sync.Once` guard (`plugin/discoverevent.go:28,45-61`) runs the construction exactly once under concurrent callers. The unsynchronised nil check (`plugin/discoverevent.go:41-43`) is a fast path that skips `sync.Once`. Because the global is assigned (line 56) before `Initialize` runs (line 57), a concurrent caller taking that fast path can receive a composite whose chain is still being built. The model is sequential: one singleton object with a memoised `instance` field, so this race is not captured.
- Logging (`log.Errorf`) is I/O and is not modelled.
- `os.Exit(-1)` is modelled as the `Exit(-1, error)` result plus the `exited` flag. `GetDiscoverEvent` requires `!exited` because nothing runs after the process has exited.
- The unused `config *ConfigEntry` parameter of `Initialize` is not modelled. `GetDiscoverEvent` passes nil, and the body never reads it.
- Sink behaviour is foreign code. A sink's Initialize result is a function of (sink, entry), and its Destroy result is a function of the sink. A stateful sink that answers a repeated call differently (for example, a sink named by two entries) is therefore not captured. Panics inside a sink's `Initialize` (`plugin/discoverevent.go:99`), `Destroy` (line 109) or `PublishEvent` (line 119) pass through the composite and are not modelled.
- A sink writing to its entry's `Option` map is not modelled. The code passes `&entry`, a copy of the entry whose `Option` map is shared with `c.options[i]`, so a sink could change the options' contents. The model treats entries as values, so "options do not change" covers the sequence and the names, not the maps' contents.
- The type and contents of `ConfigEntry.Option` are defined in `plugin/config.go`, which is not part of this model. Options are modelled as a `map<string, string>`.
- Chain members are identified by a sink id. Go interface identity and aliasing between plugin-set entries are represented only through that id.
- The composite itself registered as a plugin (nesting) is not modelled.
