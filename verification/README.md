# posthog-kmp client core, modelled in Dafny

This project models the analytics core of the posthog-kmp Kotlin
Multiplatform SDK. It covers three pieces of the library:

- the JVM backend, the only platform that implements event collection
  itself: an ordered event queue, super properties (with the accumulated
  `$groups` memberships), the anonymous and distinct ids, an opt-out flag,
  and two flag tables (synced values and local overrides);
- the common `PostHog` facade: the `setup`/`close` lifecycle, gating on
  initialisation with safe defaults, and its own super-property map, merged
  in before the backend's;
- `FeatureFlagValue.isEnabled`.

State is an immutable record and every public operation is a pure function
on it. The outside world enters only through parameters:

- Fresh UUIDs and timestamps are parameters.
- Work the source launches on its coroutine scope comes back as a list of
  tasks (`JvmBackend.Task`). Running a task is a separate transition.
- A flush is two transitions. `FlushDrain` takes the whole queue in one
  atomic step; the code's drain is two calls (see "## Left out"). `FlushComplete` receives the outcome `Delivered | Threw`; any HTTP
  status counts as delivered.
- A flag load receives a `SyncOutcome`: the call threw, or it responded with
  a status and a decoded body.

Modules: `Wrappers` (Option), `JsonValues` (property values),
`Text` (case-insensitive comparison), `PostHogEvents`/`PostHogProperties`
(key constants), `Models`, `Config`, `EventQueue` (queue and delivery
traffic), `FlagStore` (flag reads and sync merge), `JvmBackend`,
`BackendTraffic` (the backend's queue calls read as queue traffic),
`Facade`.

Behaviours of the code worth noting:

- A String override is enabled only when it equals "true" ignoring case.
  Any override that is neither Boolean nor String yields the default. It
  never falls through to the synced value.
- `getFeatureFlagPayload` reads only the synced table, under
  `key + "_payload"`. Overrides play no part.
- `getAllFeatureFlags` is `overrides + synced`, so the synced value wins on
  a shared key. `getFeatureFlag` prefers the override
  (`FlagStore.AllFlagsPreferSynced`).
- Flushes are not serialised. A requeue restores capture order only when
  flushes do not overlap. Two overlapping flushes that both throw can
  requeue their batches in reverse order
  (`EventQueue.OverlappingFailedFlushesReorder`). In the model, where a
  drain is atomic, no event is lost or duplicated
  (`EventQueue.NothingLostOrDuplicated`).
- `close` is not terminal: the facade accepts `setup` again. But the
  backend's coroutine scope stays cancelled, so after a re-setup no launched
  work ever runs: no preload, no timer, no flush, no reload callback
  (`Facade.NothingRunsAfterReSetup`).
- `close` empties the queue even when its final flush threw.
- `$groups` is one mutable map. `group` writes into it in place, and every
  captured event holds a reference to it, not a copy. An event is posted
  with the memberships at send time, not at capture time
  (`JvmBackend.LaterGroupRewritesEarlierEvents`). `reset`, `close`, or
  registering or removing `$groups` detaches the map. The next `group` then
  starts a new one.
- `screen`, `identify`, `alias` and `group` call the backend directly. They
  skip the facade's own super properties, which only `capture` merges in
  (`Facade.DirectCallsSkipFacadeSupers`).
- The flag parser is lenient. An unquoted `TRUE` in a sync response is
  stored as a Boolean, a quoted one as text
  (`FlagStore.QuotingDecidesBoolean`).
- The JVM setup never reads the `optOut` setting. The opt-out flag also
  survives `close` and `reset`.

## Model

| member | source | states |
|---|---|---|
| Models.IsEnabled | posthog-kmp/src/commonMain/kotlin/io/github/samuolis/posthog/PostHogModels.kt:48-54 | a flag value is disabled exactly when it is `Disabled` or `Enabled(false)` |
| Models.EnabledByDefault | posthog-kmp/src/commonMain/kotlin/io/github/samuolis/posthog/PostHogModels.kt:40 | `Enabled()` defaults to `Enabled(true)` and is enabled |
| Models.VariantsAndPayloadsAreEnabled | posthog-kmp/src/commonMain/kotlin/io/github/samuolis/posthog/PostHogModels.kt:52-53 | string variants and JSON payloads are enabled whatever they contain, even empty |
| Text.Lower | posthog-kmp/src/jvmMain/kotlin/com/samuolis/posthog/PostHog.jvm.kt:180 | lowering keeps the length and lowers each character independently |
| Text.EqualsIgnoringCaseLetterwise | posthog-kmp/src/jvmMain/kotlin/com/samuolis/posthog/PostHog.jvm.kt:180 | equality with a lower-case word ignoring case holds iff the lengths match and each character is that letter in either case |
| EventQueue.Enqueue | posthog-kmp/src/jvmMain/kotlin/com/samuolis/posthog/PostHog.jvm.kt:86 | one event is added at the tail; earlier events are untouched |
| EventQueue.Requeue | posthog-kmp/src/jvmMain/kotlin/com/samuolis/posthog/PostHog.jvm.kt:290 | a failed batch returns to the head, in order, ahead of everything queued meanwhile |
| EventQueue.NothingLostOrDuplicated | posthog-kmp/src/jvmMain/kotlin/com/samuolis/posthog/PostHog.jvm.kt:254-291 | under any interleaving of captures, flushes and outcomes, each captured event is exactly once delivered, in flight or queued |
| EventQueue.SerialFlushesKeepCaptureOrder | posthog-kmp/src/jvmMain/kotlin/com/samuolis/posthog/PostHog.jvm.kt:254-291 | when flushes do not overlap, delivered then in-flight then queued events are exactly the capture sequence; the server receives a prefix of it |
| EventQueue.OverlappingFailedFlushesReorder | posthog-kmp/src/jvmMain/kotlin/com/samuolis/posthog/PostHog.jvm.kt:254-291 | two overlapping flushes that both throw, oldest settling first, leave the queue in reverse capture order |
| FlagStore.GetFeatureFlag | posthog-kmp/src/jvmMain/kotlin/com/samuolis/posthog/PostHog.jvm.kt:193-195 | the override if one exists, else the synced value, else nothing |
| FlagStore.IsFeatureEnabled | posthog-kmp/src/jvmMain/kotlin/com/samuolis/posthog/PostHog.jvm.kt:176-191 | override first: Boolean as is, String iff "true" ignoring case, else the default; then synced: Boolean as is, String unless "false" ignoring case, other values true, absent the default |
| FlagStore.OverrideShadowsSynced | posthog-kmp/src/jvmMain/kotlin/com/samuolis/posthog/PostHog.jvm.kt:177-183 | with an override present, neither read depends on the synced table |
| FlagStore.StringRulesDiffer | posthog-kmp/src/jvmMain/kotlin/com/samuolis/posthog/PostHog.jvm.kt:176-191 | any string that reads neither "true" nor "false" ignoring case is disabled as an override and enabled as a synced value |
| FlagStore.StringRulesIgnoreCase | posthog-kmp/src/jvmMain/kotlin/com/samuolis/posthog/PostHog.jvm.kt:176-191 | "TRUE" enables as an override and "FALSE" disables as a synced value |
| FlagStore.GetFeatureFlagPayload | posthog-kmp/src/jvmMain/kotlin/com/samuolis/posthog/PostHog.jvm.kt:197-199 | a payload is found iff the synced table holds `key + "_payload"`; overrides are not consulted |
| FlagStore.GetAllFeatureFlags | posthog-kmp/src/jvmMain/kotlin/com/samuolis/posthog/PostHog.jvm.kt:201-203 | the union of both tables' keys; the synced value wins on a shared key |
| FlagStore.AllFlagsPreferSynced | posthog-kmp/src/jvmMain/kotlin/com/samuolis/posthog/PostHog.jvm.kt:193-203 | on a key both tables hold with different values, the single read and the all-flags view disagree |
| FlagStore.StoredFlagValue | posthog-kmp/src/jvmMain/kotlin/com/samuolis/posthog/PostHog.jvm.kt:314-322 | a synced value is stored as a Boolean exactly for an unquoted primitive reading `true` or `false` ignoring case, and as its text otherwise |
| FlagStore.QuotingDecidesBoolean | posthog-kmp/src/jvmMain/kotlin/com/samuolis/posthog/PostHog.jvm.kt:316-319 | unquoted `TRUE` and `False` are stored as Booleans; a quoted `"TRUE"` is stored as the string |
| FlagStore.PayloadEntries | posthog-kmp/src/jvmMain/kotlin/com/samuolis/posthog/PostHog.jvm.kt:325-327 | each payload is stored as its JSON text under its payload key |
| FlagStore.MergeSync | posthog-kmp/src/jvmMain/kotlin/com/samuolis/posthog/PostHog.jvm.kt:304-333 | a failed, non-success or malformed sync leaves the table unchanged; otherwise each flag and each payload key is upserted, payload entries win, other keys are kept |
| FlagStore.MergeSyncKeepsShape | posthog-kmp/src/jvmMain/kotlin/com/samuolis/posthog/PostHog.jvm.kt:314-327 | a sync keeps the synced table Boolean-or-String valued |
| FlagStore.SyncedReadIsBooleanOrString | posthog-kmp/src/jvmMain/kotlin/com/samuolis/posthog/PostHog.jvm.kt:185-190 | on a table filled by syncs, a flag with no override is enabled iff it is `true` or a string other than "false" |
| JvmBackend.Setup | posthog-kmp/src/jvmMain/kotlin/com/samuolis/posthog/PostHog.jvm.kt:50-67 | a fresh identity with distinct id = anonymous id; configuration and client set; preload launched iff configured, timer launched, each unless the scope is cancelled, and nothing else launched; queue, opt-out flag and tables untouched |
| JvmBackend.Close | posthog-kmp/src/jvmMain/kotlin/com/samuolis/posthog/PostHog.jvm.kt:232-246 | the attempted batch is the whole queue as posted, each shared `$groups` at its current content; afterwards queue, super properties and both tables are empty even if the flush threw; scope cancelled; no live membership map; anonymous id and opt-out kept |
| JvmBackend.EventProperties | posthog-kmp/src/jvmMain/kotlin/com/samuolis/posthog/PostHog.jvm.kt:72-78 | layering: `$lib`/`$lib_version`, then super properties, then explicit properties; `distinct_id` = distinct id, else anonymous id, else "unknown", always wins |
| JvmBackend.EffectiveDistinctId | posthog-kmp/src/jvmMain/kotlin/com/samuolis/posthog/PostHog.jvm.kt:77 | the distinct id if set, else the anonymous id if set, else "unknown" |
| JvmBackend.Capture | posthog-kmp/src/jvmMain/kotlin/com/samuolis/posthog/PostHog.jvm.kt:69-93 | opted out: state unchanged and nothing launched; otherwise exactly one event at the tail, sharing the live membership map unless the explicit properties bring `$groups`, and a flush launched iff the new queue length reaches `flushAt` |
| JvmBackend.Screen | posthog-kmp/src/jvmMain/kotlin/com/samuolis/posthog/PostHog.jvm.kt:95-101 | a `$screen` event whose `$screen_name` is the screen name unless explicitly overridden |
| JvmBackend.IdentifyProperties | posthog-kmp/src/jvmMain/kotlin/com/samuolis/posthog/PostHog.jvm.kt:111-119 | `$anon_distinct_id` is the previous id; `$set`/`$set_once` are present iff their map is non-null and non-empty |
| JvmBackend.Identify | posthog-kmp/src/jvmMain/kotlin/com/samuolis/posthog/PostHog.jvm.kt:103-125 | distinct id becomes the new id, even when opted out; unless opted out, the `$identify` event carries the previous id and the new `distinct_id`; only a flag load (unless the scope is cancelled) and the capture's flush (iff the queue reaches `flushAt`) are launched; the rest of the state kept |
| JvmBackend.Alias | posthog-kmp/src/jvmMain/kotlin/com/samuolis/posthog/PostHog.jvm.kt:127-133 | a `$create_alias` event carrying the alias, whose `distinct_id` is the effective id; identity unchanged |
| JvmBackend.Reset | posthog-kmp/src/jvmMain/kotlin/com/samuolis/posthog/PostHog.jvm.kt:135-141 | distinct id = fresh anonymous id; super properties and both tables empty, so every flag read is absent; the membership map is detached; queue and opt-out kept |
| JvmBackend.Register | posthog-kmp/src/jvmMain/kotlin/com/samuolis/posthog/PostHog.jvm.kt:147-149 | sets one super property; no other key changes; registering `$groups` detaches the live membership map |
| JvmBackend.Unregister | posthog-kmp/src/jvmMain/kotlin/com/samuolis/posthog/PostHog.jvm.kt:151-153 | removes exactly that key; removing `$groups` detaches the live membership map |
| JvmBackend.Memberships | posthog-kmp/src/jvmMain/kotlin/com/samuolis/posthog/PostHog.jvm.kt:171 | the `$groups` super property when it is an object, else no memberships |
| JvmBackend.Group | posthog-kmp/src/jvmMain/kotlin/com/samuolis/posthog/PostHog.jvm.kt:155-174 | a `$groupidentify` event with type, key and `$group_set` if given, sharing the live membership map; then `$groups[type] = key`, other memberships and other super properties kept |
| JvmBackend.GroupProperties | posthog-kmp/src/jvmMain/kotlin/com/samuolis/posthog/PostHog.jvm.kt:160-166 | `$group_type` and `$group_key` always; `$group_set` iff the group properties are non-null and non-empty; never `distinct_id` or `$groups` |
| JvmBackend.JoinGroup | posthog-kmp/src/jvmMain/kotlin/com/samuolis/posthog/PostHog.jvm.kt:170-173 | `$groups` gains or replaces the entry for the type, written into the live membership map when there is one and into a new map that becomes live otherwise; no other map changes |
| JvmBackend.GroupUpdatesQueuedEvents | posthog-kmp/src/jvmMain/kotlin/com/samuolis/posthog/PostHog.jvm.kt:170-173 | after `group`, each earlier queued event sharing the live map stays queued as it was but is posted with the new `$groups`; so is the `$groupidentify` that `group` queued |
| JvmBackend.FirstGroupStartsMap | posthog-kmp/src/jvmMain/kotlin/com/samuolis/posthog/PostHog.jvm.kt:171-173 | without `$groups`, `group` starts a new live map holding only the new membership; its own event carries no `$groups` |
| JvmBackend.CaptureSharesLiveMap | posthog-kmp/src/jvmMain/kotlin/com/samuolis/posthog/PostHog.jvm.kt:72-78 | a capture without explicit `$groups` shares the live map and shows its content at capture time |
| JvmBackend.LaterGroupUpdatesMap | posthog-kmp/src/jvmMain/kotlin/com/samuolis/posthog/PostHog.jvm.kt:155-174 | with a live map, `group` updates that same map, and its `$groupidentify` shares it |
| JvmBackend.LaterGroupRewritesEarlierEvents | posthog-kmp/src/jvmMain/kotlin/com/samuolis/posthog/PostHog.jvm.kt:155-174 | `group(t, k1)`, a capture, `group(t, k2)`, flush: the capture and the second `$groupidentify` are queued showing `{t: k1}` and posted with `{t: k2}` |
| JvmBackend.IsFeatureEnabled | posthog-kmp/src/jvmMain/kotlin/com/samuolis/posthog/PostHog.jvm.kt:176-191 | over the backend tables: an override decides alone (Boolean as is, String iff it reads "true" ignoring case, anything else the default); else the synced value (Boolean as is, String iff it does not read "false" ignoring case, anything else enabled); absent, the default |
| JvmBackend.GetFeatureFlag | posthog-kmp/src/jvmMain/kotlin/com/samuolis/posthog/PostHog.jvm.kt:193-195 | the override if present, else the synced value, else nothing |
| JvmBackend.GetFeatureFlagPayload | posthog-kmp/src/jvmMain/kotlin/com/samuolis/posthog/PostHog.jvm.kt:197-199 | the synced `key + "_payload"` entry, present iff the synced table holds it |
| JvmBackend.GetAllFeatureFlags | posthog-kmp/src/jvmMain/kotlin/com/samuolis/posthog/PostHog.jvm.kt:201-203 | both tables' keys, the synced value winning on a shared key |
| JvmBackend.ReloadFeatureFlags | posthog-kmp/src/jvmMain/kotlin/com/samuolis/posthog/PostHog.jvm.kt:205-210 | launches one load-then-callback unless the scope is cancelled; state unchanged |
| JvmBackend.OverrideFeatureFlags | posthog-kmp/src/jvmMain/kotlin/com/samuolis/posthog/PostHog.jvm.kt:212-214 | every given override is upserted; other overrides and the synced table unchanged |
| JvmBackend.OptOut | posthog-kmp/src/jvmMain/kotlin/com/samuolis/posthog/PostHog.jvm.kt:216-218 | sets the flag and nothing else |
| JvmBackend.OptIn | posthog-kmp/src/jvmMain/kotlin/com/samuolis/posthog/PostHog.jvm.kt:220-222 | clears the flag and nothing else |
| JvmBackend.Flush | posthog-kmp/src/jvmMain/kotlin/com/samuolis/posthog/PostHog.jvm.kt:228-230 | launches one flush unless the scope is cancelled |
| JvmBackend.FlushDrain | posthog-kmp/src/jvmMain/kotlin/com/samuolis/posthog/PostHog.jvm.kt:254-279 | batch followed by the remaining queue is the old queue; something is sent iff configured, with a client and a non-empty queue, and then the queue is empty; the batch is posted with each shared `$groups` at its content at that moment |
| JvmBackend.Serialised | posthog-kmp/src/jvmMain/kotlin/com/samuolis/posthog/PostHog.jvm.kt:263-279 | an event sharing a membership map is posted with that map's current content under `$groups`; every other property as captured |
| JvmBackend.FlushComplete | posthog-kmp/src/jvmMain/kotlin/com/samuolis/posthog/PostHog.jvm.kt:276-291 | delivered (any status): nothing changes; threw: the batch goes back ahead of the events queued meanwhile |
| JvmBackend.FlushRequeuesAheadOfNewEvents | posthog-kmp/src/jvmMain/kotlin/com/samuolis/posthog/PostHog.jvm.kt:254-291 | a thrown flush leaves the original queue followed by the events captured meanwhile; a delivered one leaves only those |
| JvmBackend.FlagRequest | posthog-kmp/src/jvmMain/kotlin/com/samuolis/posthog/PostHog.jvm.kt:294-302 | a request is sent iff configured with a client; it carries the api key, the effective distinct id, and `groups` iff `$groups` is set |
| JvmBackend.LoadFeatureFlags | posthog-kmp/src/jvmMain/kotlin/com/samuolis/posthog/PostHog.jvm.kt:294-334 | without a request, or when the sync writes nothing, the state is unchanged; otherwise only the synced table changes, by the merge |
| JvmBackend.RunTask | posthog-kmp/src/jvmMain/kotlin/com/samuolis/posthog/PostHog.jvm.kt:205-210 | nothing runs on a cancelled scope; a load merges the response and only then runs the callback, which runs iff one was given; a flush drains and settles (queue empty if delivered, as before if it threw); the timer flushes and goes on |
| BackendTraffic.CaptureIsAdd | posthog-kmp/src/jvmMain/kotlin/com/samuolis/posthog/PostHog.jvm.kt:86 | a capture that is not opted out is `Add` of the event it queues; opted out, no traffic |
| BackendTraffic.DrainIsTake | posthog-kmp/src/jvmMain/kotlin/com/samuolis/posthog/PostHog.jvm.kt:258-261 | a drain with configuration and client is `Take`; without, no traffic |
| BackendTraffic.CompleteIsSettle | posthog-kmp/src/jvmMain/kotlin/com/samuolis/posthog/PostHog.jvm.kt:276-291 | completing the `i`-th batch in flight is `Settle(i, outcome)` |
| BackendTraffic.PerformIsApply | posthog-kmp/src/jvmMain/kotlin/com/samuolis/posthog/PostHog.jvm.kt:254-291 | each backend queue call moves queue, batches in flight and deliveries exactly as its traffic actions |
| BackendTraffic.TraceIsRun | posthog-kmp/src/jvmMain/kotlin/com/samuolis/posthog/PostHog.jvm.kt:254-291 | any sequence of backend queue calls moves events exactly as the traffic it amounts to |
| BackendTraffic.BackendLosesNothing | posthog-kmp/src/jvmMain/kotlin/com/samuolis/posthog/PostHog.jvm.kt:254-291 | from an empty queue, every event the backend queued is exactly once delivered, in flight or queued |
| BackendTraffic.BackendSerialFlushesKeepOrder | posthog-kmp/src/jvmMain/kotlin/com/samuolis/posthog/PostHog.jvm.kt:254-291 | from an empty queue, with no overlapping drains, delivered then in-flight then queued events are the queued events in order |
| BackendTraffic.FlushTaskIsDrainThenComplete | posthog-kmp/src/jvmMain/kotlin/com/samuolis/posthog/PostHog.jvm.kt:254-291 | a flush task run to its end equals a drain followed at once by completing the batch it took |
| Facade.Setup | posthog-kmp/src/commonMain/kotlin/io/github/samuolis/posthog/PostHog.kt:46-61 | a second setup while initialised changes nothing and launches nothing; the first sets config and identity and launches exactly the backend's preload and timer |
| Facade.IsSetup | posthog-kmp/src/commonMain/kotlin/io/github/samuolis/posthog/PostHog.kt:80 | true exactly when initialised |
| Facade.IsSetupFollowsLifecycle | posthog-kmp/src/commonMain/kotlin/io/github/samuolis/posthog/PostHog.kt:46-80 | not set up at start, set up after `setup`, not after `close`, set up again after a second `setup` |
| Facade.Close | posthog-kmp/src/commonMain/kotlin/io/github/samuolis/posthog/PostHog.kt:584-595 | becomes uninitialised, with no config and no facade super properties; the backend queue is emptied after posting it; no-op when uninitialised |
| Facade.CloseThenSetupIsAccepted | posthog-kmp/src/commonMain/kotlin/io/github/samuolis/posthog/PostHog.kt:584-595 | after close, setup succeeds again with the new configuration and identity |
| Facade.NothingRunsAfterReSetup | posthog-kmp/src/jvmMain/kotlin/com/samuolis/posthog/PostHog.jvm.kt:232-246 | after close and setup again, setup, flush, capture and reload launch nothing, and the reload callback never runs |
| Facade.MergedProperties | posthog-kmp/src/commonMain/kotlin/io/github/samuolis/posthog/PostHog.kt:99-103 | facade super properties overlaid by explicit ones, then `$groups` from the options; null exactly when all three are empty |
| Facade.Capture | posthog-kmp/src/commonMain/kotlin/io/github/samuolis/posthog/PostHog.kt:91-109 | gated on initialisation; otherwise the backend capture of the merged properties, facade state otherwise unchanged |
| Facade.CapturedEventLayering | posthog-kmp/src/commonMain/kotlin/io/github/samuolis/posthog/PostHog.kt:99-105 | in the queued event: `distinct_id` wins, then option groups, then explicit, then facade super, then backend super properties |
| Facade.ExplicitGroupsOverrideMemberships | posthog-kmp/src/commonMain/kotlin/io/github/samuolis/posthog/PostHog.kt:101-103 | option groups replace the accumulated `$groups` in that event only; the memberships are kept |
| Facade.Screen | posthog-kmp/src/commonMain/kotlin/io/github/samuolis/posthog/PostHog.kt:117-125 | a no-op until initialised; then, unless opted out, one `$screen` event carrying `$screen_name` joins the queue, a flush is launched iff the queue reaches `flushAt`, and nothing else in the backend changes |
| Facade.Identify | posthog-kmp/src/commonMain/kotlin/io/github/samuolis/posthog/PostHog.kt:138-150 | a no-op until initialised; then the backend distinct id becomes the new id and nothing else in the backend but the queue changes; an `$identify` event joins the queue unless opted out, and the queue is unchanged when opted out; only a flag load (unless the scope is cancelled) and a flush at the `flushAt` threshold are launched |
| Facade.Alias | posthog-kmp/src/commonMain/kotlin/io/github/samuolis/posthog/PostHog.kt:160-168 | a no-op until initialised; opted out, nothing changes and nothing is launched; otherwise a `$create_alias` event carrying the alias joins the queue and a flush is launched iff the queue reaches `flushAt`; identity and the rest of the backend unchanged |
| Facade.DirectCallsSkipFacadeSupers | posthog-kmp/src/commonMain/kotlin/io/github/samuolis/posthog/PostHog.kt:117-302 | the facade super properties make no difference to what `screen`, `identify`, `alias` and `group` do to the backend |
| Facade.Reset | posthog-kmp/src/commonMain/kotlin/io/github/samuolis/posthog/PostHog.kt:176-185 | both super-property maps emptied; identity renewed; every flag read absent; queue and opt-out kept |
| Facade.GetDistinctId | posthog-kmp/src/commonMain/kotlin/io/github/samuolis/posthog/PostHog.kt:192-201 | null until initialised, then the backend's distinct id |
| Facade.GetFeatureFlagResult | posthog-kmp/src/commonMain/kotlin/io/github/samuolis/posthog/PostHog.kt:422-430 | uninitialised: same key, null value, reason ERROR, code INVALID_CONFIG |
| Facade.GetPlatformId | posthog-kmp/src/commonMain/kotlin/io/github/samuolis/posthog/PostHog.kt:455-482 | null until initialised |
| Facade.Register | posthog-kmp/src/commonMain/kotlin/io/github/samuolis/posthog/PostHog.kt:211-220 | the facade map takes the value and no other key changes; the backend takes it unless null, which its map rejects |
| Facade.RegisterAll | posthog-kmp/src/commonMain/kotlin/io/github/samuolis/posthog/PostHog.kt:227-229 | every entry reaches the facade map; the non-null ones reach the backend map; a non-null `$groups` detaches the live membership map |
| Facade.RegisterAllIsAnyRegisterSequence | posthog-kmp/src/commonMain/kotlin/io/github/samuolis/posthog/PostHog.kt:227-229 | registering the entries one at a time, in any order, equals `registerAll` |
| Facade.Unregister | posthog-kmp/src/commonMain/kotlin/io/github/samuolis/posthog/PostHog.kt:236-245 | removes only that key from both maps |
| Facade.SetPersonProperties | posthog-kmp/src/commonMain/kotlin/io/github/samuolis/posthog/PostHog.kt:254-277 | a `$set` (or `$set_once`) event whose property of that name is the given map |
| Facade.Group | posthog-kmp/src/commonMain/kotlin/io/github/samuolis/posthog/PostHog.kt:290-302 | a no-op until initialised; then `$groups[type] = key` is recorded, other memberships and other super properties kept, the rest of the backend unchanged apart from the queue and the membership maps; a `$groupidentify` event joins the queue unless opted out, the queue is unchanged when opted out, and a flush is launched iff the queue reaches `flushAt` |
| Facade.ExceptionProperties | posthog-kmp/src/commonMain/kotlin/io/github/samuolis/posthog/PostHog.kt:501-504 | exactly the four `$exception_*` keys: class name or "Unknown", message or "No message", the stack trace, the lower-case level |
| Facade.CaptureException | posthog-kmp/src/commonMain/kotlin/io/github/samuolis/posthog/PostHog.kt:493-513 | an `$exception` event with the four `$exception_*` properties; additional properties override them |
| Facade.IsFeatureEnabled | posthog-kmp/src/commonMain/kotlin/io/github/samuolis/posthog/PostHog.kt:313-322 | the default until initialised; then an override decides alone (Boolean as is, String iff it reads "true" ignoring case, anything else the default); else the synced value (Boolean as is, String iff it does not read "false" ignoring case, anything else enabled); absent, the default |
| Facade.GetFeatureFlag | posthog-kmp/src/commonMain/kotlin/io/github/samuolis/posthog/PostHog.kt:332-341 | null until initialised; then present iff either table holds the key, the override first |
| Facade.GetFeatureFlagPayload | posthog-kmp/src/commonMain/kotlin/io/github/samuolis/posthog/PostHog.kt:349-358 | null until initialised; then present iff the synced table holds `key + "_payload"`, whose value it is; overrides are not consulted |
| Facade.ReloadThenPayload | posthog-kmp/src/jvmMain/kotlin/com/samuolis/posthog/PostHog.jvm.kt:197-210 | after `reloadFeatureFlags(callback)` and its load with a payload for `key`, the callback runs and the payload read returns that payload |
| Facade.GetAllFeatureFlags | posthog-kmp/src/commonMain/kotlin/io/github/samuolis/posthog/PostHog.kt:365-374 | empty until initialised; then the keys of both tables, each with its synced value if it has one, else its override |
| Facade.ReloadFeatureFlags | posthog-kmp/src/commonMain/kotlin/io/github/samuolis/posthog/PostHog.kt:384-396 | uninitialised: the callback runs once at once, nothing else changes or is launched; initialised: a load followed by the callback is launched |
| Facade.OverrideFeatureFlags | posthog-kmp/src/commonMain/kotlin/io/github/samuolis/posthog/PostHog.kt:403-411 | gated; afterwards every overridden key reads as its override |
| Facade.OptOut | posthog-kmp/src/commonMain/kotlin/io/github/samuolis/posthog/PostHog.kt:522-530 | gated; afterwards opted out; queued events kept |
| Facade.OptIn | posthog-kmp/src/commonMain/kotlin/io/github/samuolis/posthog/PostHog.kt:535-543 | opted in afterwards; queued events kept |
| Facade.IsOptedOut | posthog-kmp/src/commonMain/kotlin/io/github/samuolis/posthog/PostHog.kt:550-559 | false until initialised, then the backend flag |
| Facade.OptedOutCaptureSendsNothing | posthog-kmp/src/jvmMain/kotlin/com/samuolis/posthog/PostHog.jvm.kt:69-70 | while opted out a capture changes nothing, so a flush sends nothing new |
| Facade.Flush | posthog-kmp/src/commonMain/kotlin/io/github/samuolis/posthog/PostHog.kt:569-577 | launches nothing until initialised |

## Left out

- HTTP calls, JSON text encoding and decoding, and status codes. A flush
  outcome is `Delivered | Threw`. A flag sync arrives as an already decoded
  response. Payloads arrive as their JSON text.
- The coroutine scope, `runBlocking` and the timer loop. Launches are
  returned as tasks, and `JvmBackend.RunTask` runs one to its end. The
  timer's period and `flushIntervalSeconds` are not modelled. Interleavings
  are modelled only for the queue (`EventQueue.Action`,
  `BackendTraffic.Call`). A task cancelled while it runs is not modelled.
- UUID and clock access become parameters. Debug logging and `setDebug` are
  not modelled.
- The Android, iOS, Swift, JS, WasmJS and macOS actuals. They forward to
  vendor SDKs or only print.
- JvmBackend.Register: requires a non-null value. The facade's `Register`
  models the throw on a null value.
- Facade.OverrideFeatureFlags: requires non-null values. With a null value
  `putAll` throws after an unspecified subset of the entries was stored.
- JvmBackend.JoinGroup: a `$groups` object registered by the caller is
  treated as a value. It is copied into a new membership map. The source
  would update the caller's own map in place, so events queued since the
  registration would change too. If that map is read-only, the source
  throws instead.
- JvmBackend.FlushDrain: the drain is one atomic step. The code copies the
  queue with `toList()` and then empties it with `clear()`, two separate
  calls. A capture that lands between them is cleared unsent and lost. Two
  flushes that both copy before either clears post the same events twice,
  and requeue them twice if both throw. `EventQueue.NothingLostOrDuplicated`
  and `BackendTraffic.BackendLosesNothing` hold only for the atomic drain.
- JvmBackend.FlushDrain: the batch is serialised at the drain. The source
  serialises inside the post, just after the drain. A `group` on another
  thread in that window could still change what is posted.
- FlagStore.StoredFlagValue: Kotlin's case-insensitive comparison also
  matches non-ASCII letters whose upper case is ASCII, such as the long s
  against `s`. The model compares ASCII letters only.
- BackendTraffic.Call: only `capture` is a call. `screen`, `identify`,
  `alias` and `group` queue through that same capture. `close` and `reset`
  are not part of the traffic model.
- Facade.GetFeatureFlagResult: the JVM backend defines no
  `platformGetFeatureFlagResult`, so the initialised answer is a parameter.
  The `UNKNOWN` error result of the catch branch is not modelled.
  `FeatureFlagResult` is not part of this model's sources; only the values
  the facade uses are modelled.
- Facade.GetPlatformId: the JVM backend defines no
  `platformGetAnonymousId`/`platformGetSessionId`, so the initialised answer
  is a parameter.
- The facade's catch-all for unexpected exceptions. Only the null-value
  throw of `register` is modelled.
- `maxQueueSize`, `maxBatchSize` and `CaptureOptions.timestamp`. The code
  never reads them.
- `PostHogContext`, the sample application and the build scripts.
