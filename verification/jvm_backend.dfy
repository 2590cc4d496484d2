/**
  The JVM backend: the only platform that implements analytics itself. Its
  process-wide state is one immutable record; every public operation is a
  pure transition. Work the source launches on its coroutine scope is
  returned as a list of tasks; running a task is a separate transition that
  takes the network outcome as a parameter (`FlushDrain`/`FlushComplete`,
  `LoadFeatureFlags`). Fresh UUIDs and timestamps are parameters too.
*/
module JvmBackend {
  import opened Wrappers
  import opened JsonValues
  import opened EventQueue
  import FlagStore
  import Config
  import PostHogEvents
  import PostHogProperties
  import Text

  const LibName: string := "posthog-kmp"
  const LibVersion: string := "0.1.0"
  /** The backend writes the person id under `distinct_id`, without a `$`. */
  const DistinctIdKey: string := "distinct_id"
  const AliasKey: string := "alias"
  const CreateAliasEvent: string := "$create_alias"
  const UnknownId: string := "unknown"

  /** Work launched on the coroutine scope. */
  datatype Task =
    | FlushTimerTask                    // the periodic flush loop
    | FlushTask                         // one `flushEvents()`
    | LoadFlagsTask(thenCallback: bool) // `loadFeatureFlags()`, then the reload callback if any

  datatype Backend = Backend(
    config: Option<Config.Settings>,
    distinctId: Option<string>,
    anonymousId: Option<string>,
    superProperties: map<string, Json>,
    queue: seq<Event>,
    featureFlags: map<string, Json>,     // synced values and `_payload` entries
    overrides: map<string, Json>,
    optedOut: bool,
    hasClient: bool,                     // `httpClient != null`
    scopeCancelled: bool,                // `scope.cancel()` has run; the scope is never recreated
    groupMaps: seq<map<string, Json>>,   // every membership map `group` created, with its current content
    liveGroups: Option<nat>)             // which of them the `$groups` super property currently is

  /** The state before the first setup. */
  const Fresh: Backend := Backend(None, None, None, map[], [], map[], map[], false, false, false, [], None)

  /** A transition: the next state and the tasks launched on the scope. */
  datatype Step<S> = Step(next: S, launched: seq<Task>)

  /**
    The tables are `ConcurrentHashMap`s, which never hold null; and when
    `$groups` is a membership map created by `group`, the super property shows
    that map's current content.
  */
  predicate Valid(b: Backend) {
    && NoNullValues(b.superProperties) && NoNullValues(b.featureFlags) && NoNullValues(b.overrides)
    && (b.liveGroups.Some? ==>
          && b.liveGroups.value < |b.groupMaps|
          && PostHogProperties.Groups in b.superProperties
          && b.superProperties[PostHogProperties.Groups] == JObj(b.groupMaps[b.liveGroups.value]))
  }

  /** `scope.launch { … }`: nothing runs on a cancelled scope. */
  function Launch(b: Backend, t: Task): seq<Task> {
    if b.scopeCancelled then [] else [t]
  }

  /** The id events and flag requests are sent under: `distinctId ?: anonymousId ?: "unknown"`. */
  function EffectiveDistinctId(b: Backend): (r: string)
    ensures b.distinctId.Some? ==> r == b.distinctId.value
    ensures b.distinctId.None? && b.anonymousId.Some? ==> r == b.anonymousId.value
    ensures b.distinctId.None? && b.anonymousId.None? ==> r == UnknownId
  {
    b.distinctId.GetOr(b.anonymousId.GetOr(UnknownId))
  }

  function Explicit(props: Option<map<string, Json>>): map<string, Json> {
    props.GetOr(map[])
  }

  /** A nullable string as a property value. */
  function Nullable(s: Option<string>): Json {
    match s
    case Some(v) => JStr(v)
    case None => JNull
  }

  /** `!m.isNullOrEmpty()`. */
  predicate Given(m: Option<map<string, Json>>) {
    m.Some? && |m.value| > 0
  }

  /** `q2` is `q1` with one event added at the tail, named `name`. */
  predicate AppendedOne(q1: seq<Event>, q2: seq<Event>, name: string) {
    |q2| == |q1| + 1 && q2[..|q1|] == q1 && q2[|q1|].name == name
  }

  /** The only tasks a capture on `b` launches: one flush, exactly when the grown queue reaches `flushAt`. */
  predicate LaunchesFlushAtThreshold(b: Backend, launched: seq<Task>) {
    (forall t :: t in launched ==> t == FlushTask) &&
    (FlushTask in launched <==>
       !b.optedOut && b.config.Some? && !b.scopeCancelled && |b.queue| + 1 >= b.config.value.flushAt)
  }

  /** The property keys the backend writes are pairwise distinct. */
  lemma KeysDistinct()
    ensures DistinctIdKey != PostHogProperties.AnonDistinctId && DistinctIdKey != PostHogEvents.Set
    ensures DistinctIdKey != PostHogEvents.SetOnce && PostHogEvents.Set != PostHogEvents.SetOnce
    ensures PostHogProperties.AnonDistinctId != PostHogEvents.Set
    ensures PostHogProperties.AnonDistinctId != PostHogEvents.SetOnce
    ensures DistinctIdKey != PostHogProperties.GroupType && DistinctIdKey != PostHogProperties.GroupKey
    ensures DistinctIdKey != PostHogProperties.GroupSet && DistinctIdKey != PostHogProperties.Groups
    ensures PostHogProperties.Groups != PostHogProperties.GroupType && PostHogProperties.Groups != PostHogProperties.GroupKey
    ensures PostHogProperties.Groups != PostHogProperties.GroupSet
    ensures PostHogProperties.GroupType != PostHogProperties.GroupKey
    ensures DistinctIdKey != AliasKey && DistinctIdKey != PostHogProperties.ScreenName
  {
    assert DistinctIdKey[0] == 'd' && AliasKey[0] == 'a';
    assert PostHogProperties.AnonDistinctId[1] == 'a';
    assert PostHogEvents.Set[1] == 's' && PostHogEvents.SetOnce[1] == 's';
    assert |PostHogEvents.Set| == 4 && |PostHogEvents.SetOnce| == 9;
    assert PostHogProperties.GroupType[7] == 't' && PostHogProperties.GroupKey[7] == 'k';
    assert PostHogProperties.GroupSet[7] == 's' && |PostHogProperties.Groups| == 7;
    assert PostHogProperties.ScreenName[0] == '$';
  }

  // ------------------------------------------------------------ lifecycle

  /**
    `platformSetup`: store the configuration, open the client, start a fresh
    identity (distinct id = new anonymous id), preload flags when configured,
    start the flush timer. The opt-out flag and the queue are left alone.
  */
  function Setup(b: Backend, cfg: Config.Settings, uuid: string): (r: Step<Backend>)
    ensures r.next.config == Some(cfg) && r.next.hasClient
    ensures r.next.anonymousId == Some(uuid) && r.next.distinctId == Some(uuid)
    ensures r.next.(config := b.config, hasClient := b.hasClient, anonymousId := b.anonymousId,
                    distinctId := b.distinctId) == b
    ensures LoadFlagsTask(false) in r.launched <==> cfg.preloadFeatureFlags && !b.scopeCancelled
    ensures FlushTimerTask in r.launched <==> !b.scopeCancelled
    ensures forall t :: t in r.launched ==> t == LoadFlagsTask(false) || t == FlushTimerTask
    ensures Valid(b) ==> Valid(r.next)
  {
    var next := b.(config := Some(cfg), hasClient := true, anonymousId := Some(uuid), distinctId := Some(uuid));
    Step(next, (if cfg.preloadFeatureFlags then Launch(b, LoadFlagsTask(false)) else []) + Launch(b, FlushTimerTask))
  }

  /**
    `platformClose`: one synchronous flush whose outcome is `outcome`, then
    everything is released and cleared, including a batch the flush put back.
    The anonymous id and the opt-out flag survive. `attempted` is what the
    flush put on the wire.
  */
  datatype Closing<S> = Closing(next: S, attempted: seq<Event>)

  function Close(b: Backend, outcome: Outcome): (r: Closing<Backend>)
    ensures r.attempted == (if b.config.Some? && b.hasClient then Sent(b.queue, b.groupMaps) else [])
    ensures r.next.queue == [] && r.next.superProperties == map[]
    ensures r.next.featureFlags == map[] && r.next.overrides == map[]
    ensures r.next.config == None && !r.next.hasClient && r.next.distinctId == None && r.next.scopeCancelled
    ensures r.next.liveGroups == None
    ensures r.next.anonymousId == b.anonymousId && r.next.optedOut == b.optedOut
    ensures Valid(r.next)
  {
    var drained := FlushDrain(b);
    var settled := if drained.batch == [] then drained.next else FlushComplete(drained.next, drained.batch, outcome);
    Closing(settled.(config := None, hasClient := false, distinctId := None, superProperties := map[],
                     queue := [], featureFlags := map[], overrides := map[], scopeCancelled := true,
                     liveGroups := None),
            drained.sent)
  }

  // ------------------------------------------------------------ capture

  /**
    The properties of a captured event, later layers winning: `$lib` and
    `$lib_version`, the super properties, the explicit properties, and
    `distinct_id`, which always wins.
  */
  function EventProperties(b: Backend, props: Option<map<string, Json>>): (r: map<string, Json>)
    ensures r.Keys == {DistinctIdKey, PostHogProperties.Lib, PostHogProperties.LibVersion}
                      + b.superProperties.Keys + Explicit(props).Keys
    ensures r[DistinctIdKey] == JStr(EffectiveDistinctId(b))
    ensures forall k :: k != DistinctIdKey && k in Explicit(props) ==> r[k] == Explicit(props)[k]
    ensures forall k :: k != DistinctIdKey && k !in Explicit(props) && k in b.superProperties ==>
              r[k] == b.superProperties[k]
    ensures PostHogProperties.Lib !in Explicit(props) && PostHogProperties.Lib !in b.superProperties ==>
              r[PostHogProperties.Lib] == JStr(LibName)
    ensures PostHogProperties.LibVersion !in Explicit(props) && PostHogProperties.LibVersion !in b.superProperties ==>
              r[PostHogProperties.LibVersion] == JStr(LibVersion)
  {
    map[PostHogProperties.Lib := JStr(LibName), PostHogProperties.LibVersion := JStr(LibVersion)]
      + b.superProperties + Explicit(props)
      + map[DistinctIdKey := JStr(EffectiveDistinctId(b))]
  }

  /**
    The event a capture queues. Its `$groups` entry, when it comes from the
    super properties, is the live membership map itself, not a copy.
  */
  function CapturedEvent(b: Backend, name: string, props: Option<map<string, Json>>, now: string): Event {
    var shared := if PostHogProperties.Groups in Explicit(props) then None else b.liveGroups;
    Event(name, EventProperties(b, props), now, shared)
  }

  /**
    `platformCapture`: nothing at all while opted out; otherwise one event at
    the tail of the queue, and a flush launched when the queue has reached
    `flushAt`. The event shares the live membership map unless the explicit
    properties bring their own `$groups`.
  */
  function Capture(b: Backend, name: string, props: Option<map<string, Json>>, now: string): (r: Step<Backend>)
    ensures b.optedOut ==> r == Step(b, [])
    ensures !b.optedOut ==> AppendedOne(b.queue, r.next.queue, name)
    ensures !b.optedOut ==> r.next.queue[|b.queue|].properties == EventProperties(b, props)
    ensures !b.optedOut ==> r.next.queue[|b.queue|].timestamp == now
    ensures !b.optedOut ==>
              (r.next.queue[|b.queue|].sharedGroups.Some? <==>
                 b.liveGroups.Some? && PostHogProperties.Groups !in Explicit(props))
    ensures !b.optedOut && r.next.queue[|b.queue|].sharedGroups.Some? ==>
              r.next.queue[|b.queue|].sharedGroups == b.liveGroups
    ensures r.next.(queue := b.queue) == b
    ensures LaunchesFlushAtThreshold(b, r.launched)
  {
    if b.optedOut then Step(b, [])
    else
      var next := b.(queue := Enqueue(b.queue, CapturedEvent(b, name, props, now)));
      var flush := if b.config.Some? && |next.queue| >= b.config.value.flushAt then Launch(b, FlushTask) else [];
      Step(next, flush)
  }

  /** `platformScreen`: a `$screen` event; an explicit `$screen_name` beats the screen name. */
  function Screen(b: Backend, screenName: string, props: Option<map<string, Json>>, now: string): (r: Step<Backend>)
    ensures b.optedOut ==> r == Step(b, [])
    ensures !b.optedOut ==> AppendedOne(b.queue, r.next.queue, PostHogEvents.Screen)
    ensures !b.optedOut ==>
              var p := r.next.queue[|b.queue|].properties;
              PostHogProperties.ScreenName in p &&
              p[PostHogProperties.ScreenName] ==
                (if PostHogProperties.ScreenName in Explicit(props) then Explicit(props)[PostHogProperties.ScreenName]
                 else JStr(screenName))
    ensures r.next.(queue := b.queue) == b
    ensures LaunchesFlushAtThreshold(b, r.launched)
  {
    Capture(b, PostHogEvents.Screen, Some(map[PostHogProperties.ScreenName := JStr(screenName)] + Explicit(props)), now)
  }

  /** The explicit properties of an `$identify` event. */
  function IdentifyProperties(previous: Option<string>, userProps: Option<map<string, Json>>,
                              setOnce: Option<map<string, Json>>): (r: map<string, Json>)
    ensures DistinctIdKey !in r
    ensures PostHogProperties.AnonDistinctId in r && r[PostHogProperties.AnonDistinctId] == Nullable(previous)
    ensures PostHogEvents.Set in r <==> Given(userProps)
    ensures Given(userProps) ==> r[PostHogEvents.Set] == JObj(userProps.value)
    ensures PostHogEvents.SetOnce in r <==> Given(setOnce)
    ensures Given(setOnce) ==> r[PostHogEvents.SetOnce] == JObj(setOnce.value)
  {
    KeysDistinct();
    map[PostHogProperties.AnonDistinctId := Nullable(previous)]
    + (if Given(userProps) then map[PostHogEvents.Set := JObj(userProps.value)] else map[])
    + (if Given(setOnce) then map[PostHogEvents.SetOnce := JObj(setOnce.value)] else map[])
  }

  /**
    `platformIdentify`: the distinct id becomes `id` (even while opted out),
    an `$identify` event records the previous distinct id, and a flag reload
    is launched.
  */
  function Identify(b: Backend, id: string, userProps: Option<map<string, Json>>,
                    setOnce: Option<map<string, Json>>, now: string): (r: Step<Backend>)
    ensures r.next.distinctId == Some(id)
    ensures r.next.(distinctId := b.distinctId, queue := b.queue) == b
    ensures b.optedOut ==> r.next.queue == b.queue
    ensures !b.optedOut ==> AppendedOne(b.queue, r.next.queue, PostHogEvents.Identify)
    ensures !b.optedOut ==>
              var p := r.next.queue[|b.queue|].properties;
              && PostHogProperties.AnonDistinctId in p && p[PostHogProperties.AnonDistinctId] == Nullable(b.distinctId)
              && DistinctIdKey in p && p[DistinctIdKey] == JStr(id)
              && (Given(userProps) ==> PostHogEvents.Set in p && p[PostHogEvents.Set] == JObj(userProps.value))
              && (!Given(userProps) ==> (PostHogEvents.Set in p <==> PostHogEvents.Set in b.superProperties))
              && (Given(setOnce) ==> PostHogEvents.SetOnce in p && p[PostHogEvents.SetOnce] == JObj(setOnce.value))
              && (!Given(setOnce) ==> (PostHogEvents.SetOnce in p <==> PostHogEvents.SetOnce in b.superProperties))
    ensures LoadFlagsTask(false) in r.launched <==> !b.scopeCancelled
    ensures forall t :: t in r.launched ==> t == FlushTask || t == LoadFlagsTask(false)
    ensures FlushTask in r.launched <==>
              !b.optedOut && b.config.Some? && !b.scopeCancelled && |b.queue| + 1 >= b.config.value.flushAt
    ensures Valid(b) ==> Valid(r.next)
  {
    var identified := b.(distinctId := Some(id));
    var captured := Capture(identified, PostHogEvents.Identify, Some(IdentifyProperties(b.distinctId, userProps, setOnce)), now);
    Step(captured.next, captured.launched + Launch(b, LoadFlagsTask(false)))
  }

  /**
    `platformAlias`: a `$create_alias` event carrying the alias. Its explicit
    `distinct_id` is overwritten by the capture layering; the identity is
    unchanged.
  */
  function Alias(b: Backend, alias: string, now: string): (r: Step<Backend>)
    ensures b.optedOut ==> r == Step(b, [])
    ensures !b.optedOut ==> AppendedOne(b.queue, r.next.queue, CreateAliasEvent)
    ensures !b.optedOut ==>
              var p := r.next.queue[|b.queue|].properties;
              AliasKey in p && p[AliasKey] == JStr(alias) && DistinctIdKey in p && p[DistinctIdKey] == JStr(EffectiveDistinctId(b))
    ensures r.next.(queue := b.queue) == b
    ensures LaunchesFlushAtThreshold(b, r.launched)
  {
    KeysDistinct();
    Capture(b, CreateAliasEvent, Some(map[DistinctIdKey := Nullable(b.distinctId), AliasKey := JStr(alias)]), now)
  }

  // ------------------------------------------------------------ identity and super properties

  /**
    `platformReset`: a fresh anonymous id that is also the distinct id; super
    properties (group memberships included), synced flags and overrides
    emptied; queue, opt-out flag and configuration kept.
  */
  function Reset(b: Backend, uuid: string): (r: Backend)
    ensures r.anonymousId == Some(uuid) && r.distinctId == Some(uuid)
    ensures r.superProperties == map[] && r.featureFlags == map[] && r.overrides == map[]
    ensures r.liveGroups == None && r.groupMaps == b.groupMaps
    ensures forall key :: FlagStore.GetFeatureFlag(r.overrides, r.featureFlags, key).None?
    ensures r.queue == b.queue && r.optedOut == b.optedOut && r.config == b.config
    ensures r.hasClient == b.hasClient && r.scopeCancelled == b.scopeCancelled
    ensures Valid(r)
  {
    b.(anonymousId := Some(uuid), distinctId := Some(uuid), superProperties := map[],
       featureFlags := map[], overrides := map[], liveGroups := None)
  }

  /** Replacing or removing `$groups` detaches the live membership map, which stays as it is. */
  function Detached(b: Backend, key: string): Option<nat> {
    if key == PostHogProperties.Groups then None else b.liveGroups
  }

  /**
    `platformRegister`: set one super property; a null value would throw, so
    it is excluded here. Registering `$groups` detaches the membership map
    earlier events share.
  */
  function Register(b: Backend, key: string, value: Json): (r: Backend)
    requires value != JNull
    ensures key in r.superProperties && r.superProperties[key] == value
    ensures forall k :: k != key ==> (k in r.superProperties <==> k in b.superProperties)
    ensures forall k :: k != key && k in b.superProperties ==> r.superProperties[k] == b.superProperties[k]
    ensures key == PostHogProperties.Groups ==> r.liveGroups == None
    ensures key != PostHogProperties.Groups ==> r.liveGroups == b.liveGroups
    ensures r.(superProperties := b.superProperties, liveGroups := b.liveGroups) == b
    ensures Valid(b) ==> Valid(r)
  {
    b.(superProperties := b.superProperties[key := value], liveGroups := Detached(b, key))
  }

  /** `platformUnregister`: remove one super property; removing `$groups` detaches its map. */
  function Unregister(b: Backend, key: string): (r: Backend)
    ensures r.superProperties.Keys == b.superProperties.Keys - {key}
    ensures forall k :: k in r.superProperties ==> r.superProperties[k] == b.superProperties[k]
    ensures key == PostHogProperties.Groups ==> r.liveGroups == None
    ensures key != PostHogProperties.Groups ==> r.liveGroups == b.liveGroups
    ensures r.(superProperties := b.superProperties, liveGroups := b.liveGroups) == b
    ensures Valid(b) ==> Valid(r)
  {
    b.(superProperties := b.superProperties - {key}, liveGroups := Detached(b, key))
  }

  /** The memberships kept under `$groups`, when that super property is an object. */
  function Memberships(supers: map<string, Json>): (r: map<string, Json>)
    ensures PostHogProperties.Groups !in supers ==> r == map[]
    ensures PostHogProperties.Groups in supers && !supers[PostHogProperties.Groups].JObj? ==> r == map[]
    ensures PostHogProperties.Groups in supers && supers[PostHogProperties.Groups].JObj? ==>
              JObj(r) == supers[PostHogProperties.Groups]
  {
    if PostHogProperties.Groups in supers && supers[PostHogProperties.Groups].JObj?
    then supers[PostHogProperties.Groups].fields else map[]
  }

  /**
    `platformGroup`: a `$groupidentify` event, then `$groups[type] := key`,
    keeping the memberships of every other type. The membership is recorded
    even while opted out. The update writes into the live membership map when
    there is one, so every queued event sharing it, the `$groupidentify` just
    captured included, is sent with the new membership; otherwise a new map
    becomes the live one.
  */
  function Group(b: Backend, groupType: string, groupKey: string,
                 groupProps: Option<map<string, Json>>, now: string): (r: Step<Backend>)
    ensures PostHogProperties.Groups in r.next.superProperties
    ensures r.next.superProperties[PostHogProperties.Groups].JObj?
    ensures var after := r.next.superProperties[PostHogProperties.Groups].fields;
              && after.Keys == Memberships(b.superProperties).Keys + {groupType}
              && after[groupType] == JStr(groupKey)
              && forall t :: t in Memberships(b.superProperties) && t != groupType ==>
                   after[t] == Memberships(b.superProperties)[t]
    ensures forall k :: k != PostHogProperties.Groups ==>
              (k in r.next.superProperties <==> k in b.superProperties) &&
              (k in b.superProperties ==> r.next.superProperties[k] == b.superProperties[k])
    ensures r.next.(superProperties := b.superProperties, queue := b.queue,
                    groupMaps := b.groupMaps, liveGroups := b.liveGroups) == b
    ensures b.optedOut ==> r.next.queue == b.queue
    ensures !b.optedOut ==> AppendedOne(b.queue, r.next.queue, PostHogEvents.GroupIdentify)
    ensures !b.optedOut ==> r.next.queue[|b.queue|].sharedGroups == b.liveGroups
    ensures !b.optedOut ==>
              var p := r.next.queue[|b.queue|].properties;
              && PostHogProperties.GroupType in p && p[PostHogProperties.GroupType] == JStr(groupType)
              && PostHogProperties.GroupKey in p && p[PostHogProperties.GroupKey] == JStr(groupKey)
              && (Given(groupProps) ==> PostHogProperties.GroupSet in p
                                         && p[PostHogProperties.GroupSet] == JObj(groupProps.value))
              && (PostHogProperties.Groups in p <==> PostHogProperties.Groups in b.superProperties)
              && (PostHogProperties.Groups in p ==> p[PostHogProperties.Groups] == b.superProperties[PostHogProperties.Groups])
    ensures LaunchesFlushAtThreshold(b, r.launched)
    ensures Valid(b) ==> Valid(r.next)
  {
    var captured := Capture(b, PostHogEvents.GroupIdentify, Some(GroupProperties(groupType, groupKey, groupProps)), now);
    Step(JoinGroup(captured.next, groupType, groupKey), captured.launched)
  }

  /** The explicit properties of a `$groupidentify` event. */
  function GroupProperties(groupType: string, groupKey: string, groupProps: Option<map<string, Json>>)
    : (r: map<string, Json>)
    ensures DistinctIdKey !in r && PostHogProperties.Groups !in r
    ensures PostHogProperties.GroupType in r && r[PostHogProperties.GroupType] == JStr(groupType)
    ensures PostHogProperties.GroupKey in r && r[PostHogProperties.GroupKey] == JStr(groupKey)
    ensures PostHogProperties.GroupSet in r <==> Given(groupProps)
    ensures Given(groupProps) ==> r[PostHogProperties.GroupSet] == JObj(groupProps.value)
  {
    KeysDistinct();
    map[PostHogProperties.GroupType := JStr(groupType), PostHogProperties.GroupKey := JStr(groupKey)]
    + (if Given(groupProps) then map[PostHogProperties.GroupSet := JObj(groupProps.value)] else map[])
  }

  /**
    The membership update `group` performs after capturing its event: the
    live membership map is changed in place, or, when `$groups` is not one,
    a new map holding its memberships becomes the live one. No other map
    changes.
  */
  function JoinGroup(b: Backend, groupType: string, groupKey: string): (r: Backend)
    ensures PostHogProperties.Groups in r.superProperties
    ensures r.superProperties[PostHogProperties.Groups].JObj?
    ensures var after := r.superProperties[PostHogProperties.Groups].fields;
              && after.Keys == Memberships(b.superProperties).Keys + {groupType}
              && after[groupType] == JStr(groupKey)
              && forall t :: t in Memberships(b.superProperties) && t != groupType ==>
                   after[t] == Memberships(b.superProperties)[t]
    ensures forall k :: k != PostHogProperties.Groups ==>
              (k in r.superProperties <==> k in b.superProperties) &&
              (k in b.superProperties ==> r.superProperties[k] == b.superProperties[k])
    ensures r.liveGroups.Some? && r.liveGroups.value < |r.groupMaps|
    ensures JObj(r.groupMaps[r.liveGroups.value]) == r.superProperties[PostHogProperties.Groups]
    ensures Valid(b) && b.liveGroups.Some? ==> r.liveGroups == b.liveGroups && |r.groupMaps| == |b.groupMaps|
    ensures b.liveGroups.None? ==> r.liveGroups == Some(|b.groupMaps|) && |r.groupMaps| == |b.groupMaps| + 1
    ensures |b.groupMaps| <= |r.groupMaps|
    ensures forall m :: 0 <= m < |b.groupMaps| && Some(m) != r.liveGroups ==> r.groupMaps[m] == b.groupMaps[m]
    ensures r.(superProperties := b.superProperties, groupMaps := b.groupMaps, liveGroups := b.liveGroups) == b
    ensures Valid(b) ==> Valid(r)
  {
    var joined := Memberships(b.superProperties)[groupType := JStr(groupKey)];
    var supers := b.superProperties[PostHogProperties.Groups := JObj(joined)];
    if b.liveGroups.Some? && b.liveGroups.value < |b.groupMaps| then
      b.(superProperties := supers, groupMaps := b.groupMaps[b.liveGroups.value := joined])
    else
      b.(superProperties := supers, groupMaps := b.groupMaps + [joined], liveGroups := Some(|b.groupMaps|))
  }

  /**
    After `group`, an event queued earlier that shared the live membership
    map stays queued unchanged, yet is sent with the `$groups` the super
    properties now hold, whatever it held when it was captured; so is the
    `$groupidentify` that `group` itself queued.
  */
  lemma GroupUpdatesQueuedEvents(b: Backend, groupType: string, groupKey: string,
                                 groupProps: Option<map<string, Json>>, now: string, i: nat)
    requires Valid(b) && b.liveGroups.Some?
    requires i < |b.queue| && b.queue[i].sharedGroups == b.liveGroups
    ensures var r := Group(b, groupType, groupKey, groupProps, now).next;
      && i < |r.queue| && r.queue[i] == b.queue[i]
      && var sent := Serialised(r.queue[i], r.groupMaps);
      && PostHogProperties.Groups in sent.properties
      && sent.properties[PostHogProperties.Groups] == r.superProperties[PostHogProperties.Groups]
    ensures var r := Group(b, groupType, groupKey, groupProps, now).next;
      !b.optedOut ==>
        && |r.queue| == |b.queue| + 1
        && var sent := Serialised(r.queue[|b.queue|], r.groupMaps);
        && PostHogProperties.Groups in sent.properties
        && sent.properties[PostHogProperties.Groups] == r.superProperties[PostHogProperties.Groups]
  {
  }

  // ------------------------------------------------------------ feature flags

  /** `platformIsFeatureEnabled`: an override decides alone; without one, the synced value. */
  function IsFeatureEnabled(b: Backend, key: string, default: bool): (r: bool)
    ensures key !in b.overrides && key !in b.featureFlags ==> r == default
    ensures key in b.overrides && b.overrides[key].JBool? ==> r == b.overrides[key].b
    ensures key in b.overrides && b.overrides[key].JStr? ==>
              (r <==> Text.EqualsIgnoringCase(b.overrides[key].s, "true"))
    ensures key in b.overrides && !b.overrides[key].JBool? && !b.overrides[key].JStr? ==> r == default
    ensures key !in b.overrides && key in b.featureFlags && b.featureFlags[key].JBool? ==> r == b.featureFlags[key].b
    ensures key !in b.overrides && key in b.featureFlags && b.featureFlags[key].JStr? ==>
              (r <==> !Text.EqualsIgnoringCase(b.featureFlags[key].s, "false"))
    ensures (key !in b.overrides && key in b.featureFlags &&
             !b.featureFlags[key].JBool? && !b.featureFlags[key].JStr?) ==> r
  {
    FlagStore.IsFeatureEnabled(b.overrides, b.featureFlags, key, default)
  }

  /** `platformGetFeatureFlag`: the override if there is one, else the synced value. */
  function GetFeatureFlag(b: Backend, key: string): (r: Option<Json>)
    ensures r.Some? <==> key in b.overrides || key in b.featureFlags
    ensures key in b.overrides ==> r == Some(b.overrides[key])
    ensures key !in b.overrides && key in b.featureFlags ==> r == Some(b.featureFlags[key])
  {
    FlagStore.GetFeatureFlag(b.overrides, b.featureFlags, key)
  }

  /** `platformGetFeatureFlagPayload`: the synced `_payload` entry; overrides play no part. */
  function GetFeatureFlagPayload(b: Backend, key: string): (r: Option<Json>)
    ensures r.Some? <==> FlagStore.PayloadKey(key) in b.featureFlags
    ensures r.Some? ==> r.value == b.featureFlags[FlagStore.PayloadKey(key)]
  {
    FlagStore.GetFeatureFlagPayload(b.featureFlags, key)
  }

  /** `platformGetAllFeatureFlags`: both tables, the synced value winning on a shared key. */
  function GetAllFeatureFlags(b: Backend): (r: map<string, Json>)
    ensures r.Keys == b.overrides.Keys + b.featureFlags.Keys
    ensures forall k :: k in b.featureFlags ==> r[k] == b.featureFlags[k]
    ensures forall k :: k in b.overrides && k !in b.featureFlags ==> r[k] == b.overrides[k]
  {
    FlagStore.GetAllFeatureFlags(b.overrides, b.featureFlags)
  }

  /** `platformReloadFeatureFlags`: launch a load followed by the callback. */
  function ReloadFeatureFlags(b: Backend, hasCallback: bool): (r: Step<Backend>)
    ensures r.next == b
    ensures r.launched == [] <==> b.scopeCancelled
    ensures forall t :: t in r.launched ==> t == LoadFlagsTask(hasCallback)
  {
    Step(b, Launch(b, LoadFlagsTask(hasCallback)))
  }

  /** `platformOverrideFeatureFlags`: upsert every given override. */
  function OverrideFeatureFlags(b: Backend, flags: map<string, Json>): (r: Backend)
    requires NoNullValues(flags)
    ensures r.overrides.Keys == b.overrides.Keys + flags.Keys
    ensures forall k :: k in flags ==> r.overrides[k] == flags[k]
    ensures forall k :: k in b.overrides && k !in flags ==> r.overrides[k] == b.overrides[k]
    ensures r.(overrides := b.overrides) == b
    ensures Valid(b) ==> Valid(r)
  {
    b.(overrides := b.overrides + flags)
  }

  /** The body of a flag request: api key, distinct id, and the `$groups` super property if set. */
  datatype DecideRequest = DecideRequest(apiKey: string, distinctId: string, groups: Option<Json>)

  /** The request `loadFeatureFlags` sends, or `None` when it returns early (no configuration or client). */
  function FlagRequest(b: Backend): (r: Option<DecideRequest>)
    ensures r.Some? <==> b.config.Some? && b.hasClient
    ensures r.Some? ==> r.value.apiKey == b.config.value.apiKey && r.value.distinctId == EffectiveDistinctId(b)
    ensures r.Some? ==> (r.value.groups.Some? <==> PostHogProperties.Groups in b.superProperties)
  {
    if b.config.None? || !b.hasClient then None
    else
      var groups := if PostHogProperties.Groups in b.superProperties
                    then Some(b.superProperties[PostHogProperties.Groups]) else None;
      Some(DecideRequest(b.config.value.apiKey, EffectiveDistinctId(b), groups))
  }

  /**
    Running a flag load: without configuration or client nothing is sent;
    otherwise the response is merged into the synced table. Overrides are
    never touched.
  */
  function LoadFeatureFlags(b: Backend, outcome: FlagStore.SyncOutcome): (r: Backend)
    ensures FlagRequest(b).None? || !FlagStore.Writes(outcome) ==> r == b
    ensures FlagRequest(b).Some? ==> r.featureFlags == FlagStore.MergeSync(b.featureFlags, outcome)
    ensures r.(featureFlags := b.featureFlags) == b
    ensures Valid(b) ==> Valid(r)
  {
    if FlagRequest(b).None? then b
    else b.(featureFlags := FlagStore.MergeSync(b.featureFlags, outcome))
  }

  // ------------------------------------------------------------ opt-out and flush

  function OptOut(b: Backend): (r: Backend)
    ensures r.optedOut && r.(optedOut := b.optedOut) == b
  {
    b.(optedOut := true)
  }

  function OptIn(b: Backend): (r: Backend)
    ensures !r.optedOut && r.(optedOut := b.optedOut) == b
  {
    b.(optedOut := false)
  }

  /** `platformFlush`: launch one flush. */
  function Flush(b: Backend): (r: Step<Backend>)
    ensures r.next == b
    ensures r.launched == (if b.scopeCancelled then [] else [FlushTask])
  {
    Step(b, Launch(b, FlushTask))
  }

  /**
    An event as the request body carries it: serialisation happens when the
    batch is posted, so an event sharing a membership map carries that map's
    content at that moment.
  */
  function Serialised(e: Event, maps: seq<map<string, Json>>): (r: Event)
    ensures r.name == e.name && r.timestamp == e.timestamp && r.sharedGroups == None
    ensures e.sharedGroups.Some? && e.sharedGroups.value < |maps| ==>
              PostHogProperties.Groups in r.properties &&
              r.properties[PostHogProperties.Groups] == JObj(maps[e.sharedGroups.value])
    ensures !(e.sharedGroups.Some? && e.sharedGroups.value < |maps|) ==> r.properties == e.properties
    ensures forall k :: k != PostHogProperties.Groups ==>
              (k in r.properties <==> k in e.properties) && (k in e.properties ==> r.properties[k] == e.properties[k])
  {
    match e.sharedGroups
    case Some(m) =>
      if m < |maps| then e.(properties := e.properties[PostHogProperties.Groups := JObj(maps[m])], sharedGroups := None)
      else e.(sharedGroups := None)
    case None => e
  }

  /** A batch as posted. */
  function Sent(batch: seq<Event>, maps: seq<map<string, Json>>): (r: seq<Event>)
    ensures |r| == |batch|
    ensures forall i :: 0 <= i < |batch| ==> r[i] == Serialised(batch[i], maps)
  {
    seq(|batch|, i requires 0 <= i < |batch| => Serialised(batch[i], maps))
  }

  /**
    What a flush took: the state after the drain, the batch taken (empty when
    nothing was sent) and the batch as posted.
  */
  datatype Drained = Drained(next: Backend, batch: seq<Event>, sent: seq<Event>)

  /**
    The first half of `flushEvents`: with configuration, client and a
    non-empty queue, take the whole queue as one batch and leave it empty;
    otherwise return without sending.
  */
  function FlushDrain(b: Backend): (r: Drained)
    ensures r.batch + r.next.queue == b.queue
    ensures r.batch != [] <==> b.config.Some? && b.hasClient && b.queue != []
    ensures r.batch != [] ==> r.next.queue == []
    ensures r.sent == Sent(r.batch, b.groupMaps)
    ensures r.next.(queue := b.queue) == b
  {
    if b.config.None? || !b.hasClient || b.queue == [] then Drained(b, [], [])
    else Drained(b.(queue := []), b.queue, Sent(b.queue, b.groupMaps))
  }

  /**
    The second half of `flushEvents`: a delivered batch is gone (whatever the
    HTTP status); a batch whose post threw goes back ahead of everything
    captured meanwhile.
  */
  function FlushComplete(b: Backend, batch: seq<Event>, outcome: Outcome): (r: Backend)
    ensures outcome == Delivered ==> r == b
    ensures outcome == Threw ==> |r.queue| == |batch| + |b.queue| && r.queue[..|batch|] == batch && r.queue[|batch|..] == b.queue
    ensures r.(queue := b.queue) == b
  {
    match outcome
    case Delivered => b
    case Threw => b.(queue := Requeue(batch, b.queue))
  }

  /**
    A flush that threw, with `meanwhile` captured while it was in flight,
    leaves the original queue followed by `meanwhile`; a delivered one leaves
    only `meanwhile`. Nothing is lost, duplicated or reordered.
  */
  lemma FlushRequeuesAheadOfNewEvents(b: Backend, meanwhile: seq<Event>)
    requires b.config.Some? && b.hasClient
    ensures var d := FlushDrain(b);
      var during := d.next.(queue := d.next.queue + meanwhile);
      FlushComplete(during, d.batch, Threw).queue == b.queue + meanwhile &&
      FlushComplete(during, d.batch, Delivered).queue == meanwhile
  {
    var d := FlushDrain(b);
    if b.queue == [] {
      assert d.next.queue == [];
    } else {
      assert d.batch == b.queue && d.next.queue == [];
      assert [] + meanwhile == meanwhile;
    }
  }

  // ------------------------------------------------------------ running launched tasks

  /**
    What running a launched task did: the next state, the tasks it launched
    in turn, the batch it posted (as posted), and whether it invoked the
    reload callback.
  */
  datatype Ran = Ran(next: Backend, launched: seq<Task>, sent: seq<Event>, callbackRan: bool)

  /**
    Running one launched task to its end, nothing else running meanwhile:
    a flush drains and settles with `delivery`; the timer does one flush and
    goes on waiting; a load merges the response `sync` and then invokes the
    callback, which therefore sees the merged flags. A task launched on a
    scope cancelled since never runs.
  */
  function RunTask(b: Backend, t: Task, delivery: Outcome, sync: FlagStore.SyncOutcome): (r: Ran)
    ensures b.scopeCancelled ==> r == Ran(b, [], [], false)
    ensures r.callbackRan <==> !b.scopeCancelled && t == LoadFlagsTask(true)
    ensures r.launched == (if !b.scopeCancelled && t == FlushTimerTask then [FlushTimerTask] else [])
    ensures t.LoadFlagsTask? && !b.scopeCancelled ==> r.next == LoadFeatureFlags(b, sync) && r.sent == []
    ensures !t.LoadFlagsTask? ==> r.next.(queue := b.queue) == b
    ensures !t.LoadFlagsTask? && !b.scopeCancelled ==>
              r.sent == (if b.config.Some? && b.hasClient then Sent(b.queue, b.groupMaps) else [])
    ensures !t.LoadFlagsTask? && !b.scopeCancelled ==>
              r.next.queue == (if delivery == Delivered && b.config.Some? && b.hasClient then [] else b.queue)
  {
    if b.scopeCancelled then Ran(b, [], [], false)
    else
      match t
      case LoadFlagsTask(thenCallback) => Ran(LoadFeatureFlags(b, sync), [], [], thenCallback)
      case _ =>
        var d := FlushDrain(b);
        var settled := if d.batch == [] then d.next else FlushComplete(d.next, d.batch, delivery);
        assert delivery == Threw && d.batch != [] ==> settled.queue == d.batch + [];
        Ran(settled, if t == FlushTimerTask then [FlushTimerTask] else [], d.sent, false)
  }

  /** The first `group` on a backend without `$groups` starts a new live map; its event shares none. */
  lemma FirstGroupStartsMap(b: Backend, t: string, k: string, now: string)
    requires Valid(b) && !b.optedOut && PostHogProperties.Groups !in b.superProperties
    ensures var r := Group(b, t, k, None, now).next;
      && Valid(r) && !r.optedOut && r.config == b.config && r.hasClient == b.hasClient
      && r.liveGroups == Some(|b.groupMaps|) && r.groupMaps[|b.groupMaps|] == map[t := JStr(k)]
      && |r.queue| == |b.queue| + 1 && r.queue[|b.queue|].sharedGroups == None
      && PostHogProperties.Groups !in r.queue[|b.queue|].properties
  {
  }

  /** A capture without explicit `$groups` shares the live map and shows its content at capture time. */
  lemma CaptureSharesLiveMap(b: Backend, event: string, now: string)
    requires Valid(b) && !b.optedOut && b.liveGroups.Some?
    ensures var r := Capture(b, event, None, now).next;
      && Valid(r) && r.(queue := b.queue) == b
      && |r.queue| == |b.queue| + 1 && r.queue[..|b.queue|] == b.queue && r.queue[|b.queue|].name == event
      && r.queue[|b.queue|].sharedGroups == b.liveGroups
      && r.queue[|b.queue|].properties[PostHogProperties.Groups] == JObj(b.groupMaps[b.liveGroups.value])
  {
  }

  /** A later `group` writes into the live map; its own event shares that map too. */
  lemma LaterGroupUpdatesMap(b: Backend, t: string, k: string, now: string)
    requires Valid(b) && !b.optedOut && b.liveGroups.Some?
    ensures var r := Group(b, t, k, None, now).next;
      && r.config == b.config && r.hasClient == b.hasClient
      && r.liveGroups == b.liveGroups && |r.groupMaps| == |b.groupMaps|
      && r.groupMaps[b.liveGroups.value] == b.groupMaps[b.liveGroups.value][t := JStr(k)]
      && |r.queue| == |b.queue| + 1 && r.queue[..|b.queue|] == b.queue
      && r.queue[|b.queue|].name == PostHogEvents.GroupIdentify
      && r.queue[|b.queue|].sharedGroups == b.liveGroups
      && r.queue[|b.queue|].properties[PostHogProperties.Groups] == JObj(b.groupMaps[b.liveGroups.value])
  {
  }

  /** The `i`-th queued event as a flush posts it. */
  lemma PostedWith(b: Backend, i: nat)
    requires b.config.Some? && b.hasClient && i < |b.queue|
    ensures var d := FlushDrain(b);
      && |d.batch| == |b.queue| && |d.sent| == |b.queue| && d.batch[i] == b.queue[i]
      && d.sent[i] == Serialised(b.queue[i], b.groupMaps)
  {
  }

  lemma RejoinReplaces(t: string, v1: Json, v2: Json)
    ensures map[t := v1][t := v2] == map[t := v2]
  {
  }

  /**
    `group(t, k1)`, a capture, `group(t, k2)`, then a flush: the capture and
    the second `$groupidentify` were queued while `$groups` was `{t: k1}`,
    and both are posted with `{t: k2}`.
  */
  lemma LaterGroupRewritesEarlierEvents(b: Backend, t: string, k1: string, k2: string, event: string, now: string)
    requires Valid(b) && !b.optedOut && b.config.Some? && b.hasClient
    requires b.queue == [] && PostHogProperties.Groups !in b.superProperties
    ensures var s3 := Group(Capture(Group(b, t, k1, None, now).next, event, None, now).next, t, k2, None, now).next;
      var d := FlushDrain(s3);
      && |d.batch| == 3 && |d.sent| == 3
      && d.batch[1].name == event && d.batch[2].name == PostHogEvents.GroupIdentify
      && d.batch[1].properties[PostHogProperties.Groups] == JObj(map[t := JStr(k1)])
      && d.batch[2].properties[PostHogProperties.Groups] == JObj(map[t := JStr(k1)])
      && d.sent[1].properties[PostHogProperties.Groups] == JObj(map[t := JStr(k2)])
      && d.sent[2].properties[PostHogProperties.Groups] == JObj(map[t := JStr(k2)])
      && PostHogProperties.Groups !in d.sent[0].properties
  {
    var s1 := Group(b, t, k1, None, now).next;
    FirstGroupStartsMap(b, t, k1, now);
    var s2 := Capture(s1, event, None, now).next;
    CaptureSharesLiveMap(s1, event, now);
    var s3 := Group(s2, t, k2, None, now).next;
    LaterGroupUpdatesMap(s2, t, k2, now);
    RejoinReplaces(t, JStr(k1), JStr(k2));
    assert s3.queue[0] == s1.queue[0] && s3.queue[1] == s2.queue[1];
    PostedWith(s3, 0);
    PostedWith(s3, 1);
    PostedWith(s3, 2);
  }
}
