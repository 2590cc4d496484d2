/**
  The common `PostHog` facade: a lifecycle flag, the configuration, its own
  super-property map, and the active backend (here the JVM backend). Every
  operation is a no-op or returns a safe default until `Setup`; `Close`
  returns to the uninitialised state, from which `Setup` is accepted again.
*/
module Facade {
  import opened Wrappers
  import opened JsonValues
  import opened EventQueue
  import Config
  import JvmBackend
  import FlagStore
  import Models
  import PostHogEvents
  import PostHogProperties
  import Text

  datatype Facade = Facade(
    initialized: bool,
    config: Option<Config.Settings>,
    superProperties: map<string, Json>,
    backend: JvmBackend.Backend)

  /** The state when the program starts. */
  const Start: Facade := Facade(false, None, map[], JvmBackend.Fresh)

  /** A transition: the next state and the tasks the backend launched. */
  type Step = JvmBackend.Step<Facade>

  /**
    What every reachable state satisfies: the facade is initialised exactly
    when it holds a configuration, the backend holds the same one and an open
    client, and the backend tables hold no nulls.
  */
  predicate Inv(f: Facade) {
    && (f.initialized <==> f.config.Some?)
    && f.backend.config == f.config
    && f.backend.hasClient == f.initialized
    && JvmBackend.Valid(f.backend)
  }

  lemma StartSatisfiesInv()
    ensures Inv(Start) && !Start.initialized
  {
  }

  // ------------------------------------------------------------ lifecycle

  /** `setup`: accepted once; a second call while initialised changes nothing and launches nothing. */
  function Setup(f: Facade, cfg: Config.Settings, uuid: string): (r: Step)
    ensures f.initialized ==> r == JvmBackend.Step(f, [])
    ensures !f.initialized ==> r.next.initialized && r.next.config == Some(cfg)
    ensures !f.initialized ==> r.next.superProperties == f.superProperties
    ensures !f.initialized ==> r.next.backend.distinctId == Some(uuid) && r.next.backend.queue == f.backend.queue
    ensures !f.initialized ==> r.launched == JvmBackend.Setup(f.backend, cfg, uuid).launched
    ensures forall t :: t in r.launched ==> t == JvmBackend.LoadFlagsTask(false) || t == JvmBackend.FlushTimerTask
    ensures JvmBackend.FlushTimerTask in r.launched <==> !f.initialized && !f.backend.scopeCancelled
    ensures JvmBackend.LoadFlagsTask(false) in r.launched <==>
              !f.initialized && cfg.preloadFeatureFlags && !f.backend.scopeCancelled
    ensures Inv(f) ==> Inv(r.next)
  {
    if f.initialized then JvmBackend.Step(f, [])
    else
      var s := JvmBackend.Setup(f.backend, cfg, uuid);
      JvmBackend.Step(Facade(true, Some(cfg), f.superProperties, s.next), s.launched)
  }

  /** `isSetup`. */
  function IsSetup(f: Facade): (r: bool)
    ensures r <==> f.initialized
  {
    f.initialized
  }

  /** Not set up at start; set up after `setup`; no longer after `close`. */
  lemma IsSetupFollowsLifecycle(f: Facade, cfg: Config.Settings, uuid: string, outcome: Outcome)
    requires Inv(f)
    ensures !IsSetup(Start) && Inv(Start)
    ensures IsSetup(Setup(f, cfg, uuid).next) && Inv(Setup(f, cfg, uuid).next)
    ensures !IsSetup(Close(f, outcome).next) && Inv(Close(f, outcome).next)
    ensures IsSetup(Setup(Close(Setup(Start, cfg, uuid).next, outcome).next, cfg, uuid).next)
  {
    StartSatisfiesInv();
  }

  /** What `close` did: the next state and the batch its flush posted. */
  type Closing = JvmBackend.Closing<Facade>

  /**
    `close`: the backend flushes once (outcome `outcome`) and clears; the
    facade forgets its configuration and super properties and becomes
    uninitialised. Uninitialised, it does nothing.
  */
  function Close(f: Facade, outcome: Outcome): (r: Closing)
    ensures !f.initialized ==> r == JvmBackend.Closing(f, [])
    ensures f.initialized ==> !r.next.initialized && r.next.config == None && r.next.superProperties == map[]
    ensures f.initialized ==> r.next.backend.queue == [] && r.next.backend.scopeCancelled
    ensures f.initialized && Inv(f) ==> r.attempted == JvmBackend.Sent(f.backend.queue, f.backend.groupMaps)
    ensures Inv(f) ==> Inv(r.next)
  {
    if !f.initialized then JvmBackend.Closing(f, [])
    else
      var c := JvmBackend.Close(f.backend, outcome);
      JvmBackend.Closing(Facade(false, None, map[], c.next), c.attempted)
  }

  /** After `close`, `setup` is accepted again with the new configuration and a new identity. */
  lemma CloseThenSetupIsAccepted(f: Facade, outcome: Outcome, cfg: Config.Settings, uuid: string)
    requires Inv(f) && f.initialized
    ensures var g := Setup(Close(f, outcome).next, cfg, uuid).next;
      g.initialized && g.config == Some(cfg) && Inv(g) &&
      g.backend.distinctId == Some(uuid) && g.backend.queue == [] && g.superProperties == map[]
  {
  }

  /**
    The backend's coroutine scope is cancelled by `close` and never recreated,
    so after a re-`setup` nothing launched ever runs: no preload, no timer, no
    flush (automatic or requested) and no reload callback.
  */
  lemma NothingRunsAfterReSetup(f: Facade, outcome: Outcome, cfg: Config.Settings, uuid: string,
                                event: string, now: string)
    requires Inv(f) && f.initialized
    ensures var s := Setup(Close(f, outcome).next, cfg, uuid);
      && s.launched == []
      && Flush(s.next).launched == []
      && Capture(s.next, event, None, None, now).launched == []
      && ReloadFeatureFlags(s.next, true).launched == []
      && !ReloadFeatureFlags(s.next, true).callbackNow
  {
  }

  // ------------------------------------------------------------ capture

  function OptionGroups(options: Option<Models.CaptureOptions>): Option<map<string, string>> {
    if options.Some? then options.value.groups else None
  }

  /**
    The properties the facade forwards: its super properties, overlaid by the
    explicit ones, then `$groups` from the options. An empty result is
    forwarded as null.
  */
  function MergedProperties(supers: map<string, Json>, props: Option<map<string, Json>>,
                            options: Option<Models.CaptureOptions>): (r: Option<map<string, Json>>)
    ensures r.None? <==> supers == map[] && JvmBackend.Explicit(props) == map[] && OptionGroups(options).None?
    ensures r.Some? ==> r.value.Keys == supers.Keys + JvmBackend.Explicit(props).Keys +
                                        (if OptionGroups(options).Some? then {PostHogProperties.Groups} else {})
    ensures r.Some? && OptionGroups(options).Some? ==>
              r.value[PostHogProperties.Groups] == JObj(StringFields(OptionGroups(options).value))
    ensures r.Some? ==> forall k :: k in JvmBackend.Explicit(props) &&
                                    (k != PostHogProperties.Groups || OptionGroups(options).None?) ==>
                                      r.value[k] == JvmBackend.Explicit(props)[k]
    ensures r.Some? ==> forall k :: k in supers && k !in JvmBackend.Explicit(props) &&
                                    (k != PostHogProperties.Groups || OptionGroups(options).None?) ==>
                                      r.value[k] == supers[k]
  {
    var groups := if OptionGroups(options).Some?
                  then map[PostHogProperties.Groups := JObj(StringFields(OptionGroups(options).value))]
                  else map[];
    var merged := supers + JvmBackend.Explicit(props) + groups;
    assert merged.Keys == supers.Keys + JvmBackend.Explicit(props).Keys + groups.Keys;
    if merged == map[] then
      assert supers.Keys == {} && JvmBackend.Explicit(props).Keys == {} && groups.Keys == {};
      assert supers == map[] && JvmBackend.Explicit(props) == map[];
      assert OptionGroups(options).Some? ==> PostHogProperties.Groups in groups.Keys;
      None
    else Some(merged)
  }

  /**
    `capture`: forwarded with the merged properties. In the queued event the
    layers are, later winning: library identifiers, backend super properties
    (group memberships), facade super properties, explicit properties,
    `$groups` from the options, `distinct_id`.
  */
  function Capture(f: Facade, event: string, props: Option<map<string, Json>>,
                   options: Option<Models.CaptureOptions>, now: string): (r: Step)
    ensures !f.initialized ==> r == JvmBackend.Step(f, [])
    ensures f.initialized ==> r.next.(backend := f.backend) == f
    ensures f.initialized && f.backend.optedOut ==> r == JvmBackend.Step(f, [])
    ensures f.initialized && !f.backend.optedOut ==>
              JvmBackend.AppendedOne(f.backend.queue, r.next.backend.queue, event)
    ensures f.initialized ==> JvmBackend.LaunchesFlushAtThreshold(f.backend, r.launched)
    ensures Inv(f) ==> Inv(r.next)
  {
    if !f.initialized then JvmBackend.Step(f, [])
    else
      var s := JvmBackend.Capture(f.backend, event, MergedProperties(f.superProperties, props, options), now);
      JvmBackend.Step(f.(backend := s.next), s.launched)
  }

  /** The properties of the event a facade capture queued. */
  function CapturedProperties(f: Facade, event: string, props: Option<map<string, Json>>,
                              options: Option<Models.CaptureOptions>, now: string): map<string, Json>
    requires f.initialized && !f.backend.optedOut
  {
    var q := Capture(f, event, props, options, now).next.backend.queue;
    q[|f.backend.queue|].properties
  }

  /** The full precedence order of one property key of a captured event. */
  lemma CapturedEventLayering(f: Facade, event: string, props: Option<map<string, Json>>,
                              options: Option<Models.CaptureOptions>, now: string, k: string)
    requires f.initialized && !f.backend.optedOut
    ensures var p := CapturedProperties(f, event, props, options, now);
      && p[JvmBackend.DistinctIdKey] == JStr(JvmBackend.EffectiveDistinctId(f.backend))
      && (k != JvmBackend.DistinctIdKey && k == PostHogProperties.Groups && OptionGroups(options).Some? ==>
            p[k] == JObj(StringFields(OptionGroups(options).value)))
      && (k != JvmBackend.DistinctIdKey && (k != PostHogProperties.Groups || OptionGroups(options).None?) ==>
            && (k in JvmBackend.Explicit(props) ==> p[k] == JvmBackend.Explicit(props)[k])
            && (k !in JvmBackend.Explicit(props) && k in f.superProperties ==> p[k] == f.superProperties[k])
            && (k !in JvmBackend.Explicit(props) && k !in f.superProperties && k in f.backend.superProperties ==>
                  p[k] == f.backend.superProperties[k]))
  {
    var merged := MergedProperties(f.superProperties, props, options);
    var s := JvmBackend.Capture(f.backend, event, merged, now);
    assert s.next.queue[|f.backend.queue|].properties == JvmBackend.EventProperties(f.backend, merged);
  }

  /**
    `CaptureOptions.groups` is written under the same `$groups` key the backend
    keeps memberships in, so a capture's explicit groups replace the
    accumulated memberships in that event, while the memberships themselves
    are kept for later events.
  */
  lemma ExplicitGroupsOverrideMemberships(f: Facade, groupType: string, groupKey: string,
                                          event: string, groups: map<string, string>, now: string)
    requires Inv(f) && f.initialized && !f.backend.optedOut
    ensures var g := Group(f, groupType, groupKey, None, now).next;
      var options := Some(Models.CaptureOptions(Some(groups), None));
      var after := Capture(g, event, None, options, now).next;
      && after.backend.superProperties[PostHogProperties.Groups] == g.backend.superProperties[PostHogProperties.Groups]
      && after.backend.superProperties[PostHogProperties.Groups].fields[groupType] == JStr(groupKey)
      && CapturedProperties(g, event, None, options, now)[PostHogProperties.Groups] == JObj(StringFields(groups))
  {
    var g := Group(f, groupType, groupKey, None, now).next;
    var options := Some(Models.CaptureOptions(Some(groups), None));
    JvmBackend.KeysDistinct();
    CapturedEventLayering(g, event, None, options, now, PostHogProperties.Groups);
  }

  /** `screen`: forwarded when initialised. */
  function Screen(f: Facade, screenName: string, props: Option<map<string, Json>>, now: string): (r: Step)
    ensures !f.initialized ==> r == JvmBackend.Step(f, [])
    ensures f.initialized ==> r.next.(backend := f.backend) == f
    ensures f.initialized && f.backend.optedOut ==> r == JvmBackend.Step(f, [])
    ensures f.initialized && !f.backend.optedOut ==>
              && JvmBackend.AppendedOne(f.backend.queue, r.next.backend.queue, PostHogEvents.Screen)
              && PostHogProperties.ScreenName in r.next.backend.queue[|f.backend.queue|].properties
    ensures r.next.backend.(queue := f.backend.queue) == f.backend
    ensures f.initialized ==> JvmBackend.LaunchesFlushAtThreshold(f.backend, r.launched)
    ensures Inv(f) ==> Inv(r.next)
  {
    if !f.initialized then JvmBackend.Step(f, [])
    else
      var s := JvmBackend.Screen(f.backend, screenName, props, now);
      JvmBackend.Step(f.(backend := s.next), s.launched)
  }

  // ------------------------------------------------------------ identity

  function Identify(f: Facade, id: string, userProps: Option<map<string, Json>>,
                    setOnce: Option<map<string, Json>>, now: string): (r: Step)
    ensures !f.initialized ==> r == JvmBackend.Step(f, [])
    ensures f.initialized ==> r.next.backend.distinctId == Some(id) && r.next.(backend := f.backend) == f
    ensures r.next.backend.(distinctId := f.backend.distinctId, queue := f.backend.queue) == f.backend
    ensures f.initialized && f.backend.optedOut ==> r.next.backend.queue == f.backend.queue
    ensures f.initialized && !f.backend.optedOut ==>
              JvmBackend.AppendedOne(f.backend.queue, r.next.backend.queue, PostHogEvents.Identify)
    ensures f.initialized ==> (JvmBackend.LoadFlagsTask(false) in r.launched <==> !f.backend.scopeCancelled)
    ensures forall t :: t in r.launched ==> t == JvmBackend.FlushTask || t == JvmBackend.LoadFlagsTask(false)
    ensures JvmBackend.FlushTask in r.launched <==>
              && f.initialized && !f.backend.optedOut && f.backend.config.Some? && !f.backend.scopeCancelled
              && |f.backend.queue| + 1 >= f.backend.config.value.flushAt
    ensures Inv(f) ==> Inv(r.next)
  {
    if !f.initialized then JvmBackend.Step(f, [])
    else
      var s := JvmBackend.Identify(f.backend, id, userProps, setOnce, now);
      JvmBackend.Step(f.(backend := s.next), s.launched)
  }

  function Alias(f: Facade, alias: string, now: string): (r: Step)
    ensures !f.initialized ==> r == JvmBackend.Step(f, [])
    ensures f.initialized ==> r.next.(backend := f.backend) == f
    ensures r.next.backend.(queue := f.backend.queue) == f.backend
    ensures f.initialized && f.backend.optedOut ==> r == JvmBackend.Step(f, [])
    ensures f.initialized ==> JvmBackend.LaunchesFlushAtThreshold(f.backend, r.launched)
    ensures f.initialized && !f.backend.optedOut ==>
              && JvmBackend.AppendedOne(f.backend.queue, r.next.backend.queue, JvmBackend.CreateAliasEvent)
              && JvmBackend.AliasKey in r.next.backend.queue[|f.backend.queue|].properties
              && r.next.backend.queue[|f.backend.queue|].properties[JvmBackend.AliasKey] == JStr(alias)
    ensures Inv(f) ==> Inv(r.next)
  {
    if !f.initialized then JvmBackend.Step(f, [])
    else
      var s := JvmBackend.Alias(f.backend, alias, now);
      JvmBackend.Step(f.(backend := s.next), s.launched)
  }

  /** `reset`: both super-property maps, both flag tables and the identity are renewed. */
  function Reset(f: Facade, uuid: string): (r: Facade)
    ensures !f.initialized ==> r == f
    ensures f.initialized ==> r.superProperties == map[] && r.backend.superProperties == map[]
    ensures f.initialized ==> r.backend.distinctId == Some(uuid) && r.backend.anonymousId == Some(uuid)
    ensures f.initialized ==> forall key :: GetFeatureFlag(r, key).None?
    ensures f.initialized ==> r.backend.queue == f.backend.queue && r.backend.optedOut == f.backend.optedOut
    ensures Inv(f) ==> Inv(r)
  {
    if !f.initialized then f
    else f.(superProperties := map[], backend := JvmBackend.Reset(f.backend, uuid))
  }

  function GetDistinctId(f: Facade): (r: Option<string>)
    ensures !f.initialized ==> r == None
    ensures f.initialized ==> r == f.backend.distinctId
  {
    if f.initialized then f.backend.distinctId else None
  }

  /**
    The detailed flag result. Uninitialised, it is an error result for the
    same key with no value and error code INVALID_CONFIG; otherwise it is the
    platform's answer, passed in because the JVM backend defines none.
  */
  function GetFeatureFlagResult(f: Facade, key: string, platformAnswer: Models.FeatureFlagResult): (r: Models.FeatureFlagResult)
    ensures !f.initialized ==> r.key == key && r.value == None && r.reason == Models.ErrorReason
                               && r.errorCode == Some(Models.InvalidConfig)
    ensures f.initialized ==> r == platformAnswer
  {
    if !f.initialized then Models.FeatureFlagResult(key, None, Models.ErrorReason, Some(Models.InvalidConfig))
    else platformAnswer
  }

  /** `getAnonymousId` and `getSessionId`: null until initialised, then the platform's answer. */
  function GetPlatformId(f: Facade, platformAnswer: Option<string>): (r: Option<string>)
    ensures !f.initialized ==> r == None
    ensures f.initialized ==> r == platformAnswer
  {
    if f.initialized then platformAnswer else None
  }

  // ------------------------------------------------------------ super properties

  /**
    `register`: the facade map takes the value; the backend map takes it too,
    except a null, which the backend's concurrent map rejects by throwing
    (the facade catches it, its own update already done).
  */
  function Register(f: Facade, key: string, value: Json): (r: Facade)
    ensures !f.initialized ==> r == f
    ensures f.initialized ==> key in r.superProperties && r.superProperties[key] == value
    ensures f.initialized ==> forall k :: k != key ==> (k in r.superProperties <==> k in f.superProperties)
    ensures f.initialized ==> forall k :: k != key && k in f.superProperties ==> r.superProperties[k] == f.superProperties[k]
    ensures f.initialized && value != JNull ==> key in r.backend.superProperties && r.backend.superProperties[key] == value
    ensures f.initialized && value == JNull ==> r.backend == f.backend
    ensures r.backend.(superProperties := f.backend.superProperties, liveGroups := f.backend.liveGroups) == f.backend
    ensures Inv(f) ==> Inv(r)
  {
    if !f.initialized then f
    else if value == JNull then f.(superProperties := f.superProperties[key := value])
    else f.(superProperties := f.superProperties[key := value],
            backend := JvmBackend.Register(f.backend, key, value))
  }

  /** The non-null entries of a property map. */
  function NonNullPart(props: map<string, Json>): (r: map<string, Json>)
    ensures NoNullValues(r)
    ensures forall k :: k in r <==> k in props && props[k] != JNull
    ensures forall k :: k in r ==> r[k] == props[k]
  {
    map k | k in props && props[k] != JNull :: props[k]
  }

  /**
    `registerAll`: every entry registered; the backend skips the nulls, and a
    non-null `$groups` entry detaches the live membership map.
  */
  function RegisterAll(f: Facade, props: map<string, Json>): (r: Facade)
    ensures !f.initialized ==> r == f
    ensures f.initialized ==> r.superProperties.Keys == f.superProperties.Keys + props.Keys
    ensures f.initialized ==> forall k :: k in props ==> r.superProperties[k] == props[k]
    ensures f.initialized ==> r.backend.superProperties.Keys == f.backend.superProperties.Keys + NonNullPart(props).Keys
    ensures f.initialized ==> forall k :: k in props && props[k] != JNull ==> r.backend.superProperties[k] == props[k]
    ensures f.initialized ==>
              (r.backend.liveGroups == None <==>
                 f.backend.liveGroups == None || (PostHogProperties.Groups in props && props[PostHogProperties.Groups] != JNull))
    ensures Inv(f) ==> Inv(r)
  {
    if !f.initialized then f
    else
      var live := if PostHogProperties.Groups in NonNullPart(props) then None else f.backend.liveGroups;
      f.(superProperties := f.superProperties + props,
         backend := f.backend.(superProperties := f.backend.superProperties + NonNullPart(props), liveGroups := live))
  }

  /** `register` for each key of `keys`, in that order. */
  function RegisterEach(f: Facade, props: map<string, Json>, keys: seq<string>): Facade
    requires forall i :: 0 <= i < |keys| ==> keys[i] in props
    decreases |keys|
  {
    if keys == [] then f else RegisterEach(Register(f, keys[0], props[keys[0]]), props, keys[1..])
  }

  function Restrict(props: map<string, Json>, keys: set<string>): map<string, Json> {
    map k | k in props && k in keys :: props[k]
  }

  lemma NonNullPartUpdate(rest: map<string, Json>, key: string, value: Json)
    requires key !in rest
    ensures value == JNull ==> NonNullPart(rest[key := value]) == NonNullPart(rest)
    ensures value != JNull ==> NonNullPart(rest[key := value]) == NonNullPart(rest)[key := value]
  {
  }

  lemma UpdateThenUnion(m: map<string, Json>, key: string, value: Json, rest: map<string, Json>)
    requires key !in rest
    ensures m[key := value] + rest == m + rest[key := value]
  {
  }

  lemma RegisterThenRegisterAll(f: Facade, key: string, value: Json, rest: map<string, Json>)
    requires key !in rest
    ensures RegisterAll(Register(f, key, value), rest) == RegisterAll(f, rest[key := value])
  {
    if f.initialized {
      UpdateThenUnion(f.superProperties, key, value, rest);
      NonNullPartUpdate(rest, key, value);
      if value != JNull {
        UpdateThenUnion(f.backend.superProperties, key, value, NonNullPart(rest));
      }
    }
  }

  /**
    `registerAll` is `register` called once per entry: the outcome does not
    depend on the order in which the entries are visited.
  */
  lemma {:induction false} RegisterAllIsRegisterEach(f: Facade, props: map<string, Json>, keys: seq<string>)
    requires forall i :: 0 <= i < |keys| ==> keys[i] in props
    requires forall i, j :: 0 <= i < j < |keys| ==> keys[i] != keys[j]
    ensures RegisterEach(f, props, keys) == RegisterAll(f, Restrict(props, set k | k in keys))
    decreases |keys|
  {
    if keys == [] {
      assert Restrict(props, {}) == map[];
      assert f.superProperties + map[] == f.superProperties;
      assert NonNullPart(map[]) == map[];
      assert f.backend.superProperties + map[] == f.backend.superProperties;
    } else {
      var k0 := keys[0];
      var rest := Restrict(props, set k | k in keys[1..]);
      RegisterAllIsRegisterEach(Register(f, k0, props[k0]), props, keys[1..]);
      assert k0 !in rest;
      RegisterThenRegisterAll(f, k0, props[k0], rest);
      assert rest[k0 := props[k0]] == Restrict(props, set k | k in keys);
    }
  }

  /** Whenever `keys` lists every key of `props` once, registering them one by one is `registerAll`. */
  lemma RegisterAllIsAnyRegisterSequence(f: Facade, props: map<string, Json>, keys: seq<string>)
    requires (set k | k in keys) == props.Keys
    requires forall i, j :: 0 <= i < j < |keys| ==> keys[i] != keys[j]
    ensures var oneByOne := RegisterEach(f, props, keys); oneByOne == RegisterAll(f, props)
  {
    RegisterAllIsRegisterEach(f, props, keys);
    assert Restrict(props, set k | k in keys) == props;
  }

  /** `unregister`: the key leaves both maps; nothing else changes. */
  function Unregister(f: Facade, key: string): (r: Facade)
    ensures !f.initialized ==> r == f
    ensures f.initialized ==> r.superProperties.Keys == f.superProperties.Keys - {key}
    ensures f.initialized ==> r.backend.superProperties.Keys == f.backend.superProperties.Keys - {key}
    ensures forall k :: k in r.superProperties ==> r.superProperties[k] == f.superProperties[k]
    ensures forall k :: k in r.backend.superProperties ==> r.backend.superProperties[k] == f.backend.superProperties[k]
    ensures Inv(f) ==> Inv(r)
  {
    if !f.initialized then f
    else f.(superProperties := f.superProperties - {key}, backend := JvmBackend.Unregister(f.backend, key))
  }

  // ------------------------------------------------------------ person properties, groups, exceptions

  /**
    `setPersonProperties` / `setPersonPropertiesOnce`: a facade capture of the
    event `$set` (or `$set_once`) whose property of the same name holds the
    given map.
  */
  function SetPersonProperties(f: Facade, props: map<string, Json>, once: bool, now: string): (r: Step)
    ensures !f.initialized ==> r == JvmBackend.Step(f, [])
    ensures var name := if once then PostHogEvents.SetOnce else PostHogEvents.Set;
      f.initialized && !f.backend.optedOut ==>
        && JvmBackend.AppendedOne(f.backend.queue, r.next.backend.queue, name)
        && name in r.next.backend.queue[|f.backend.queue|].properties
        && r.next.backend.queue[|f.backend.queue|].properties[name] == JObj(props)
    ensures Inv(f) ==> Inv(r.next)
  {
    if !f.initialized then JvmBackend.Step(f, [])
    else
      var name := if once then PostHogEvents.SetOnce else PostHogEvents.Set;
      var r := Capture(f, name, Some(map[name := JObj(props)]), None, now);
      if f.backend.optedOut then r
      else
        JvmBackend.KeysDistinct();
        CapturedEventLayering(f, name, Some(map[name := JObj(props)]), None, now, name);
        r
  }

  function Group(f: Facade, groupType: string, groupKey: string,
                 groupProps: Option<map<string, Json>>, now: string): (r: Step)
    ensures !f.initialized ==> r == JvmBackend.Step(f, [])
    ensures f.initialized ==> r.next.(backend := f.backend) == f
    ensures f.initialized ==>
              && PostHogProperties.Groups in r.next.backend.superProperties
              && r.next.backend.superProperties[PostHogProperties.Groups].JObj?
              && groupType in r.next.backend.superProperties[PostHogProperties.Groups].fields
              && r.next.backend.superProperties[PostHogProperties.Groups].fields[groupType] == JStr(groupKey)
    ensures f.initialized ==>
              var before := JvmBackend.Memberships(f.backend.superProperties);
              var after := r.next.backend.superProperties[PostHogProperties.Groups].fields;
              && after.Keys == before.Keys + {groupType}
              && forall t :: t in before && t != groupType ==> after[t] == before[t]
    ensures forall k :: k != PostHogProperties.Groups ==>
              (k in r.next.backend.superProperties <==> k in f.backend.superProperties) &&
              (k in f.backend.superProperties ==> r.next.backend.superProperties[k] == f.backend.superProperties[k])
    ensures r.next.backend.(superProperties := f.backend.superProperties, queue := f.backend.queue,
                            groupMaps := f.backend.groupMaps, liveGroups := f.backend.liveGroups) == f.backend
    ensures f.initialized && f.backend.optedOut ==> r.next.backend.queue == f.backend.queue
    ensures f.initialized && !f.backend.optedOut ==>
              JvmBackend.AppendedOne(f.backend.queue, r.next.backend.queue, PostHogEvents.GroupIdentify)
    ensures f.initialized ==> JvmBackend.LaunchesFlushAtThreshold(f.backend, r.launched)
    ensures Inv(f) ==> Inv(r.next)
  {
    if !f.initialized then JvmBackend.Step(f, [])
    else
      var s := JvmBackend.Group(f.backend, groupType, groupKey, groupProps, now);
      JvmBackend.Step(f.(backend := s.next), s.launched)
  }

  /**
    The properties of an `$exception` event before the additional ones are
    laid over them: the class name (or "Unknown"), the message (or "No
    message"), the stack trace and the lower-case level.
  */
  function ExceptionProperties(typeName: Option<string>, message: Option<string>, stackTrace: string,
                               level: Models.ExceptionLevel): (r: map<string, Json>)
    ensures JvmBackend.DistinctIdKey !in r
    ensures r.Keys == {PostHogProperties.ExceptionType, PostHogProperties.ExceptionMessage,
                       PostHogProperties.ExceptionStacktrace, PostHogProperties.ExceptionLevel}
    ensures r[PostHogProperties.ExceptionType] == JStr(typeName.GetOr("Unknown"))
    ensures r[PostHogProperties.ExceptionMessage] == JStr(message.GetOr("No message"))
    ensures r[PostHogProperties.ExceptionStacktrace] == JStr(stackTrace)
    ensures r[PostHogProperties.ExceptionLevel] == JStr(level.LowerName())
  {
    assert PostHogProperties.ExceptionType[11] == 't' && PostHogProperties.ExceptionMessage[11] == 'm';
    assert PostHogProperties.ExceptionStacktrace[11] == 's' && PostHogProperties.ExceptionLevel[11] == 'l';
    assert JvmBackend.DistinctIdKey[0] == 'd';
    map[PostHogProperties.ExceptionType := JStr(typeName.GetOr("Unknown")),
        PostHogProperties.ExceptionMessage := JStr(message.GetOr("No message")),
        PostHogProperties.ExceptionStacktrace := JStr(stackTrace),
        PostHogProperties.ExceptionLevel := JStr(level.LowerName())]
  }

  /**
    `captureException`: a facade capture of `$exception` carrying the four
    exception properties; additional properties override any of them.
  */
  function CaptureException(f: Facade, typeName: Option<string>, message: Option<string>, stackTrace: string,
                            level: Models.ExceptionLevel, additional: Option<map<string, Json>>, now: string): (r: Step)
    ensures !f.initialized ==> r == JvmBackend.Step(f, [])
    ensures f.initialized && !f.backend.optedOut ==>
              JvmBackend.AppendedOne(f.backend.queue, r.next.backend.queue, PostHogEvents.Exception)
    ensures f.initialized && !f.backend.optedOut ==>
              var p := r.next.backend.queue[|f.backend.queue|].properties;
              var base := ExceptionProperties(typeName, message, stackTrace, level);
              var extra := JvmBackend.Explicit(additional);
              forall k :: k in base ==> k in p && p[k] == (if k in extra then extra[k] else base[k])
    ensures Inv(f) ==> Inv(r.next)
  {
    if !f.initialized then JvmBackend.Step(f, [])
    else
      var base := ExceptionProperties(typeName, message, stackTrace, level);
      var props := base + JvmBackend.Explicit(additional);
      var r := Capture(f, PostHogEvents.Exception, Some(props), None, now);
      if f.backend.optedOut then r
      else
        ExceptionLayering(f, base, additional, now);
        r
  }

  lemma ExceptionLayering(f: Facade, base: map<string, Json>, additional: Option<map<string, Json>>, now: string)
    requires f.initialized && !f.backend.optedOut && JvmBackend.DistinctIdKey !in base
    ensures var props := base + JvmBackend.Explicit(additional);
      var p := Capture(f, PostHogEvents.Exception, Some(props), None, now).next.backend.queue[|f.backend.queue|].properties;
      var extra := JvmBackend.Explicit(additional);
      forall k :: k in base ==> k in p && p[k] == (if k in extra then extra[k] else base[k])
  {
    var props := base + JvmBackend.Explicit(additional);
    var merged := MergedProperties(f.superProperties, Some(props), None);
    var s := JvmBackend.Capture(f.backend, PostHogEvents.Exception, merged, now);
    assert s.next.queue[|f.backend.queue|].properties == JvmBackend.EventProperties(f.backend, merged);
  }

  // ------------------------------------------------------------ feature flags

  function IsFeatureEnabled(f: Facade, key: string, default: bool): (r: bool)
    ensures !f.initialized ==> r == default
    ensures f.initialized && key in f.backend.overrides && f.backend.overrides[key].JBool? ==>
              r == f.backend.overrides[key].b
    ensures (f.initialized && key !in f.backend.overrides && key in f.backend.featureFlags &&
             f.backend.featureFlags[key].JBool?) ==> r == f.backend.featureFlags[key].b
    ensures f.initialized && key !in f.backend.overrides && key !in f.backend.featureFlags ==> r == default
    ensures f.initialized && key in f.backend.overrides && f.backend.overrides[key].JStr? ==>
              (r <==> Text.EqualsIgnoringCase(f.backend.overrides[key].s, "true"))
    ensures (f.initialized && key in f.backend.overrides &&
             !f.backend.overrides[key].JBool? && !f.backend.overrides[key].JStr?) ==> r == default
    ensures (f.initialized && key !in f.backend.overrides && key in f.backend.featureFlags &&
             f.backend.featureFlags[key].JStr?) ==>
              (r <==> !Text.EqualsIgnoringCase(f.backend.featureFlags[key].s, "false"))
    ensures (f.initialized && key !in f.backend.overrides && key in f.backend.featureFlags &&
             !f.backend.featureFlags[key].JBool? && !f.backend.featureFlags[key].JStr?) ==> r
  {
    if f.initialized then JvmBackend.IsFeatureEnabled(f.backend, key, default) else default
  }

  function GetFeatureFlag(f: Facade, key: string): (r: Option<Json>)
    ensures !f.initialized ==> r == None
    ensures f.initialized ==> (r.Some? <==> key in f.backend.overrides || key in f.backend.featureFlags)
    ensures f.initialized && key in f.backend.overrides ==> r == Some(f.backend.overrides[key])
    ensures f.initialized && key !in f.backend.overrides && key in f.backend.featureFlags ==>
              r == Some(f.backend.featureFlags[key])
  {
    if f.initialized then JvmBackend.GetFeatureFlag(f.backend, key) else None
  }

  function GetFeatureFlagPayload(f: Facade, key: string): (r: Option<Json>)
    ensures !f.initialized ==> r == None
    ensures f.initialized ==> (r.Some? <==> FlagStore.PayloadKey(key) in f.backend.featureFlags)
    ensures r.Some? ==> r.value == f.backend.featureFlags[FlagStore.PayloadKey(key)]
  {
    if f.initialized then JvmBackend.GetFeatureFlagPayload(f.backend, key) else None
  }

  function GetAllFeatureFlags(f: Facade): (r: map<string, Json>)
    ensures !f.initialized ==> r == map[]
    ensures f.initialized ==> r.Keys == f.backend.overrides.Keys + f.backend.featureFlags.Keys
    ensures forall k :: k in r && k in f.backend.featureFlags ==> r[k] == f.backend.featureFlags[k]
    ensures forall k :: k in r && k !in f.backend.featureFlags ==> r[k] == f.backend.overrides[k]
  {
    if f.initialized then JvmBackend.GetAllFeatureFlags(f.backend) else map[]
  }

  /** The result of `reloadFeatureFlags`: `callbackNow` says the callback ran during the call itself. */
  datatype Reloading = Reloading(next: Facade, launched: seq<JvmBackend.Task>, callbackNow: bool)

  /**
    `reloadFeatureFlags(callback)`: uninitialised, the callback (if any) runs
    once at once and nothing else happens; initialised, a load followed by the
    callback is launched instead.
  */
  function ReloadFeatureFlags(f: Facade, hasCallback: bool): (r: Reloading)
    ensures !f.initialized ==> r.next == f && r.launched == [] && r.callbackNow == hasCallback
    ensures f.initialized ==> r.next == f && !r.callbackNow
    ensures f.initialized ==> (r.launched == [] <==> f.backend.scopeCancelled)
    ensures forall t :: t in r.launched ==> t == JvmBackend.LoadFlagsTask(hasCallback)
  {
    if !f.initialized then Reloading(f, [], hasCallback)
    else
      var s := JvmBackend.ReloadFeatureFlags(f.backend, hasCallback);
      Reloading(f, s.launched, false)
  }

  /** `overrideFeatureFlags`: upsert overrides when initialised. Null values are excluded (see README). */
  function OverrideFeatureFlags(f: Facade, flags: map<string, Json>): (r: Facade)
    requires NoNullValues(flags)
    ensures !f.initialized ==> r == f
    ensures f.initialized ==> forall k :: k in flags ==> GetFeatureFlag(r, k) == Some(flags[k])
    ensures f.initialized ==> r.(backend := f.backend) == f && r.backend.featureFlags == f.backend.featureFlags
    ensures Inv(f) ==> Inv(r)
  {
    if !f.initialized then f else f.(backend := JvmBackend.OverrideFeatureFlags(f.backend, flags))
  }

  // ------------------------------------------------------------ opt-out and flush

  function OptOut(f: Facade): (r: Facade)
    ensures !f.initialized ==> r == f
    ensures f.initialized ==> IsOptedOut(r) && r.backend.queue == f.backend.queue
    ensures Inv(f) ==> Inv(r)
  {
    if !f.initialized then f else f.(backend := JvmBackend.OptOut(f.backend))
  }

  function OptIn(f: Facade): (r: Facade)
    ensures !f.initialized ==> r == f
    ensures !IsOptedOut(r) && r.backend.queue == f.backend.queue
    ensures Inv(f) ==> Inv(r)
  {
    if !f.initialized then f else f.(backend := JvmBackend.OptIn(f.backend))
  }

  function IsOptedOut(f: Facade): (r: bool)
    ensures r ==> f.initialized && f.backend.optedOut
    ensures f.initialized && f.backend.optedOut ==> r
  {
    f.initialized && f.backend.optedOut
  }

  /** While opted out, a capture queues nothing, so a later flush sends nothing new. */
  lemma OptedOutCaptureSendsNothing(f: Facade, event: string, props: Option<map<string, Json>>,
                                    options: Option<Models.CaptureOptions>, now: string)
    requires IsOptedOut(f)
    ensures Capture(f, event, props, options, now) == JvmBackend.Step(f, [])
    ensures JvmBackend.FlushDrain(Capture(f, event, props, options, now).next.backend).batch
            == JvmBackend.FlushDrain(f.backend).batch
  {
  }

  function Flush(f: Facade): (r: Step)
    ensures r.next == f
    ensures !f.initialized ==> r.launched == []
    ensures f.initialized ==> r.launched == (if f.backend.scopeCancelled then [] else [JvmBackend.FlushTask])
  {
    if !f.initialized then JvmBackend.Step(f, []) else JvmBackend.Step(f, JvmBackend.Flush(f.backend).launched)
  }

  /**
    Only `capture` and what goes through it carry the facade's own super
    properties: `screen`, `identify`, `alias` and `group` call the backend
    directly, so the facade map makes no difference to what they do.
  */
  lemma DirectCallsSkipFacadeSupers(f: Facade, supers: map<string, Json>, name: string,
                                    props: Option<map<string, Json>>, id: string, alias: string,
                                    groupType: string, groupKey: string, now: string)
    ensures var g := f.(superProperties := supers);
      && Screen(g, name, props, now).next.backend == Screen(f, name, props, now).next.backend
      && Identify(g, id, props, props, now).next.backend == Identify(f, id, props, props, now).next.backend
      && Alias(g, alias, now).next.backend == Alias(f, alias, now).next.backend
      && Group(g, groupType, groupKey, props, now).next.backend == Group(f, groupType, groupKey, props, now).next.backend
  {
  }

  /**
    `reloadFeatureFlags(callback)` launches the load; when it runs and the
    response carries a payload for `key`, the callback runs afterwards and
    `getFeatureFlagPayload(key)` then returns that payload.
  */
  lemma ReloadThenPayload(f: Facade, key: string, sync: FlagStore.SyncOutcome, delivery: Outcome)
    requires Inv(f) && f.initialized && !f.backend.scopeCancelled
    requires FlagStore.Writes(sync) && key in FlagStore.SyncedPayloads(sync)
    ensures var s := ReloadFeatureFlags(f, true);
      var ran := JvmBackend.RunTask(s.next.backend, JvmBackend.LoadFlagsTask(true), delivery, sync);
      && s.launched == [JvmBackend.LoadFlagsTask(true)]
      && ran.callbackRan
      && GetFeatureFlagPayload(s.next.(backend := ran.next), key) == Some(JStr(FlagStore.SyncedPayloads(sync)[key]))
  {
  }
}
