/** Event names the library sends (the `PostHogEvents` object). */
module PostHogEvents {
  const Exception: string := "$exception"
  const Screen: string := "$screen"
  const Identify: string := "$identify"
  const Set: string := "$set"
  const SetOnce: string := "$set_once"
  const GroupIdentify: string := "$groupidentify"
}

/** Property keys the library sets (the `PostHogProperties` object). */
module PostHogProperties {
  const ScreenName: string := "$screen_name"
  const ExceptionType: string := "$exception_type"
  const ExceptionMessage: string := "$exception_message"
  const ExceptionStacktrace: string := "$exception_stacktrace"
  const ExceptionLevel: string := "$exception_level"
  const GroupType: string := "$group_type"
  const GroupKey: string := "$group_key"
  const GroupSet: string := "$group_set"
  const Groups: string := "$groups"
  const AnonDistinctId: string := "$anon_distinct_id"
  const Lib: string := "$lib"
  const LibVersion: string := "$lib_version"
}

/** The public value types of the library. */
module Models {
  import opened Wrappers
  import opened JsonValues

  /** A feature flag value: the four cases of the sealed class. */
  datatype FeatureFlagValue =
    | Disabled
    | Enabled(value: bool := true)
    | StringVariant(variant: string)
    | JsonPayload(payload: map<string, Json>)

  /** A flag value counts as enabled unless it is `Disabled` or `Enabled(false)`. */
  function IsEnabled(v: FeatureFlagValue): (r: bool)
    ensures !r <==> v == Disabled || v == Enabled(false)
  {
    match v
    case Disabled => false
    case Enabled(b) => b
    case StringVariant(_) => true
    case JsonPayload(_) => true
  }

  /** `Enabled()` without an argument is an enabled flag. */
  lemma EnabledByDefault()
    ensures Enabled() == Enabled(true) && IsEnabled(Enabled())
  {
  }

  /** A variant or a payload is enabled whatever it holds, even when empty. */
  lemma VariantsAndPayloadsAreEnabled(variant: string, payload: map<string, Json>)
    ensures IsEnabled(StringVariant(variant)) && IsEnabled(StringVariant(""))
    ensures IsEnabled(JsonPayload(payload)) && IsEnabled(JsonPayload(map[]))
  {
  }

  /** Options of a single capture. The timestamp is accepted but never read. */
  datatype CaptureOptions = CaptureOptions(groups: Option<map<string, string>>, timestamp: Option<int>)

  datatype ExceptionLevel = Debug | Info | Warning | Error | Fatal {
    /** `level.name.lowercase()`. */
    function LowerName(): string {
      match this
      case Debug => "debug"
      case Info => "info"
      case Warning => "warning"
      case Error => "error"
      case Fatal => "fatal"
    }
  }

  /**
    The result of a detailed flag evaluation. Only the error shape that the
    facade builds itself is visible, so the reason and error code carry only
    the values it uses.
  */
  datatype FeatureFlagReason = ErrorReason
  datatype FeatureFlagErrorCode = InvalidConfig | UnknownError
  datatype FeatureFlagResult = FeatureFlagResult(
    key: string,
    value: Option<Json>,
    reason: FeatureFlagReason,
    errorCode: Option<FeatureFlagErrorCode>)
}

/**
  The configuration fields the modelled code reads, with their defaults.
  `optOut` is kept to show that the JVM backend never reads it.
*/
module Config {

  const HostUs: string := "https://us.i.posthog.com"

  datatype Settings = Settings(
    apiKey: string,
    host: string := HostUs,
    flushAt: int := 20,
    preloadFeatureFlags: bool := true,
    optOut: bool := false)
}
