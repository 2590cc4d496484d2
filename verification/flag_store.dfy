/**
  The backend's two flag tables (synced values and local overrides), the
  reads over them, and the merge of a flag-sync response into the synced
  table. Payloads share the synced table under `key + "_payload"`.
*/
module FlagStore {
  import opened Wrappers
  import opened JsonValues
  import Text

  /** The synced-table key that holds the payload of flag `key`. */
  function PayloadKey(key: string): string {
    key + "_payload"
  }

  lemma PayloadKeyInjective(k1: string, k2: string)
    ensures PayloadKey(k1) == PayloadKey(k2) ==> k1 == k2
  {
    if PayloadKey(k1) == PayloadKey(k2) {
      assert |k1| == |k2|;
      assert k1 == PayloadKey(k1)[..|k1|] == PayloadKey(k2)[..|k2|] == k2;
    }
  }

  // ---------------------------------------------------------------- reads

  /** `featureFlagOverrides[key] ?: featureFlags[key]`. */
  function GetFeatureFlag(overrides: map<string, Json>, synced: map<string, Json>, key: string): (r: Option<Json>)
    ensures r.Some? <==> key in overrides || key in synced
    ensures key in overrides ==> r == Some(overrides[key])
    ensures key !in overrides && key in synced ==> r == Some(synced[key])
  {
    if key in overrides then Some(overrides[key])
    else if key in synced then Some(synced[key])
    else None
  }

  /**
    `isFeatureEnabled(key, defaultValue)`. An override decides alone: a
    Boolean as is, a String only when it reads "true" ignoring case, any other
    value gives the default without looking at the synced table. Without an
    override the synced value decides: a Boolean as is, a String unless it
    reads "false" ignoring case, any other value counts as enabled, and an
    absent flag gives the default.
  */
  function IsFeatureEnabled(overrides: map<string, Json>, synced: map<string, Json>, key: string, default: bool): (r: bool)
    ensures GetFeatureFlag(overrides, synced, key) == None ==> r == default
    ensures var v := GetFeatureFlag(overrides, synced, key); v.Some? && v.value.JBool? ==> r == v.value.b
    ensures key in overrides && overrides[key].JStr? ==>
              (r <==> Text.EqualsIgnoringCase(overrides[key].s, "true"))
    ensures key in overrides && !overrides[key].JBool? && !overrides[key].JStr? ==> r == default
    ensures key !in overrides && key in synced && synced[key].JStr? ==>
              (r <==> !Text.EqualsIgnoringCase(synced[key].s, "false"))
    ensures key !in overrides && key in synced && !synced[key].JBool? && !synced[key].JStr? ==> r
  {
    if key in overrides then
      match overrides[key]
      case JBool(b) => b
      case JStr(s) => Text.Lower(s) == "true"
      case _ => default
    else if key in synced then
      match synced[key]
      case JBool(b) => b
      case JStr(s) => Text.Lower(s) != "false"
      case _ => true
    else default
  }

  /** `featureFlags[key + "_payload"]`: overrides play no part. */
  function GetFeatureFlagPayload(synced: map<string, Json>, key: string): (r: Option<Json>)
    ensures r.Some? <==> PayloadKey(key) in synced
    ensures r.Some? ==> r.value == synced[PayloadKey(key)]
  {
    if PayloadKey(key) in synced then Some(synced[PayloadKey(key)]) else None
  }

  /** `featureFlagOverrides + featureFlags`: on a shared key the synced value wins. */
  function GetAllFeatureFlags(overrides: map<string, Json>, synced: map<string, Json>): (r: map<string, Json>)
    ensures r.Keys == overrides.Keys + synced.Keys
    ensures forall k :: k in synced ==> r[k] == synced[k]
    ensures forall k :: k in overrides && k !in synced ==> r[k] == overrides[k]
  {
    overrides + synced
  }

  /** An override hides the synced table entirely, whatever the synced value is. */
  lemma OverrideShadowsSynced(overrides: map<string, Json>, synced1: map<string, Json>,
                              synced2: map<string, Json>, key: string, default: bool)
    requires key in overrides
    ensures IsFeatureEnabled(overrides, synced1, key, default) == IsFeatureEnabled(overrides, synced2, key, default)
    ensures GetFeatureFlag(overrides, synced1, key) == GetFeatureFlag(overrides, synced2, key)
  {
  }

  /**
    The all-flags view and the single-flag read disagree on a key present in
    both tables with different values: the single read reports the override,
    the all-flags view the synced value.
  */
  lemma AllFlagsPreferSynced(overrides: map<string, Json>, synced: map<string, Json>, key: string)
    requires key in overrides && key in synced && overrides[key] != synced[key]
    ensures GetFeatureFlag(overrides, synced, key) == Some(overrides[key])
    ensures GetAllFeatureFlags(overrides, synced)[key] != overrides[key]
  {
  }

  /**
    A string that reads neither "true" nor "false" ignoring case (a variant
    name such as "on") is disabled as an override and enabled as a synced
    value.
  */
  lemma StringRulesDiffer(key: string, s: string, default: bool)
    requires !Text.EqualsIgnoringCase(s, "true") && !Text.EqualsIgnoringCase(s, "false")
    ensures !IsFeatureEnabled(map[key := JStr(s)], map[], key, default)
    ensures IsFeatureEnabled(map[], map[key := JStr(s)], key, default)
  {
  }

  /** Upper-case spellings of "true" and "false" are recognised in both tables. */
  lemma StringRulesIgnoreCase(key: string)
    ensures IsFeatureEnabled(map[key := JStr("TRUE")], map[], key, false)
    ensures !IsFeatureEnabled(map[], map[key := JStr("FALSE")], key, true)
  {
    Text.LowerExamples();
  }

  // ---------------------------------------------------------------- sync

  /** A parsed JSON element of the `featureFlags` object: a primitive or a composite with its text. */
  datatype WireValue = Primitive(isString: bool, content: string) | Composite(text: string)

  /**
    How a synced flag value is stored: a string primitive as its content, an
    unquoted primitive reading "true" or "false" ignoring case (the lenient
    parser accepts `TRUE` unquoted) as a Boolean, any other primitive
    (number, null) as its content text, a composite as its JSON text.
  */
  function StoredFlagValue(w: WireValue): (r: Json)
    ensures r.JBool? || r.JStr?
    ensures r.JBool? <==>
              w.Primitive? && !w.isString &&
              (Text.EqualsIgnoringCase(w.content, "true") || Text.EqualsIgnoringCase(w.content, "false"))
    ensures r.JBool? ==> r.b == Text.EqualsIgnoringCase(w.content, "true")
    ensures r.JStr? ==> r.s == (if w.Primitive? then w.content else w.text)
  {
    match w
    case Primitive(isString, content) =>
      if isString then JStr(content)
      else if Text.EqualsIgnoringCase(content, "true") then JBool(true)
      else if Text.EqualsIgnoringCase(content, "false") then JBool(false)
      else JStr(content)
    case Composite(text) => JStr(text)
  }

  /** Quoting decides: an unquoted `TRUE` is stored as a Boolean, a quoted one as its text. */
  lemma QuotingDecidesBoolean()
    ensures StoredFlagValue(Primitive(false, "TRUE")) == JBool(true)
    ensures StoredFlagValue(Primitive(false, "False")) == JBool(false)
    ensures StoredFlagValue(Primitive(true, "TRUE")) == JStr("TRUE")
  {
    Text.LowerExamples();
    assert Text.Lower("False") == "false" by {
      assert Text.Lower("False")[0] == 'f' && Text.Lower("False")[1] == 'a' && Text.Lower("False")[2] == 'l';
    }
  }

  /** A field of the response: missing, present but not an object, or an object. */
  datatype Field<T> = Absent | NotAnObject | Present(entries: T)

  /** The decoded response object; payloads arrive as their JSON text. */
  datatype DecideResponse = DecideResponse(
    featureFlags: Field<map<string, WireValue>>,
    featureFlagPayloads: Field<map<string, string>>)

  /**
    How a flag-sync request ended: the call threw, or a response came back
    with a status and a body that is (`Some`) or is not (`None`) a JSON object.
  */
  datatype SyncOutcome = SyncThrew | Responded(isSuccess: bool, body: Option<DecideResponse>)

  /** The sync writes something: success status, an object body, and no throw on `featureFlags`. */
  predicate Writes(outcome: SyncOutcome) {
    outcome.Responded? && outcome.isSuccess && outcome.body.Some? &&
    !outcome.body.value.featureFlags.NotAnObject?
  }

  function SyncedFlags(outcome: SyncOutcome): map<string, WireValue> {
    if outcome.Responded? && outcome.body.Some? && outcome.body.value.featureFlags.Present?
    then outcome.body.value.featureFlags.entries else map[]
  }

  function SyncedPayloads(outcome: SyncOutcome): map<string, string> {
    if outcome.Responded? && outcome.body.Some? && outcome.body.value.featureFlagPayloads.Present?
    then outcome.body.value.featureFlagPayloads.entries else map[]
  }

  function PayloadKeys(payloads: map<string, string>): set<string> {
    set k | k in payloads :: PayloadKey(k)
  }

  function PayloadEntries(payloads: map<string, string>): (r: map<string, Json>)
    ensures r.Keys == PayloadKeys(payloads)
    ensures forall k :: k in payloads ==> r[PayloadKey(k)] == JStr(payloads[k])
  {
    forall k1, k2 ensures PayloadKey(k1) == PayloadKey(k2) ==> k1 == k2 {
      PayloadKeyInjective(k1, k2);
    }
    map k | k in payloads :: PayloadKey(k) := JStr(payloads[k])
  }

  /**
    The parse-and-merge step of a flag sync. A thrown call, a non-success
    status, a body that is not an object, or a `featureFlags` field that is not
    an object leave the table as it was. Otherwise each flag is upserted, then
    each payload under its payload key (a payload entry wins over a flag named
    like a payload key), and every other key is kept. A `featureFlagPayloads`
    field that is not an object throws after the flags were written, so the
    flags stay.
  */
  function MergeSync(synced: map<string, Json>, outcome: SyncOutcome): (r: map<string, Json>)
    ensures !Writes(outcome) ==> r == synced
    ensures Writes(outcome) ==>
              forall k :: k in SyncedPayloads(outcome) ==> PayloadKey(k) in r && r[PayloadKey(k)] == JStr(SyncedPayloads(outcome)[k])
    ensures Writes(outcome) ==>
              forall k :: k in SyncedFlags(outcome) && k !in PayloadKeys(SyncedPayloads(outcome)) ==>
                k in r && r[k] == StoredFlagValue(SyncedFlags(outcome)[k])
    ensures forall k :: k !in SyncedFlags(outcome) && k !in PayloadKeys(SyncedPayloads(outcome)) ==>
              (k in r <==> k in synced) && (k in synced ==> r[k] == synced[k])
  {
    match outcome
    case SyncThrew => synced
    case Responded(isSuccess, body) =>
      if !isSuccess || body.None? then synced
      else
        match body.value.featureFlags
        case NotAnObject => synced
        case Absent => synced + PayloadEntries(SyncedPayloads(outcome))
        case Present(flags) =>
          var withFlags := synced + map k | k in flags :: StoredFlagValue(flags[k]);
          withFlags + PayloadEntries(SyncedPayloads(outcome))
  }

  /** Every value the synced table holds is a Boolean or a String. */
  predicate SyncShaped(synced: map<string, Json>) {
    forall k :: k in synced ==> synced[k].JBool? || synced[k].JStr?
  }

  /** Syncing keeps the synced table Boolean-or-String valued. */
  lemma MergeSyncKeepsShape(synced: map<string, Json>, outcome: SyncOutcome)
    requires SyncShaped(synced)
    ensures SyncShaped(MergeSync(synced, outcome))
  {
  }

  /**
    On a table filled only by syncs, the "any other value is enabled" branch
    of `IsFeatureEnabled` is never taken: without an override, a synced flag
    is enabled exactly when it is `true` or a string other than "false".
  */
  lemma SyncedReadIsBooleanOrString(synced: map<string, Json>, key: string, default: bool)
    requires SyncShaped(synced) && key in synced
    ensures IsFeatureEnabled(map[], synced, key, default) <==>
              synced[key] == JBool(true) ||
              (synced[key].JStr? && !Text.EqualsIgnoringCase(synced[key].s, "false"))
  {
  }
}
