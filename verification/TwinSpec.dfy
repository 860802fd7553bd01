/**
 * The twin configuration as values: what a JSON object decodes to, what an update does to the state,
 * what is printed, and what holds over every run of updates.
 */
module TwinSpec {
  import opened Common
  import opened Decimal
  import opened Duration
  import opened TimeUtils
  import opened Json
  import opened TwinKeys

  datatype TwinResult =
    | TwinOk | TwinConfNotExist | TwinLockException | TwinParseException | TwinMemoryException | TwinException

  datatype Priority = High | Low | Off | Operational

  datatype Configuration = Configuration(
    maxLocalCacheSize: u32, maxMessageSize: u32, highPriorityMessageFrequency: u32, lowPriorityMessageFrequency: u32,
    snapshotFrequency: u32, baselineCustomChecksEnabled: bool,
    baselineCustomChecksFilePath: Option<string>, baselineCustomChecksFileHash: Option<string>)

  datatype EventCollectors = EventCollectors(
    processCreatePriority: Priority, listeningPortsPriority: Priority, systemInformationPriority: Priority,
    localUsersPriority: Priority, loginPriority: Priority, connectionCreatePriority: Priority,
    firewallConfigurationPriority: Priority, baselinePriority: Priority, diagnostic: Priority, operational: Priority,
    processCreateAggregationEnabled: bool, processCreateAggregationInterval: u32,
    connectionCreateAggregationEnabled: bool, connectionCreateAggregationInterval: u32)

  datatype Twin = Twin(configuration: Configuration, collectors: EventCollectors)

  // ----- one configuration entry: an object with a "value" -----

  const VALUE_KEY := "value"

  datatype Kind = KindString | KindUint | KindTime | KindBool

  datatype Value = TextValue(text: string) | UintValue(number: u32) | BoolValue(flag: bool)

  /** ReadString, ReadInt, ReadTimeInMilliseconds or ReadBool on the current object. */
  function ReadValue(current: Json, name: string, kind: Kind): ReadResult<Value> {
    var typed := GetValueOfType(current, name,
                                match kind case KindUint => TypeNumber case KindBool => TypeBool case _ => TypeString);
    match typed
    case KeyMissing => KeyMissing
    case ValueIsNull => ValueIsNull
    case ParseError => ParseError
    case ReadException => ReadException
    case ReadOk(j) =>
      match kind
      case KindString => ReadOk(TextValue(j.text))
      case KindUint => ReadOk(UintValue(Wrap(ToInt32(j.number))))
      case KindBool => ReadOk(BoolValue(j.flag))
      case KindTime => if Parsed(j.text).Some? then ReadOk(UintValue(Parsed(j.text).value)) else ParseError
  }

  /** What the entry under a key says: nothing, something of the wrong form, or a value. */
  function Configured(obj: Json, key: string, kind: Kind): (TwinResult, Option<Value>) {
    match GetValueOfType(obj, key, TypeObject)
    case KeyMissing => (TwinConfNotExist, None)
    case ValueIsNull => (TwinConfNotExist, None)
    case ParseError => (TwinParseException, None)
    case ReadException => (TwinException, None)
    case ReadOk(entry) =>
      match ReadValue(entry, VALUE_KEY, kind)
      case ReadOk(v) => (TwinOk, Some(v))
      case ReadException => (TwinException, None)
      case _ => (TwinParseException, None)
  }

  // ----- priorities -----

  function ToLower(c: char): char {
    if 'A' <= c <= 'Z' then c - 'A' + 'a' else c
  }

  /** Utils_UnsafeAreStringsEqual without case. */
  predicate EqualIgnoringCase(a: string, b: string) {
    |a| == |b| && forall i | 0 <= i < |a| :: ToLower(a[i]) == ToLower(b[i])
  }

  function PriorityAsEnum(text: string): Option<Priority> {
    if EqualIgnoringCase(text, "high") then Some(High)
    else if EqualIgnoringCase(text, "low") then Some(Low)
    else if EqualIgnoringCase(text, "off") then Some(Off)
    else None
  }

  function PriorityEnumAsString(p: Priority): string {
    match p
    case High => "high"
    case Operational => "high"
    case Low => "low"
    case Off => "off"
  }

  /** Every priority reads back as itself, except the operational one, which reads back as high. */
  lemma PriorityRoundTrip(p: Priority)
    ensures PriorityAsEnum(PriorityEnumAsString(p)) == Some(if p == Operational then High else p)
  {
    assert !EqualIgnoringCase("low", "high") && !EqualIgnoringCase("off", "high");
    assert "off"[0] == 'o' && "low"[0] == 'l';
    assert !EqualIgnoringCase("off", "low");
  }

  /** The three words, in any case, and nothing else. */
  lemma PriorityWords(text: string)
    ensures PriorityAsEnum("high") == PriorityAsEnum("High") == Some(High)
    ensures PriorityAsEnum("low") == PriorityAsEnum("LOW") == Some(Low)
    ensures PriorityAsEnum("off") == PriorityAsEnum("oFF") == Some(Off)
    ensures PriorityAsEnum("operational") == None && PriorityAsEnum("") == None
    ensures PriorityEnumAsString(High) == "high" == PriorityEnumAsString(Operational)
    ensures PriorityEnumAsString(Low) == "low" && PriorityEnumAsString(Off) == "off"
    ensures PriorityAsEnum(text).Some? ==> |text| == 3 || |text| == 4
  {
    assert !EqualIgnoringCase("low", "high") && !EqualIgnoringCase("off", "high");
    assert !EqualIgnoringCase("LOW", "high") && !EqualIgnoringCase("oFF", "high");
    assert "oFF"[0] == 'o' && "off"[0] == 'o' && "low"[0] == 'l';
    assert !EqualIgnoringCase("off", "low") && !EqualIgnoringCase("oFF", "low");
  }

  // ----- settings by key -----

  datatype Setting = Number(number: u32) | Flag(flag: bool) | Text(text: Option<string>) | Level(priority: Priority)

  function KindOf(k: Key): Kind {
    match k
    case MaxLocalCacheSize => KindUint
    case MaxMessageSize => KindUint
    case HighPriorityMessageFrequency => KindTime
    case LowPriorityMessageFrequency => KindTime
    case SnapshotFrequency => KindTime
    case ProcessCreateAggregationInterval => KindTime
    case ConnectionCreateAggregationInterval => KindTime
    case BaselineCustomChecksEnabled => KindBool
    case ProcessCreateAggregationEnabled => KindBool
    case ConnectionCreateAggregationEnabled => KindBool
    case _ => KindString
  }

  const DEFAULT_MAX_MESSAGE_SIZE: u32 := 200 * 1024

  /** The state after Init. */
  const DEFAULTS: Twin := Twin(
    Configuration(10 * 1024 * 1024, DEFAULT_MAX_MESSAGE_SIZE, 7 * MILLISECONDS_IN_A_MINUTE, 5 * MILLISECONDS_IN_AN_HOUR,
                  13 * MILLISECONDS_IN_AN_HOUR, false, None, None),
    EventCollectors(Low, High, Low, High, High, Low, Low, Low, Low, Operational,
                    true, MILLISECONDS_IN_AN_HOUR, true, MILLISECONDS_IN_AN_HOUR))

  lemma DefaultValues()
    ensures DEFAULTS == Twin(
              Configuration(10485760, 204800, 420000, 18000000, 46800000, false, None, None),
              EventCollectors(Low, High, Low, High, High, Low, Low, Low, Low, Operational,
                              true, 3600000, true, 3600000))
  {
  }

  function SettingOf(t: Twin, k: Key): Setting {
    match k
    case MaxLocalCacheSize => Number(t.configuration.maxLocalCacheSize)
    case MaxMessageSize => Number(t.configuration.maxMessageSize)
    case HighPriorityMessageFrequency => Number(t.configuration.highPriorityMessageFrequency)
    case LowPriorityMessageFrequency => Number(t.configuration.lowPriorityMessageFrequency)
    case SnapshotFrequency => Number(t.configuration.snapshotFrequency)
    case BaselineCustomChecksEnabled => Flag(t.configuration.baselineCustomChecksEnabled)
    case BaselineCustomChecksFilePath => Text(t.configuration.baselineCustomChecksFilePath)
    case BaselineCustomChecksFileHash => Text(t.configuration.baselineCustomChecksFileHash)
    case ProcessCreatePriority => Level(t.collectors.processCreatePriority)
    case ListeningPortsPriority => Level(t.collectors.listeningPortsPriority)
    case SystemInformationPriority => Level(t.collectors.systemInformationPriority)
    case LocalUsersPriority => Level(t.collectors.localUsersPriority)
    case LoginPriority => Level(t.collectors.loginPriority)
    case ConnectionCreatePriority => Level(t.collectors.connectionCreatePriority)
    case FirewallConfigurationPriority => Level(t.collectors.firewallConfigurationPriority)
    case BaselinePriority => Level(t.collectors.baselinePriority)
    case DiagnosticPriority => Level(t.collectors.diagnostic)
    case OperationalPriority => Level(t.collectors.operational)
    case ProcessCreateAggregationEnabled => Flag(t.collectors.processCreateAggregationEnabled)
    case ProcessCreateAggregationInterval => Number(t.collectors.processCreateAggregationInterval)
    case ConnectionCreateAggregationEnabled => Flag(t.collectors.connectionCreateAggregationEnabled)
    case ConnectionCreateAggregationInterval => Number(t.collectors.connectionCreateAggregationInterval)
  }

  lemma SameConfiguration(a: Twin, b: Twin)
    requires forall k :: SettingOf(a, k) == SettingOf(b, k)
    ensures a.configuration == b.configuration
  {
    assert SettingOf(a, MaxLocalCacheSize) == SettingOf(b, MaxLocalCacheSize);
    assert SettingOf(a, MaxMessageSize) == SettingOf(b, MaxMessageSize);
    assert SettingOf(a, HighPriorityMessageFrequency) == SettingOf(b, HighPriorityMessageFrequency);
    assert SettingOf(a, LowPriorityMessageFrequency) == SettingOf(b, LowPriorityMessageFrequency);
    assert SettingOf(a, SnapshotFrequency) == SettingOf(b, SnapshotFrequency);
    assert SettingOf(a, BaselineCustomChecksEnabled) == SettingOf(b, BaselineCustomChecksEnabled);
    assert SettingOf(a, BaselineCustomChecksFilePath) == SettingOf(b, BaselineCustomChecksFilePath);
    assert SettingOf(a, BaselineCustomChecksFileHash) == SettingOf(b, BaselineCustomChecksFileHash);
  }

  lemma SamePriorities(a: Twin, b: Twin)
    requires forall k :: SettingOf(a, k) == SettingOf(b, k)
    ensures a.collectors.processCreatePriority == b.collectors.processCreatePriority
    ensures a.collectors.listeningPortsPriority == b.collectors.listeningPortsPriority
    ensures a.collectors.systemInformationPriority == b.collectors.systemInformationPriority
    ensures a.collectors.localUsersPriority == b.collectors.localUsersPriority
    ensures a.collectors.loginPriority == b.collectors.loginPriority
  {
    assert SettingOf(a, ProcessCreatePriority) == SettingOf(b, ProcessCreatePriority);
    assert SettingOf(a, ListeningPortsPriority) == SettingOf(b, ListeningPortsPriority);
    assert SettingOf(a, SystemInformationPriority) == SettingOf(b, SystemInformationPriority);
    assert SettingOf(a, LocalUsersPriority) == SettingOf(b, LocalUsersPriority);
    assert SettingOf(a, LoginPriority) == SettingOf(b, LoginPriority);
  }

  /** A twin is determined by its settings. */
  lemma SameSettingsSameTwin(a: Twin, b: Twin)
    requires forall k :: SettingOf(a, k) == SettingOf(b, k)
    ensures a == b
  {
    hide SettingOf;
    SameConfiguration(a, b);
    SamePriorities(a, b);
    SameOtherPriorities(a, b);
    SameAggregation(a, b);
    assert a == Twin(a.configuration, a.collectors);
  }

  lemma SameOtherPriorities(a: Twin, b: Twin)
    requires forall k :: SettingOf(a, k) == SettingOf(b, k)
    ensures a.collectors.connectionCreatePriority == b.collectors.connectionCreatePriority
    ensures a.collectors.firewallConfigurationPriority == b.collectors.firewallConfigurationPriority
    ensures a.collectors.baselinePriority == b.collectors.baselinePriority
    ensures a.collectors.diagnostic == b.collectors.diagnostic
    ensures a.collectors.operational == b.collectors.operational
  {
    assert SettingOf(a, ConnectionCreatePriority) == SettingOf(b, ConnectionCreatePriority);
    assert SettingOf(a, FirewallConfigurationPriority) == SettingOf(b, FirewallConfigurationPriority);
    assert SettingOf(a, BaselinePriority) == SettingOf(b, BaselinePriority);
    assert SettingOf(a, DiagnosticPriority) == SettingOf(b, DiagnosticPriority);
    assert SettingOf(a, OperationalPriority) == SettingOf(b, OperationalPriority);
  }

  lemma SameAggregation(a: Twin, b: Twin)
    requires forall k :: SettingOf(a, k) == SettingOf(b, k)
    ensures a.collectors.processCreateAggregationEnabled == b.collectors.processCreateAggregationEnabled
    ensures a.collectors.processCreateAggregationInterval == b.collectors.processCreateAggregationInterval
    ensures a.collectors.connectionCreateAggregationEnabled == b.collectors.connectionCreateAggregationEnabled
    ensures a.collectors.connectionCreateAggregationInterval == b.collectors.connectionCreateAggregationInterval
  {
    assert SettingOf(a, ProcessCreateAggregationEnabled) == SettingOf(b, ProcessCreateAggregationEnabled);
    assert SettingOf(a, ProcessCreateAggregationInterval) == SettingOf(b, ProcessCreateAggregationInterval);
    assert SettingOf(a, ConnectionCreateAggregationEnabled) == SettingOf(b, ConnectionCreateAggregationEnabled);
    assert SettingOf(a, ConnectionCreateAggregationInterval) == SettingOf(b, ConnectionCreateAggregationInterval);
  }

  predicate IsPriority(k: Key) {
    k in PRIORITY_KEYS
  }

  function Convert(k: Key, v: Value): Option<Setting> {
    match v
    case UintValue(n) => Some(Number(n))
    case BoolValue(b) => Some(Flag(b))
    case TextValue(s) =>
      if !IsPriority(k) then Some(Text(Some(s)))
      else if PriorityAsEnum(s).Some? then Some(Level(PriorityAsEnum(s).value))
      else None
  }

  /** What an object says about a key: the default where it is silent, None where it is malformed. */
  function Decode(obj: Json, k: Key): Option<Setting> {
    match Configured(obj, KeyText(k), KindOf(k))
    case (TwinOk, Some(v)) => Convert(k, v)
    case (TwinConfNotExist, _) => Some(SettingOf(DEFAULTS, k))
    case _ => None
  }

  predicate Decodes(obj: Json, keys: seq<Key>) {
    forall k | k in keys :: Decode(obj, k).Some?
  }

  const ALL_KEYS: seq<Key> := CONFIGURATION_KEYS + PRIORITY_KEYS + AGGREGATION_KEYS

  lemma EveryKey(k: Key)
    ensures k in CONFIGURATION_KEYS || k in PRIORITY_KEYS || k in AGGREGATION_KEYS
    ensures k in ALL_KEYS
  {
  }

  function NumberOf(s: Option<Setting>): u32 {
    match s case Some(Number(n)) => n case _ => 0
  }

  function FlagOf(s: Option<Setting>): bool {
    match s case Some(Flag(b)) => b case _ => false
  }

  function TextOf(s: Option<Setting>): Option<string> {
    match s case Some(Text(t)) => t case _ => None
  }

  function LevelOf(s: Option<Setting>): Priority {
    match s case Some(Level(p)) => p case _ => Off
  }

  function NumberAt(obj: Json, k: Key): u32 {
    NumberOf(Decode(obj, k))
  }

  function FlagAt(obj: Json, k: Key): bool {
    FlagOf(Decode(obj, k))
  }

  function TextAt(obj: Json, k: Key): Option<string> {
    TextOf(Decode(obj, k))
  }

  function LevelAt(obj: Json, k: Key): Priority {
    LevelOf(Decode(obj, k))
  }

  function DecodedConfiguration(obj: Json): Configuration {
    Configuration(
      NumberAt(obj, MaxLocalCacheSize), NumberAt(obj, MaxMessageSize), NumberAt(obj, HighPriorityMessageFrequency),
      NumberAt(obj, LowPriorityMessageFrequency), NumberAt(obj, SnapshotFrequency),
      FlagAt(obj, BaselineCustomChecksEnabled), TextAt(obj, BaselineCustomChecksFilePath),
      TextAt(obj, BaselineCustomChecksFileHash))
  }

  function DecodedCollectors(obj: Json): EventCollectors {
    EventCollectors(
      LevelAt(obj, ProcessCreatePriority), LevelAt(obj, ListeningPortsPriority),
      LevelAt(obj, SystemInformationPriority),
      LevelAt(obj, LocalUsersPriority), LevelAt(obj, LoginPriority), LevelAt(obj, ConnectionCreatePriority),
      LevelAt(obj, FirewallConfigurationPriority), LevelAt(obj, BaselinePriority), LevelAt(obj, DiagnosticPriority),
      LevelAt(obj, OperationalPriority),
      FlagAt(obj, ProcessCreateAggregationEnabled), NumberAt(obj, ProcessCreateAggregationInterval),
      FlagAt(obj, ConnectionCreateAggregationEnabled), NumberAt(obj, ConnectionCreateAggregationInterval))
  }

  function DecodedTwin(obj: Json): Twin {
    Twin(DecodedConfiguration(obj), DecodedCollectors(obj))
  }

  /** The form of a key's setting goes with the kind of its entry. */
  lemma ShapeOf(t: Twin, k: Key)
    ensures SettingOf(t, k).Number? <==> KindOf(k) == KindUint || KindOf(k) == KindTime
    ensures SettingOf(t, k).Flag? <==> KindOf(k) == KindBool
    ensures SettingOf(t, k).Level? <==> KindOf(k) == KindString && IsPriority(k)
    ensures SettingOf(t, k).Text? <==> KindOf(k) == KindString && !IsPriority(k)
    ensures IsPriority(k) ==> KindOf(k) == KindString
  {
    PriorityShape(t, k);
    hide IsPriority;
  }

  lemma PriorityShape(t: Twin, k: Key)
    ensures IsPriority(k) <==> SettingOf(t, k).Level?
  {
    if IsPriority(k) {
      var i :| 0 <= i < |PRIORITY_KEYS| && PRIORITY_KEYS[i] == k;
    }
  }

  /** A configured value has the form of its kind. */
  lemma ConfiguredTyped(obj: Json, key: string, kind: Kind)
    ensures Configured(obj, key, kind).1.Some? ==>
              match kind
              case KindString => Configured(obj, key, kind).1.value.TextValue?
              case KindBool => Configured(obj, key, kind).1.value.BoolValue?
              case _ => Configured(obj, key, kind).1.value.UintValue?
  {
    hide GetValueOfType, Parsed, Wrap, ToInt32;
  }

  /** A decoded value has the form its key's field needs. */
  lemma DecodeTyped(obj: Json, k: Key)
    requires Decode(obj, k).Some?
    ensures match SettingOf(DEFAULTS, k)
            case Number(_) => Decode(obj, k).value.Number?
            case Flag(_) => Decode(obj, k).value.Flag?
            case Text(_) => Decode(obj, k).value.Text?
            case Level(_) => Decode(obj, k).value.Level?
  {
    hide KeyText, DEFAULTS, SettingOf, KindOf, IsPriority, PriorityAsEnum;
    ShapeOf(DEFAULTS, k);
    ConfiguredTyped(obj, KeyText(k), KindOf(k));
  }

  /** The decoded twin says about every key what the object says. */
  lemma DecodedSettings(obj: Json, k: Key)
    requires Decode(obj, k).Some?
    ensures Decode(obj, k) == Some(SettingOf(DecodedTwin(obj), k))
  {
    hide Decode, DEFAULTS, SettingOf, KindOf, IsPriority, NumberAt, FlagAt, TextAt, LevelAt;
    ShapeOf(DEFAULTS, k);
    ShapeOf(DecodedTwin(obj), k);
    DecodeTyped(obj, k);
    DecodedParts(obj, k);
    SettingAt(obj, k);
  }

  lemma SettingAt(obj: Json, k: Key)
    ensures match SettingOf(DecodedTwin(obj), k)
            case Number(n) => NumberAt(obj, k) == n
            case Flag(b) => FlagAt(obj, k) == b
            case Text(t) => TextAt(obj, k) == t
            case Level(p) => LevelAt(obj, k) == p
  {
    hide NumberAt, FlagAt, TextAt, LevelAt;
  }

  lemma DecodedParts(obj: Json, k: Key)
    requires Decode(obj, k).Some?
    ensures match Decode(obj, k).value
            case Number(n) => NumberAt(obj, k) == n
            case Flag(b) => FlagAt(obj, k) == b
            case Text(t) => TextAt(obj, k) == t
            case Level(p) => LevelAt(obj, k) == p
  {
    hide Decode;
  }

  /** What an object says about a key, read off its members. */
  lemma DecodeByMembers(fields: map<string, Json>, k: Key)
    ensures var key, d := KeyText(k), Decode(JsonObject(fields), k);
            if key !in fields || fields[key].JsonNull? then d == Some(SettingOf(DEFAULTS, k))
            else if !fields[key].JsonObject? || "value" !in fields[key].fields then d == None
            else match (KindOf(k), fields[key].fields["value"])
                 case (KindUint, JsonNumber(n)) => d == Some(Number(Wrap(ToInt32(n))))
                 case (KindBool, JsonBool(b)) => d == Some(Flag(b))
                 case (KindTime, JsonString(s)) =>
                   d == (match Parsed(s) case Some(v) => Some(Number(v)) case None => None)
                 case (KindString, JsonString(s)) =>
                   if k !in PRIORITY_KEYS then d == Some(Text(Some(s)))
                   else d == (match PriorityAsEnum(s) case Some(p) => Some(Level(p)) case None => None)
                 case _ => d == None
  {
    hide KeyText, KindOf, Parsed, PriorityAsEnum, DEFAULTS, Configured, IsPriority;
    KeyTextDotFree(k);
    ConfiguredByMembers(fields, KeyText(k), KindOf(k));
    PriorityIsText(k);
  }

  lemma PriorityIsText(k: Key)
    ensures IsPriority(k) <==> k in PRIORITY_KEYS
    ensures IsPriority(k) ==> KindOf(k) == KindString
  {
    ShapeOf(DEFAULTS, k);
  }

  /** Nothing configured, a value of the wanted kind, or a parse failure. */
  lemma ConfiguredByMembers(fields: map<string, Json>, key: string, kind: Kind)
    requires DotFree(key)
    ensures var c := Configured(JsonObject(fields), key, kind);
            if key !in fields || fields[key].JsonNull? then c == (TwinConfNotExist, None)
            else if !fields[key].JsonObject? || "value" !in fields[key].fields then c == (TwinParseException, None)
            else match (kind, fields[key].fields["value"])
                 case (KindUint, JsonNumber(n)) => c == (TwinOk, Some(UintValue(Wrap(ToInt32(n)))))
                 case (KindBool, JsonBool(b)) => c == (TwinOk, Some(BoolValue(b)))
                 case (KindString, JsonString(s)) => c == (TwinOk, Some(TextValue(s)))
                 case (KindTime, JsonString(s)) =>
                   c == (match Parsed(s) case Some(v) => (TwinOk, Some(UintValue(v)))
                                         case None => (TwinParseException, None))
                 case _ => c == (TwinParseException, None)
  {
    hide Split, Parsed, GetValueOfType, ToInt32;
    ValueKeyDotFree();
    MemberRead(fields, key, TypeObject);
    if key in fields && fields[key].JsonObject? {
      ReadByMembers(fields[key].fields, kind);
      hide ReadValue;
    }
  }

  lemma ReadByMembers(entry: map<string, Json>, kind: Kind)
    ensures var r := ReadValue(JsonObject(entry), VALUE_KEY, kind);
            if "value" !in entry then r == KeyMissing
            else match (kind, entry["value"])
                 case (_, JsonNull) => r == ValueIsNull
                 case (KindUint, JsonNumber(n)) => r == ReadOk(UintValue(Wrap(ToInt32(n))))
                 case (KindBool, JsonBool(b)) => r == ReadOk(BoolValue(b))
                 case (KindString, JsonString(s)) => r == ReadOk(TextValue(s))
                 case (KindTime, JsonString(s)) =>
                   r == (match Parsed(s) case Some(v) => ReadOk(UintValue(v)) case None => ParseError)
                 case _ => r == ParseError
  {
    hide Split, Parsed, GetValueOfType, ToInt32;
    ValueKeyDotFree();
    MemberRead(entry, VALUE_KEY, TypeString);
    MemberRead(entry, VALUE_KEY, TypeNumber);
    MemberRead(entry, VALUE_KEY, TypeBool);
  }

  // ----- updates -----

  datatype Selection = Chosen(member: Json) | Refused(result: TwinResult)

  function SelectNamed(base: Json, name: string): Selection {
    match GetValueOfType(base, name, TypeObject)
    case ReadOk(j) => Chosen(j)
    case KeyMissing => Chosen(JsonObject(map[]))
    case ValueIsNull => Chosen(JsonObject(map[]))
    case ParseError => Refused(TwinParseException)
    case ReadException => Refused(TwinParseException)
  }

  /** The object an update is decoded from; a document without the agent's object counts as an empty one. */
  function Select(document: Option<Json>, name: string, complete: bool): Selection {
    if document.None? || !document.value.JsonObject? then Refused(TwinException)
    else if !complete then SelectNamed(document.value, name)
    else
      match GetValueOfType(document.value, "desired", TypeObject)
      case ReadOk(j) => SelectNamed(j, name)
      case _ => Refused(TwinParseException)
  }

  /** One call of Update: the parsed document (None: it is no JSON text) and whether it is a complete twin. */
  datatype Update = Update(document: Option<Json>, complete: bool)

  /** A complete twin is its "desired" object, if it has one. */
  lemma CompleteIsDesired(fields: map<string, Json>, name: string)
    ensures "desired" in fields && fields["desired"].JsonObject? ==>
              Select(Some(JsonObject(fields)), name, true) == Select(Some(fields["desired"]), name, false)
    ensures !("desired" in fields && fields["desired"].JsonObject?) ==>
              Select(Some(JsonObject(fields)), name, true) == Refused(TwinParseException)
  {
    hide Split, GetValueOfType;
    assert DotFree("desired");
    MemberRead(fields, "desired", TypeObject);
  }

  /** The agent's object under a plain name: an absent or null one counts as empty, any other form is refused. */
  lemma MemberSelected(fields: map<string, Json>, name: string)
    requires DotFree(name)
    ensures Select(Some(JsonObject(fields)), name, false)
            == if name !in fields || fields[name].JsonNull? then Chosen(JsonObject(map[]))
               else if fields[name].JsonObject? then Chosen(fields[name])
               else Refused(TwinParseException)
  {
    hide Split, GetValueOfType;
    MemberRead(fields, name, TypeObject);
  }

  predicate Accepted(name: string, u: Update) {
    var s := Select(u.document, name, u.complete);
    s.Chosen? && Decodes(s.member, CONFIGURATION_KEYS) && Decodes(s.member, PRIORITY_KEYS)
    && Decodes(s.member, AGGREGATION_KEYS)
  }

  /** Rejected only by an aggregation entry, after the priorities were read. */
  predicate LateRejected(name: string, u: Update) {
    var s := Select(u.document, name, u.complete);
    s.Chosen? && Decodes(s.member, CONFIGURATION_KEYS) && Decodes(s.member, PRIORITY_KEYS)
    && !Decodes(s.member, AGGREGATION_KEYS)
  }

  /** The normalisation meant for the new operational priority; the code applies it to the one in force. */
  function Normalized(p: Priority): Priority {
    if p == Off then Off else Operational
  }

  function WithOperational(t: Twin, p: Priority): Twin {
    t.(collectors := t.collectors.(operational := p))
  }

  function Updated(t: Twin, name: string, u: Update): Twin {
    if Accepted(name, u) then DecodedTwin(Select(u.document, name, u.complete).member)
    else if LateRejected(name, u) then WithOperational(t, Normalized(t.collectors.operational))
    else t
  }

  /** A complete update does what the partial update with its "desired" object does, or nothing if it has none. */
  lemma CompleteUpdated(t: Twin, name: string, fields: map<string, Json>)
    ensures var u := Update(Some(JsonObject(fields)), true);
            if "desired" in fields && fields["desired"].JsonObject? then
              var partial := Update(Some(fields["desired"]), false);
              Updated(t, name, u) == Updated(t, name, partial) && (Accepted(name, u) <==> Accepted(name, partial))
            else
              Updated(t, name, u) == t && !Accepted(name, u)
  {
    hide Select, Decodes, DecodedTwin;
    CompleteIsDesired(fields, name);
  }

  predicate EqualButOperational(a: Twin, b: Twin) {
    WithOperational(a, Off) == WithOperational(b, Off)
  }

  /**
   * A rejected update changes nothing, with one exception: late rejection while the operational priority is high or
   * low.
   */
  lemma RejectedUnchangedIff(t: Twin, name: string, u: Update)
    requires !Accepted(name, u)
    ensures EqualButOperational(Updated(t, name, u), t)
    ensures Updated(t, name, u) == t <==>
            !(LateRejected(name, u) && (t.collectors.operational == High || t.collectors.operational == Low))
  {
  }

  function Updates(t: Twin, name: string, us: seq<Update>): Twin {
    if us == [] then t else Updated(Updates(t, name, us[..|us| - 1]), name, us[|us| - 1])
  }

  lemma OneMoreUpdate(t: Twin, name: string, us: seq<Update>, u: Update)
    ensures Updates(t, name, us + [u]) == Updated(Updates(t, name, us), name, u)
  {
    assert (us + [u])[..|us|] == us;
  }

  /** What the last accepted update decoded to, or the defaults if none was accepted. */
  function LastAccepted(name: string, us: seq<Update>): Twin {
    if us == [] then DEFAULTS
    else
      var last := us[|us| - 1];
      if Accepted(name, last) then DecodedTwin(Select(last.document, name, last.complete).member)
      else LastAccepted(name, us[..|us| - 1])
  }

  /** Whether some update since the last accepted one was rejected late. */
  predicate LateSince(name: string, us: seq<Update>) {
    us != [] &&
    var last := us[|us| - 1];
    !Accepted(name, last) && (LateRejected(name, last) || LateSince(name, us[..|us| - 1]))
  }

  /**
   * Memoryless: after any run from Init the state is what the last accepted document decodes to, missing keys at their
   * defaults; only the operational priority depends on more, namely on a late rejection since. Updated and Decode are
   * what the program does for documents whose duration texts are readable (TwinConfiguration.ReadableTimes).
   */
  lemma {:induction false} Memoryless(name: string, us: seq<Update>)
    ensures var last := LastAccepted(name, us);
            Updates(DEFAULTS, name, us)
            == if LateSince(name, us) then WithOperational(last, Normalized(last.collectors.operational)) else last
  {
    hide Accepted, LateRejected, DEFAULTS, DecodedTwin;
    if us != [] {
      Memoryless(name, us[..|us| - 1]);
    }
  }

  // ----- every interval is a positive number of whole seconds -----

  predicate WholeSeconds(ms: u32) {
    ms % 1000 == 0 && 1000 <= ms
  }

  predicate WellTimed(t: Twin) {
    && WholeSeconds(t.configuration.highPriorityMessageFrequency)
    && WholeSeconds(t.configuration.lowPriorityMessageFrequency)
    && WholeSeconds(t.configuration.snapshotFrequency)
    && WholeSeconds(t.collectors.processCreateAggregationInterval)
    && WholeSeconds(t.collectors.connectionCreateAggregationInterval)
  }

  /** Every interval is at least a second, so that each can be printed. */
  predicate Printable(t: Twin) {
    && MILLISECONDS_IN_A_SECOND <= t.configuration.highPriorityMessageFrequency
    && MILLISECONDS_IN_A_SECOND <= t.configuration.lowPriorityMessageFrequency
    && MILLISECONDS_IN_A_SECOND <= t.configuration.snapshotFrequency
    && MILLISECONDS_IN_A_SECOND <= t.collectors.processCreateAggregationInterval
    && MILLISECONDS_IN_A_SECOND <= t.collectors.connectionCreateAggregationInterval
  }

  lemma {:induction false} WeightedWhole(units: seq<Unit>, fields: Fields)
    requires WellFormed(units, fields) && forall i | 0 <= i < |units| :: units[i].weight % 1000 == 0
    ensures Weighted(units, fields) % 1000 == 0
  {
    if units != [] {
      hide ValueOf, AllDigits;
      WeightedWhole(units[1..], fields[1..]);
      var rest := Weighted(units[1..], fields[1..]);
      if fields[0].Some? {
        MultipleOf1000(ValueOf(fields[0].value), units[0].weight, rest);
      }
    }
  }

  lemma MultipleOf1000(a: nat, w: nat, rest: nat)
    requires w % 1000 == 0 && rest % 1000 == 0
    ensures (a * w + rest) % 1000 == 0
  {
    Fraction(a, w / 1000, rest);
  }

  lemma UnitsWhole()
    ensures forall i | 0 <= i < |DATE_UNITS| :: DATE_UNITS[i].weight % 1000 == 0
    ensures forall i | 0 <= i < |TIME_UNITS| :: TIME_UNITS[i].weight % 1000 == 0
  {
  }

  lemma ComponentsWhole(c: Components)
    requires c.Valid()
    ensures c.Sum() % 1000 == 0
  {
    hide Weighted, WellFormed, SomePresent, DATE_UNITS, TIME_UNITS;
    UnitsWhole();
    WeightedWhole(DATE_UNITS, c.date);
    if c.time.Some? {
      WeightedWhole(TIME_UNITS, c.time.value);
    }
  }

  /** The parser only ever delivers positive whole seconds. */
  lemma ParsedWholeSeconds(text: string)
    requires Parsed(text).Some?
    ensures WholeSeconds(Parsed(text).value)
  {
    hide Meaning, Components.Valid, Components.Sum, Components.Text;
    var c := TextOfMeaning(text);
    ComponentsWhole(c);
  }

  lemma DecodedWholeSeconds(obj: Json, k: Key)
    requires KindOf(k) == KindTime && Decode(obj, k).Some?
    ensures WholeSeconds(NumberAt(obj, k))
  {
    hide KeyText, Parsed, PriorityAsEnum, GetValueOfType;
    var entry := GetValueOfType(obj, KeyText(k), TypeObject);
    if entry.ReadOk? {
      var text := GetValueOfType(entry.value, VALUE_KEY, TypeString);
      TypedText(entry.value, VALUE_KEY);
      if text.ReadOk? && Parsed(text.value.text).Some? {
        ParsedWholeSeconds(text.value.text);
      }
    }
  }

  lemma TypedText(j: Json, name: string)
    ensures GetValueOfType(j, name, TypeString).ReadOk? ==> GetValueOfType(j, name, TypeString).value.JsonString?
  {
  }

  lemma AcceptedWellTimed(name: string, u: Update)
    requires Accepted(name, u)
    ensures WellTimed(DecodedTwin(Select(u.document, name, u.complete).member))
  {
    hide Decode, Select, NumberAt, WholeSeconds;
    var obj := Select(u.document, name, u.complete).member;
    DecodedWholeSeconds(obj, HighPriorityMessageFrequency);
    DecodedWholeSeconds(obj, LowPriorityMessageFrequency);
    DecodedWholeSeconds(obj, SnapshotFrequency);
    DecodedWholeSeconds(obj, ProcessCreateAggregationInterval);
    DecodedWholeSeconds(obj, ConnectionCreateAggregationInterval);
  }

  /**
   * State invariant: from Init through any run of updates, every stored interval can be printed exactly. As for
   * Memoryless, the runs are the program's as far as the documents' duration texts are readable.
   */
  lemma {:induction false} ReachableWellTimed(name: string, us: seq<Update>)
    ensures WellTimed(Updates(DEFAULTS, name, us)) && Printable(Updates(DEFAULTS, name, us))
  {
    if us != [] {
      hide Accepted, LateRejected, DecodedTwin, Select, DEFAULTS;
      ReachableWellTimed(name, us[..|us| - 1]);
      if Accepted(name, us[|us| - 1]) {
        AcceptedWellTimed(name, us[|us| - 1]);
      }
    }
  }

  // ----- printing the twin -----

  /** The value printed under a key; None where nothing is printed. */
  function PrintedValue(t: Twin, k: Key): Option<Json> {
    match SettingOf(t, k)
    case Number(n) => Some(if KindOf(k) == KindTime then JsonString(Printed(n)) else JsonNumber(AsInt32(n) as real))
    case Flag(b) => Some(JsonBool(b))
    case Text(None) => None
    case Text(Some(s)) => Some(JsonString(s))
    case Level(p) => Some(JsonString(PriorityEnumAsString(p)))
  }

  function Entry(value: Json): Json {
    JsonObject(map[VALUE_KEY := value])
  }

  /** The members of the printed object are the entries of the printed values, and nothing else. */
  ghost predicate IsPrint(members: map<string, Json>, t: Twin) {
    forall k :: if PrintedValue(t, k).Some?
                then KeyText(k) in members && members[KeyText(k)] == Entry(PrintedValue(t, k).value)
                else KeyText(k) !in members
  }

  /** The order in which the twin is printed. */
  const PRINT_ORDER: seq<Key> :=
    CONFIGURATION_KEYS +
    [BaselinePriority, ConnectionCreatePriority, DiagnosticPriority, FirewallConfigurationPriority,
     ListeningPortsPriority, LocalUsersPriority, LoginPriority, OperationalPriority, ProcessCreatePriority,
     SystemInformationPriority] +
    AGGREGATION_KEYS

  lemma PrintOrder()
    ensures |PRINT_ORDER| == 22
    ensures PRINT_ORDER[0] == MaxLocalCacheSize && PRINT_ORDER[1] == MaxMessageSize
    ensures PRINT_ORDER[2] == HighPriorityMessageFrequency && PRINT_ORDER[3] == LowPriorityMessageFrequency
    ensures PRINT_ORDER[4] == SnapshotFrequency && PRINT_ORDER[5] == BaselineCustomChecksEnabled
    ensures PRINT_ORDER[6] == BaselineCustomChecksFilePath && PRINT_ORDER[7] == BaselineCustomChecksFileHash
    ensures PRINT_ORDER[8] == BaselinePriority && PRINT_ORDER[9] == ConnectionCreatePriority
    ensures PRINT_ORDER[10] == DiagnosticPriority && PRINT_ORDER[11] == FirewallConfigurationPriority
    ensures PRINT_ORDER[12] == ListeningPortsPriority && PRINT_ORDER[13] == LocalUsersPriority
    ensures PRINT_ORDER[14] == LoginPriority && PRINT_ORDER[15] == OperationalPriority
    ensures PRINT_ORDER[16] == ProcessCreatePriority && PRINT_ORDER[17] == SystemInformationPriority
    ensures PRINT_ORDER[18] == ProcessCreateAggregationEnabled && PRINT_ORDER[19] == ProcessCreateAggregationInterval
    ensures PRINT_ORDER[20] == ConnectionCreateAggregationEnabled
    ensures PRINT_ORDER[21] == ConnectionCreateAggregationInterval
  {
  }

  /** The members after the first n keys are printed. */
  ghost predicate PrintedUpTo(members: map<string, Json>, t: Twin, n: nat)
    requires n <= |PRINT_ORDER|
  {
    forall k :: if k in PRINT_ORDER[..n] && PrintedValue(t, k).Some?
                then KeyText(k) in members && members[KeyText(k)] == Entry(PrintedValue(t, k).value)
                else KeyText(k) !in members
  }

  function Put(members: map<string, Json>, k: Key, value: Option<Json>): map<string, Json> {
    if value.None? then members else members[KeyText(k) := Entry(value.value)]
  }

  lemma PrintOne(members: map<string, Json>, t: Twin, n: nat)
    requires n < |PRINT_ORDER| && PrintedUpTo(members, t, n)
    ensures PrintedUpTo(Put(members, PRINT_ORDER[n], PrintedValue(t, PRINT_ORDER[n])), t, n + 1)
  {
    hide KeyText, PrintedValue, Entry, PRINT_ORDER;
    var k := PRINT_ORDER[n];
    forall other | KeyText(other) == KeyText(k) ensures other == k {
      KeyTextInjective(other, k);
    }
    assert PRINT_ORDER[..n + 1] == PRINT_ORDER[..n] + [k];
  }

  lemma NothingPrinted(t: Twin)
    ensures PrintedUpTo(map[], t, 0)
  {
  }

  lemma PrintedAll(members: map<string, Json>, t: Twin)
    requires PrintedUpTo(members, t, |PRINT_ORDER|)
    ensures IsPrint(members, t)
  {
    hide KeyText, PrintedValue;
    forall k ensures k in PRINT_ORDER {
      EveryKey(k);
      PrintOrder();
    }
    assert PRINT_ORDER[..|PRINT_ORDER|] == PRINT_ORDER;
  }

  function Document(members: map<string, Json>, name: string): Json {
    JsonObject(map[name := JsonObject(members)])
  }

  /** What the reader finds where an entry was printed. */
  lemma ConfiguredEntry(members: map<string, Json>, k: Key, value: Option<Json>)
    requires if value.Some? then KeyText(k) in members && members[KeyText(k)] == Entry(value.value)
             else KeyText(k) !in members
    requires value.Some? ==> !value.value.JsonNull?
    ensures Configured(JsonObject(members), KeyText(k), KindOf(k))
            == if value.None? then (TwinConfNotExist, None)
               else match ReadPlain(value.value, KindOf(k))
                    case Some(v) => (TwinOk, Some(v))
                    case None => (TwinParseException, None)
  {
    hide KeyText, KindOf, Split, Parsed;
    KeyTextDotFree(k);
    FollowOne(members, KeyText(k));
    if value.Some? {
      ValueKeyDotFree();
      FollowOne(map[VALUE_KEY := value.value], VALUE_KEY);
    }
  }

  function ReadPlain(j: Json, kind: Kind): Option<Value> {
    match (kind, j)
    case (KindString, JsonString(s)) => Some(TextValue(s))
    case (KindUint, JsonNumber(n)) => Some(UintValue(Wrap(ToInt32(n))))
    case (KindBool, JsonBool(b)) => Some(BoolValue(b))
    case (KindTime, JsonString(s)) => if Parsed(s).Some? then Some(UintValue(Parsed(s).value)) else None
    case _ => None
  }

  function ReadBackAs(s: Setting): Setting {
    if s == Level(Operational) then Level(High) else s
  }

  lemma TimedSetting(t: Twin, k: Key)
    requires WellTimed(t) && KindOf(k) == KindTime
    ensures SettingOf(t, k).Number? && WholeSeconds(SettingOf(t, k).number)
  {
  }

  /** A printed value converts back to the setting it was printed from. */
  lemma ReadPrinted(t: Twin, k: Key)
    requires WellTimed(t) && PrintedValue(t, k).Some?
    ensures !PrintedValue(t, k).value.JsonNull?
    ensures var v := ReadPlain(PrintedValue(t, k).value, KindOf(k));
            v.Some? && Convert(k, v.value) == Some(ReadBackAs(SettingOf(t, k)))
  {
    hide PriorityAsEnum, PriorityEnumAsString, Parsed, Printed, AsInt32, ToInt32, Wrap, SettingOf, KindOf, IsPriority,
         WellTimed;
    ShapeOf(t, k);
    match SettingOf(t, k) {
      case Number(n) =>
        if KindOf(k) == KindTime {
          TimedSetting(t, k);
          RoundTrip(n);
        } else {
          NumberRoundTrip(n);
        }
      case Level(p) => PriorityRoundTrip(p);
      case Text(_) =>
      case Flag(_) =>
    }
  }

  lemma NotPrinted(t: Twin, k: Key)
    requires PrintedValue(t, k).None?
    ensures SettingOf(t, k) == Text(None) == SettingOf(DEFAULTS, k)
  {
    TextDefaults(t, k);
  }

  /** A printed entry is read back as the setting it was printed from; the operational priority as high. */
  lemma DecodePrinted(members: map<string, Json>, t: Twin, k: Key)
    requires IsPrint(members, t) && WellTimed(t)
    ensures Decode(JsonObject(members), k)
            == Some(ReadBackAs(SettingOf(t, k)))
  {
    hide KeyText, Configured, DEFAULTS, Entry, PrintedValue, ReadPlain, Convert, SettingOf, WellTimed;
    if PrintedValue(t, k).Some? {
      ReadPrinted(t, k);
    } else {
      NotPrinted(t, k);
    }
    ConfiguredEntry(members, k, PrintedValue(t, k));
  }

  lemma TextDefaults(t: Twin, k: Key)
    ensures SettingOf(t, k).Text? ==> SettingOf(DEFAULTS, k) == Text(None)
  {
  }

  lemma ValueKeyDotFree()
    ensures DotFree(VALUE_KEY)
  {
  }

  // ----- applying the print -----

  /** Applying a printed twin as a partial update. */
  function Reapplied(members: map<string, Json>, name: string): Update {
    Update(Some(Document(members, name)), false)
  }

  /** Reading back turns "high", printed for the operational priority, into the high priority. */
  function ReadBack(t: Twin): Twin {
    WithOperational(t, if t.collectors.operational == Operational then High else t.collectors.operational)
  }

  lemma DottedNameMissed(members: map<string, Json>, name: string)
    requires !DotFree(name)
    ensures Follow(Document(members, name), Split(name)).None?
  {
    var dot := IndexOf(name, '.', 0);
    assert dot < |name| by {
      var i :| 0 <= i < |name| && name[i] == '.';
    }
    assert Split(name)[0] == name[..dot];
    assert |Split(name)[0]| != |name|;
  }

  lemma EmptyDecodesToDefaults(k: Key)
    ensures Decode(JsonObject(map[]), k) == Some(SettingOf(DEFAULTS, k))
  {
    hide KeyText, DEFAULTS;
    KeyTextDotFree(k);
    FollowOne(map[], KeyText(k));
  }

  /** If an object says about every key what t does, it is accepted and decodes to t. */
  lemma DecodesTo(obj: Json, t: Twin)
    requires forall k :: Decode(obj, k) == Some(SettingOf(t, k))
    ensures Decodes(obj, CONFIGURATION_KEYS) && Decodes(obj, PRIORITY_KEYS) && Decodes(obj, AGGREGATION_KEYS)
    ensures DecodedTwin(obj) == t
  {
    hide Decode, DecodedTwin, DEFAULTS, SettingOf, CONFIGURATION_KEYS, PRIORITY_KEYS, AGGREGATION_KEYS;
    forall k ensures SettingOf(DecodedTwin(obj), k) == SettingOf(t, k) {
      DecodedSettings(obj, k);
    }
    SameSettingsSameTwin(DecodedTwin(obj), t);
  }

  lemma ReadBackSetting(t: Twin, k: Key)
    ensures SettingOf(ReadBack(t), k)
            == if SettingOf(t, k) == Level(Operational) && k == OperationalPriority then Level(High)
               else SettingOf(t, k)
  {
  }

  /** Only the operational event itself has the operational priority. */
  predicate Ranked(t: Twin) {
    && t.collectors.processCreatePriority != Operational && t.collectors.listeningPortsPriority != Operational
    && t.collectors.systemInformationPriority != Operational && t.collectors.localUsersPriority != Operational
    && t.collectors.loginPriority != Operational && t.collectors.connectionCreatePriority != Operational
    && t.collectors.firewallConfigurationPriority != Operational && t.collectors.baselinePriority != Operational
    && t.collectors.diagnostic != Operational
  }

  lemma RankedSetting(t: Twin, k: Key)
    requires Ranked(t)
    ensures SettingOf(t, k) == Level(Operational) ==> k == OperationalPriority
  {
  }

  /** In any state, the print installs what it was printed from, or the defaults if its name has a dot. */
  lemma ReapplyPrint(members: map<string, Json>, t: Twin, name: string, before: Twin)
    requires IsPrint(members, t) && WellTimed(t) && Ranked(t)
    ensures Accepted(name, Reapplied(members, name))
    ensures Updated(before, name, Reapplied(members, name)) == if DotFree(name) then ReadBack(t) else DEFAULTS
  {
    hide Decode, Decodes, DecodedTwin, DEFAULTS, SettingOf, IsPrint, WellTimed, ReadBack, Ranked;
    if DotFree(name) {
      FollowOne(map[name := JsonObject(members)], name);
      forall k ensures Decode(JsonObject(members), k) == Some(SettingOf(ReadBack(t), k)) {
        DecodePrinted(members, t, k);
        ReadBackSetting(t, k);
        RankedSetting(t, k);
      }
      DecodesTo(JsonObject(members), ReadBack(t));
    } else {
      DottedNameMissed(members, name);
      forall k ensures Decode(JsonObject(map[]), k) == Some(SettingOf(DEFAULTS, k)) {
        EmptyDecodesToDefaults(k);
      }
      DecodesTo(JsonObject(map[]), DEFAULTS);
    }
  }

  lemma DefaultsRanked(k: Key)
    ensures SettingOf(DEFAULTS, k) == Level(Operational) ==> k == OperationalPriority
  {
    RankedSetting(DEFAULTS, k);
  }

  /** Only a default can be the operational priority: no text converts to it. */
  lemma LevelAtRanked(obj: Json, k: Key)
    requires LevelAt(obj, k) == Operational
    ensures k == OperationalPriority
  {
    hide KeyText, Configured, DEFAULTS, SettingOf, KindOf;
    DefaultsRanked(k);
  }

  lemma DecodedRanked(obj: Json)
    ensures Ranked(DecodedTwin(obj))
  {
    hide LevelAt, NumberAt, FlagAt, TextAt, DEFAULTS;
    forall k | LevelAt(obj, k) == Operational ensures k == OperationalPriority {
      LevelAtRanked(obj, k);
    }
  }

  lemma AcceptedChosen(name: string, u: Update)
    requires Accepted(name, u)
    ensures Select(u.document, name, u.complete).Chosen?
  {
  }

  lemma {:induction false} ReachableRanked(name: string, us: seq<Update>)
    ensures Ranked(Updates(DEFAULTS, name, us))
  {
    hide Accepted, LateRejected, DecodedTwin, Select;
    if us != [] {
      ReachableRanked(name, us[..|us| - 1]);
      var last := us[|us| - 1];
      if Accepted(name, last) {
        AcceptedChosen(name, last);
        DecodedRanked(Select(last.document, name, last.complete).member);
      }
    }
  }

  /**
   * The configuration round trip on reachable states: after any run of updates, applying the printed twin to any state
   * rebuilds the same configuration (the operational priority aside) exactly when the object's name has no dot,
   * or when there is nothing but defaults to rebuild; and rebuilds it fully exactly when, besides,
   * the operational priority is not the special one, which prints as "high".
   */
  lemma PrintRoundTrip(name: string, us: seq<Update>, members: map<string, Json>, before: Twin)
    requires IsPrint(members, Updates(DEFAULTS, name, us))
    ensures var t := Updates(DEFAULTS, name, us);
            var t' := Updated(before, name, Reapplied(members, name));
            && Accepted(name, Reapplied(members, name))
            && (EqualButOperational(t', t) <==> DotFree(name) || EqualButOperational(t, DEFAULTS))
            && (t' == t <==> if DotFree(name) then t.collectors.operational != Operational else t == DEFAULTS)
  {
    hide IsPrint, WellTimed, Ranked, DEFAULTS, Updates, Accepted, Updated, Reapplied;
    ReachableWellTimed(name, us);
    ReachableRanked(name, us);
    ReapplyPrint(members, Updates(DEFAULTS, name, us), name, before);
  }
}
