/** The keys of the twin configuration schema. */
module TwinKeys {
  import opened Json

  datatype Key =
    | MaxLocalCacheSize | MaxMessageSize
    | HighPriorityMessageFrequency | LowPriorityMessageFrequency | SnapshotFrequency
    | BaselineCustomChecksEnabled | BaselineCustomChecksFilePath | BaselineCustomChecksFileHash
    | ProcessCreatePriority | ListeningPortsPriority | SystemInformationPriority | LocalUsersPriority | LoginPriority
    | ConnectionCreatePriority | FirewallConfigurationPriority | BaselinePriority | DiagnosticPriority
    | OperationalPriority
    | ProcessCreateAggregationEnabled | ProcessCreateAggregationInterval
    | ConnectionCreateAggregationEnabled | ConnectionCreateAggregationInterval

  /** The main configuration, in the order it is read. */
  const CONFIGURATION_KEYS: seq<Key> :=
    [MaxLocalCacheSize, MaxMessageSize, HighPriorityMessageFrequency, LowPriorityMessageFrequency, SnapshotFrequency,
     BaselineCustomChecksEnabled, BaselineCustomChecksFilePath, BaselineCustomChecksFileHash]

  const PRIORITY_KEYS: seq<Key> :=
    [ProcessCreatePriority, ListeningPortsPriority, SystemInformationPriority, LocalUsersPriority, LoginPriority,
     ConnectionCreatePriority, FirewallConfigurationPriority, BaselinePriority, DiagnosticPriority, OperationalPriority]

  const AGGREGATION_KEYS: seq<Key> :=
    [ProcessCreateAggregationEnabled, ProcessCreateAggregationInterval,
     ConnectionCreateAggregationEnabled, ConnectionCreateAggregationInterval]

  const EVENT_PRIO_PREFIX := "eventPriority"
  const EVENT_AGG_ENABLED_PREFIX := "aggregationEnabled"
  const EVENT_AGG_INTERVAL_PREFIX := "aggregationInterval"
  const BASELINE_CUSTOM_CHECKS_PREFIX := "baselineCustomChecks"

  function KeyText(k: Key): string {
    match k
    case MaxLocalCacheSize => "maxLocalCacheSizeInBytes"
    case MaxMessageSize => "maxMessageSizeInBytes"
    case HighPriorityMessageFrequency => "highPriorityMessageFrequency"
    case LowPriorityMessageFrequency => "lowPriorityMessageFrequency"
    case SnapshotFrequency => "snapshotFrequency"
    case BaselineCustomChecksEnabled => BASELINE_CUSTOM_CHECKS_PREFIX + "Enabled"
    case BaselineCustomChecksFilePath => BASELINE_CUSTOM_CHECKS_PREFIX + "FilePath"
    case BaselineCustomChecksFileHash => BASELINE_CUSTOM_CHECKS_PREFIX + "FileHash"
    case ProcessCreatePriority => EVENT_PRIO_PREFIX + "ProcessCreate"
    case ListeningPortsPriority => EVENT_PRIO_PREFIX + "ListeningPorts"
    case SystemInformationPriority => EVENT_PRIO_PREFIX + "SystemInformation"
    case LocalUsersPriority => EVENT_PRIO_PREFIX + "LocalUsers"
    case LoginPriority => EVENT_PRIO_PREFIX + "Login"
    case ConnectionCreatePriority => EVENT_PRIO_PREFIX + "ConnectionCreate"
    case FirewallConfigurationPriority => EVENT_PRIO_PREFIX + "FirewallConfiguration"
    case BaselinePriority => EVENT_PRIO_PREFIX + "OSBaseline"
    case DiagnosticPriority => EVENT_PRIO_PREFIX + "Diagnostic"
    case OperationalPriority => EVENT_PRIO_PREFIX + "Operational"
    case ProcessCreateAggregationEnabled => EVENT_AGG_ENABLED_PREFIX + "ProcessCreate"
    case ProcessCreateAggregationInterval => EVENT_AGG_INTERVAL_PREFIX + "ProcessCreate"
    case ConnectionCreateAggregationEnabled => EVENT_AGG_ENABLED_PREFIX + "ConnectionCreate"
    case ConnectionCreateAggregationInterval => EVENT_AGG_INTERVAL_PREFIX + "ConnectionCreate"
  }

  /** Enough of a key's text to tell it from all others: its length, first letter, and two more letters. */
  function Fingerprint(k: Key): (nat, char, char, char) {
    match k
    case MaxLocalCacheSize => (24, 'm', 'S', ' ')
    case MaxMessageSize => (21, 'm', 'e', ' ')
    case HighPriorityMessageFrequency => (28, 'h', 'e', 'e')
    case LowPriorityMessageFrequency => (27, 'l', 's', ' ')
    case SnapshotFrequency => (17, 's', 'e', ' ')
    case BaselineCustomChecksEnabled => (27, 'b', 'm', ' ')
    case BaselineCustomChecksFilePath => (28, 'b', 'm', 'P')
    case BaselineCustomChecksFileHash => (28, 'b', 'm', 'H')
    case ProcessCreatePriority => (26, 'e', 'P', ' ')
    case ListeningPortsPriority => (27, 'e', 'L', ' ')
    case SystemInformationPriority => (30, 'e', 'S', ' ')
    case LocalUsersPriority => (23, 'e', 'L', ' ')
    case LoginPriority => (18, 'e', 'L', ' ')
    case ConnectionCreatePriority => (29, 'e', 'C', ' ')
    case FirewallConfigurationPriority => (34, 'e', 'F', ' ')
    case BaselinePriority => (23, 'e', 'O', ' ')
    case DiagnosticPriority => (23, 'e', 'D', ' ')
    case OperationalPriority => (24, 'e', 'O', ' ')
    case ProcessCreateAggregationEnabled => (31, 'a', 'a', ' ')
    case ProcessCreateAggregationInterval => (32, 'a', 't', ' ')
    case ConnectionCreateAggregationEnabled => (34, 'a', 'a', ' ')
    case ConnectionCreateAggregationInterval => (35, 'a', 't', ' ')
  }

  /** The fingerprint is read off the text. */
  ghost predicate Fingerprinted(k: Key) {
    var s := KeyText(k);
    |s| > 16 && Fingerprint(k) == (|s|, s[0], s[13], if |s| == 28 then s[24] else ' ')
  }

  lemma MainFingerprints()
    ensures Fingerprinted(MaxLocalCacheSize) && Fingerprinted(MaxMessageSize) && Fingerprinted(SnapshotFrequency)
    ensures Fingerprinted(HighPriorityMessageFrequency) && Fingerprinted(LowPriorityMessageFrequency)
  {
  }

  lemma BaselineFingerprints()
    ensures Fingerprinted(BaselineCustomChecksEnabled) && Fingerprinted(BaselineCustomChecksFilePath)
    ensures Fingerprinted(BaselineCustomChecksFileHash)
  {
  }

  lemma PriorityFingerprints()
    ensures Fingerprinted(ProcessCreatePriority) && Fingerprinted(ListeningPortsPriority)
    ensures Fingerprinted(SystemInformationPriority)
  {
  }

  lemma UserPriorityFingerprints()
    ensures Fingerprinted(LocalUsersPriority) && Fingerprinted(LoginPriority) && Fingerprinted(ConnectionCreatePriority)
  {
  }

  lemma OtherPriorityFingerprints()
    ensures Fingerprinted(FirewallConfigurationPriority) && Fingerprinted(BaselinePriority)
    ensures Fingerprinted(DiagnosticPriority) && Fingerprinted(OperationalPriority)
  {
  }

  lemma AggregationFingerprints()
    ensures Fingerprinted(ProcessCreateAggregationEnabled) && Fingerprinted(ProcessCreateAggregationInterval)
  {
  }

  lemma ConnectionAggregationFingerprints()
    ensures Fingerprinted(ConnectionCreateAggregationEnabled) && Fingerprinted(ConnectionCreateAggregationInterval)
  {
  }

  lemma FingerprintOf(k: Key)
    ensures Fingerprinted(k)
  {
    hide Fingerprinted;
    MainFingerprints();
    BaselineFingerprints();
    PriorityFingerprints();
    UserPriorityFingerprints();
    OtherPriorityFingerprints();
    AggregationFingerprints();
    ConnectionAggregationFingerprints();
  }

  lemma FingerprintInjective(a: Key, b: Key)
    requires Fingerprint(a) == Fingerprint(b)
    ensures a == b
  {
  }

  /** No two keys share a text. */
  lemma KeyTextInjective(a: Key, b: Key)
    requires KeyText(a) == KeyText(b)
    ensures a == b
  {
    hide KeyText, Fingerprint;
    FingerprintOf(a);
    FingerprintOf(b);
    FingerprintInjective(a, b);
  }

  /** The schema in full. */
  lemma MainTexts()
    ensures KeyText(MaxLocalCacheSize) == "maxLocalCacheSizeInBytes"
    ensures KeyText(MaxMessageSize) == "maxMessageSizeInBytes"
    ensures KeyText(HighPriorityMessageFrequency) == "highPriorityMessageFrequency"
    ensures KeyText(LowPriorityMessageFrequency) == "lowPriorityMessageFrequency"
    ensures KeyText(SnapshotFrequency) == "snapshotFrequency"
    ensures KeyText(BaselineCustomChecksEnabled) == "baselineCustomChecksEnabled"
    ensures KeyText(BaselineCustomChecksFilePath) == "baselineCustomChecksFilePath"
    ensures KeyText(BaselineCustomChecksFileHash) == "baselineCustomChecksFileHash"
  {
  }

  lemma PriorityTexts()
    ensures KeyText(ProcessCreatePriority) == "eventPriorityProcessCreate"
    ensures KeyText(ListeningPortsPriority) == "eventPriorityListeningPorts"
    ensures KeyText(SystemInformationPriority) == "eventPrioritySystemInformation"
    ensures KeyText(LocalUsersPriority) == "eventPriorityLocalUsers"
    ensures KeyText(LoginPriority) == "eventPriorityLogin"
  {
  }

  lemma ConnectionText()
    ensures KeyText(ConnectionCreatePriority) == "eventPriorityConnectionCreate"
  {
  }

  lemma FirewallText()
    ensures KeyText(FirewallConfigurationPriority) == "eventPriorityFirewallConfiguration"
  {
  }

  lemma LastPriorityTexts()
    ensures KeyText(BaselinePriority) == "eventPriorityOSBaseline"
    ensures KeyText(DiagnosticPriority) == "eventPriorityDiagnostic"
    ensures KeyText(OperationalPriority) == "eventPriorityOperational"
  {
  }

  lemma AggregationTexts()
    ensures KeyText(ProcessCreateAggregationEnabled) == "aggregationEnabledProcessCreate"
    ensures KeyText(ProcessCreateAggregationInterval) == "aggregationIntervalProcessCreate"
    ensures KeyText(ConnectionCreateAggregationEnabled) == "aggregationEnabledConnectionCreate"
    ensures KeyText(ConnectionCreateAggregationInterval) == "aggregationIntervalConnectionCreate"
  {
  }

  lemma PrefixesDotFree()
    ensures DotFree(EVENT_PRIO_PREFIX) && DotFree(EVENT_AGG_ENABLED_PREFIX)
    ensures DotFree(EVENT_AGG_INTERVAL_PREFIX) && DotFree(BASELINE_CUSTOM_CHECKS_PREFIX)
  {
  }

  lemma ConcatDotFree(prefix: string, suffix: string)
    requires DotFree(prefix) && DotFree(suffix)
    ensures DotFree(prefix + suffix)
  {
  }

  lemma PrioritySuffixesDotFree()
    ensures DotFree("SystemInformation") && DotFree("LocalUsers") && DotFree("FirewallConfiguration")
    ensures DotFree("OSBaseline") && DotFree("Diagnostic") && DotFree("Operational")
  {
  }

  lemma OtherSuffixesDotFree()
    ensures DotFree("ProcessCreate") && DotFree("ListeningPorts") && DotFree("Login") && DotFree("ConnectionCreate")
    ensures DotFree("Enabled") && DotFree("FilePath") && DotFree("FileHash")
  {
  }

  lemma SizeKeysDotFree()
    ensures DotFree("maxLocalCacheSizeInBytes") && DotFree("maxMessageSizeInBytes") && DotFree("snapshotFrequency")
  {
  }

  lemma FrequencyKeysDotFree()
    ensures DotFree("highPriorityMessageFrequency") && DotFree("lowPriorityMessageFrequency")
  {
  }

  /** No key text contains a dot, so a key names exactly one member. */
  lemma KeyTextDotFree(k: Key)
    ensures DotFree(KeyText(k))
  {
    hide DotFree, EVENT_PRIO_PREFIX, EVENT_AGG_ENABLED_PREFIX, EVENT_AGG_INTERVAL_PREFIX, BASELINE_CUSTOM_CHECKS_PREFIX;
    PrefixesDotFree();
    PrioritySuffixesDotFree();
    OtherSuffixesDotFree();
    SizeKeysDotFree();
    FrequencyKeysDotFree();
    match k {
      case BaselineCustomChecksEnabled => ConcatDotFree(BASELINE_CUSTOM_CHECKS_PREFIX, "Enabled");
      case BaselineCustomChecksFilePath => ConcatDotFree(BASELINE_CUSTOM_CHECKS_PREFIX, "FilePath");
      case BaselineCustomChecksFileHash => ConcatDotFree(BASELINE_CUSTOM_CHECKS_PREFIX, "FileHash");
      case ProcessCreatePriority => ConcatDotFree(EVENT_PRIO_PREFIX, "ProcessCreate");
      case ListeningPortsPriority => ConcatDotFree(EVENT_PRIO_PREFIX, "ListeningPorts");
      case SystemInformationPriority => ConcatDotFree(EVENT_PRIO_PREFIX, "SystemInformation");
      case LocalUsersPriority => ConcatDotFree(EVENT_PRIO_PREFIX, "LocalUsers");
      case LoginPriority => ConcatDotFree(EVENT_PRIO_PREFIX, "Login");
      case ConnectionCreatePriority => ConcatDotFree(EVENT_PRIO_PREFIX, "ConnectionCreate");
      case FirewallConfigurationPriority => ConcatDotFree(EVENT_PRIO_PREFIX, "FirewallConfiguration");
      case BaselinePriority => ConcatDotFree(EVENT_PRIO_PREFIX, "OSBaseline");
      case DiagnosticPriority => ConcatDotFree(EVENT_PRIO_PREFIX, "Diagnostic");
      case OperationalPriority => ConcatDotFree(EVENT_PRIO_PREFIX, "Operational");
      case ProcessCreateAggregationEnabled => ConcatDotFree(EVENT_AGG_ENABLED_PREFIX, "ProcessCreate");
      case ProcessCreateAggregationInterval => ConcatDotFree(EVENT_AGG_INTERVAL_PREFIX, "ProcessCreate");
      case ConnectionCreateAggregationEnabled => ConcatDotFree(EVENT_AGG_ENABLED_PREFIX, "ConnectionCreate");
      case ConnectionCreateAggregationInterval => ConcatDotFree(EVENT_AGG_INTERVAL_PREFIX, "ConnectionCreate");
      case _ =>
    }
  }
}
