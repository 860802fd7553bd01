/** The twin configuration as the program holds it: reads through a moving cursor, installs in place, prints. */
module TwinConfiguration {
  import opened Common
  import opened Duration
  import opened TimeUtils
  import opened Json
  import opened TwinKeys
  import opened TwinSpec

  // ----- reading one entry -----

  /** The duration texts of an object are such that sscanf sees nothing but digits and designators. */
  ghost predicate ReadableEntry(obj: Json, key: string, kind: Kind) {
    kind == KindTime ==>
      var entry := GetValueOfType(obj, key, TypeObject);
      entry.ReadOk? ==>
        var text := GetValueOfType(entry.value, VALUE_KEY, TypeString);
        text.ReadOk? ==> Readable(text.value.text)
  }

  ghost predicate ReadableTimes(obj: Json) {
    forall k :: ReadableEntry(obj, KeyText(k), KindOf(k))
  }

  /** A failed read is reported as it is. */
  function Failure<T, U>(r: ReadResult<T>): ReadResult<U>
    requires !r.ReadOk?
  {
    match r
    case KeyMissing => KeyMissing
    case ValueIsNull => ValueIsNull
    case ParseError => ParseError
    case ReadException => ReadException
  }

  /** JsonObjectReader_ReadString, ReadInt, ReadTimeInMilliseconds, ReadBool. */
  method ReadTyped(reader: JsonObjectReader, name: string, kind: Kind) returns (result: ReadResult<Value>)
    requires reader.Valid()
    requires kind == KindTime && GetValueOfType(reader.RootObject(), name, TypeString).ReadOk? ==>
               Readable(GetValueOfType(reader.RootObject(), name, TypeString).value.text)
    ensures result == ReadValue(reader.RootObject(), name, kind)
  {
    hide GetValueOfType, Parsed, Readable;
    match kind {
      case KindString =>
        var value := GetValueOfType(reader.RootObject(), name, TypeString);
        TypedValue(reader.RootObject(), name);
        return if value.ReadOk? then ReadOk(TextValue(value.value.text)) else Failure(value);
      case KindUint =>
        var value := GetValueOfType(reader.RootObject(), name, TypeNumber);
        TypedValue(reader.RootObject(), name);
        if !value.ReadOk? {
          return Failure(value);
        }
        var output := ToInt32(value.value.number);
        return ReadOk(UintValue(Wrap(output)));
      case KindBool =>
        var value := GetValueOfType(reader.RootObject(), name, TypeBool);
        TypedValue(reader.RootObject(), name);
        return if value.ReadOk? then ReadOk(BoolValue(value.value.flag)) else Failure(value);
      case KindTime =>
        var timeValue := GetValueOfType(reader.RootObject(), name, TypeString);
        TypedValue(reader.RootObject(), name);
        if !timeValue.ReadOk? {
          return Failure(timeValue);
        }
        var output := ISO8601DurationStringToMilliseconds(timeValue.value.text);
        return if output.Some? then ReadOk(UintValue(output.value)) else ParseError;
    }
  }

  lemma TypedValue(j: Json, name: string)
    ensures GetValueOfType(j, name, TypeString).ReadOk? ==> GetValueOfType(j, name, TypeString).value.JsonString?
    ensures GetValueOfType(j, name, TypeNumber).ReadOk? ==> GetValueOfType(j, name, TypeNumber).value.JsonNumber?
    ensures GetValueOfType(j, name, TypeBool).ReadOk? ==> GetValueOfType(j, name, TypeBool).value.JsonBool?
  {
  }

  /** Step in, read, step out: the reader is back where it stood, so every key is read from the same object. */
  method GetConfigurationValueFromJson(reader: JsonObjectReader, key: string, kind: Kind)
    returns (result: TwinResult, value: Option<Value>)
    requires reader.Valid() && DotFree(key) && ReadableEntry(reader.RootObject(), key, kind)
    modifies reader
    ensures reader.Valid() && reader.path == old(reader.path)
    ensures (result, value) == Configured(old(reader.RootObject()), key, kind)
  {
    hide GetValueOfType, ReadValue, Readable, Follow;
    var readerResult := reader.StepIn(key);
    match readerResult {
      case KeyMissing => return TwinConfNotExist, None;
      case ValueIsNull => return TwinConfNotExist, None;
      case ParseError => return TwinParseException, None;
      case ReadException => return TwinException, None;
      case ReadOk(_) =>
    }
    var read := ReadTyped(reader, VALUE_KEY, kind);
    match read {
      case ReadOk(v) => result, value := TwinOk, Some(v);
      case ReadException => result, value := TwinException, None;
      case _ => result, value := TwinParseException, None;
    }
    var _ := reader.StepOut();
    assert reader.path == old(reader.path);
  }

  /** One key with its default: None for a type mismatch. */
  method SetSingleValue(reader: JsonObjectReader, k: Key) returns (setting: Option<Setting>)
    requires reader.Valid() && ReadableTimes(reader.RootObject())
    modifies reader
    ensures reader.Valid() && reader.path == old(reader.path)
    ensures setting == Decode(old(reader.RootObject()), k)
  {
    hide KeyText, KindOf, Configured, DEFAULTS, ReadableEntry;
    KeyTextDotFree(k);
    assert ReadableEntry(reader.RootObject(), KeyText(k), KindOf(k));
    var result, value := GetConfigurationValueFromJson(reader, KeyText(k), KindOf(k));
    if result == TwinConfNotExist {
      return Some(SettingOf(DEFAULTS, k));
    }
    if result == TwinOk && value.Some? {
      return Convert(k, value.value);
    }
    return None;
  }

  // ----- the main configuration -----

  function Mismatch(setting: Option<Setting>, k: Key): set<Key> {
    if setting.None? then {k} else {}
  }

  ghost function Mismatches(obj: Json): set<Key> {
    set k | k in CONFIGURATION_KEYS && Decode(obj, k).None?
  }

  lemma NoMismatch(obj: Json)
    ensures Mismatches(obj) == {} <==> Decodes(obj, CONFIGURATION_KEYS)
  {
    if k :| k in CONFIGURATION_KEYS && Decode(obj, k).None? {
      assert k in Mismatches(obj);
    }
  }

  lemma MismatchesListed(obj: Json)
    ensures Mismatches(obj) ==
            Mismatch(Decode(obj, MaxLocalCacheSize), MaxLocalCacheSize)
            + Mismatch(Decode(obj, MaxMessageSize), MaxMessageSize)
            + Mismatch(Decode(obj, HighPriorityMessageFrequency), HighPriorityMessageFrequency)
            + Mismatch(Decode(obj, LowPriorityMessageFrequency), LowPriorityMessageFrequency)
            + Mismatch(Decode(obj, SnapshotFrequency), SnapshotFrequency)
            + Mismatch(Decode(obj, BaselineCustomChecksEnabled), BaselineCustomChecksEnabled)
            + Mismatch(Decode(obj, BaselineCustomChecksFilePath), BaselineCustomChecksFilePath)
            + Mismatch(Decode(obj, BaselineCustomChecksFileHash), BaselineCustomChecksFileHash)
  {
    hide Decode;
  }

  /**
   * Reads all eight entries, whatever fails on the way; the status tells exactly which ones have a wrong form.
   */
  method ExtractConfiguration(reader: JsonObjectReader)
    returns (result: TwinResult, status: set<Key>, newConfiguration: Configuration)
    requires reader.Valid() && ReadableTimes(reader.RootObject())
    modifies reader
    ensures reader.Valid() && reader.path == old(reader.path)
    ensures status == Mismatches(old(reader.RootObject()))
    ensures result == if Decodes(old(reader.RootObject()), CONFIGURATION_KEYS) then TwinOk else TwinParseException
    ensures newConfiguration == DecodedConfiguration(old(reader.RootObject()))
  {
    hide Decode, Decodes, ReadableTimes, Follow, NumberOf, FlagOf, TextOf, Mismatch, Mismatches, CONFIGURATION_KEYS;
    NoMismatch(reader.RootObject());
    MismatchesListed(reader.RootObject());
    var maxLocalCacheSize := SetSingleValue(reader, MaxLocalCacheSize);
    var maxMessageSize := SetSingleValue(reader, MaxMessageSize);
    var highPriorityMessageFrequency := SetSingleValue(reader, HighPriorityMessageFrequency);
    var lowPriorityMessageFrequency := SetSingleValue(reader, LowPriorityMessageFrequency);
    var snapshotFrequency := SetSingleValue(reader, SnapshotFrequency);
    var baselineCustomChecksEnabled := SetSingleValue(reader, BaselineCustomChecksEnabled);
    var baselineCustomChecksFilePath := SetSingleValue(reader, BaselineCustomChecksFilePath);
    var baselineCustomChecksFileHash := SetSingleValue(reader, BaselineCustomChecksFileHash);
    status := Mismatch(maxLocalCacheSize, MaxLocalCacheSize)
              + Mismatch(maxMessageSize, MaxMessageSize)
              + Mismatch(highPriorityMessageFrequency, HighPriorityMessageFrequency)
              + Mismatch(lowPriorityMessageFrequency, LowPriorityMessageFrequency)
              + Mismatch(snapshotFrequency, SnapshotFrequency)
              + Mismatch(baselineCustomChecksEnabled, BaselineCustomChecksEnabled)
              + Mismatch(baselineCustomChecksFilePath, BaselineCustomChecksFilePath)
              + Mismatch(baselineCustomChecksFileHash, BaselineCustomChecksFileHash);
    result := if status == {} then TwinOk else TwinParseException;
    newConfiguration := Configuration(
      NumberOf(maxLocalCacheSize), NumberOf(maxMessageSize), NumberOf(highPriorityMessageFrequency),
      NumberOf(lowPriorityMessageFrequency), NumberOf(snapshotFrequency), FlagOf(baselineCustomChecksEnabled),
      TextOf(baselineCustomChecksFilePath), TextOf(baselineCustomChecksFileHash));
  }

  lemma PrioritiesListed(obj: Json)
    ensures Decodes(obj, PRIORITY_KEYS) <==>
              && Decode(obj, ProcessCreatePriority).Some? && Decode(obj, ListeningPortsPriority).Some?
              && Decode(obj, SystemInformationPriority).Some? && Decode(obj, LocalUsersPriority).Some?
              && Decode(obj, LoginPriority).Some? && Decode(obj, ConnectionCreatePriority).Some?
              && Decode(obj, FirewallConfigurationPriority).Some? && Decode(obj, BaselinePriority).Some?
              && Decode(obj, DiagnosticPriority).Some? && Decode(obj, OperationalPriority).Some?
  {
    hide Decode;
  }

  lemma AggregationListed(obj: Json)
    ensures Decodes(obj, AGGREGATION_KEYS) <==>
              && Decode(obj, ProcessCreateAggregationEnabled).Some?
              && Decode(obj, ProcessCreateAggregationInterval).Some?
              && Decode(obj, ConnectionCreateAggregationEnabled).Some?
              && Decode(obj, ConnectionCreateAggregationInterval).Some?
  {
    hide Decode;
  }

  // ----- the static state -----

  class TwinState {
    const twinConfigurationObjectName: string
    var twinConfiguration: Configuration
    var eventPriorities: EventCollectors
    var lastUpdateResult: TwinResult
    var lastMismatches: set<Key>
    var lastEventPrioritiesMismatch: bool
    /** Every call of Update so far. */
    ghost var updates: seq<TwinSpec.Update>

    function Value(): Twin
      reads this
    {
      Twin(twinConfiguration, eventPriorities)
    }

    /** The state is what the updates since Init make of the defaults. */
    ghost predicate Valid()
      reads this
    {
      Value() == Updates(DEFAULTS, twinConfigurationObjectName, updates)
    }

    constructor (objectName: string)
      ensures Valid() && updates == [] && Value() == DEFAULTS && twinConfigurationObjectName == objectName
    {
      twinConfigurationObjectName := objectName;
      twinConfiguration, eventPriorities := DEFAULTS.configuration, DEFAULTS.collectors;
      lastUpdateResult, lastMismatches, lastEventPrioritiesMismatch := TwinOk, {}, false;
      updates := [];
    }

    /**
     * The second half of an update: the first entry of a wrong form ends it. The normalisation in the middle
     * goes to the priority in force, not to the new one.
     */
    method SetValues(propertiesReader: JsonObjectReader) returns (result: TwinResult)
      requires propertiesReader.Valid() && ReadableTimes(propertiesReader.RootObject())
      modifies this`eventPriorities, propertiesReader
      ensures propertiesReader.Valid() && propertiesReader.path == old(propertiesReader.path)
      ensures var obj := old(propertiesReader.RootObject());
              if !Decodes(obj, PRIORITY_KEYS) then
                result == TwinParseException && eventPriorities == old(eventPriorities)
              else if !Decodes(obj, AGGREGATION_KEYS) then
                && result == TwinParseException
                && eventPriorities == old(eventPriorities).(operational := Normalized(old(eventPriorities).operational))
              else result == TwinOk && eventPriorities == DecodedCollectors(obj)
    {
      hide Decode, Decodes, ReadableTimes, Follow, NumberOf, FlagOf, LevelOf, KeyText, KindOf, SettingOf;
      hide PRIORITY_KEYS, AGGREGATION_KEYS, DEFAULTS, Normalized;
      PrioritiesListed(propertiesReader.RootObject());
      AggregationListed(propertiesReader.RootObject());
      var processCreatePriority := SetSingleValue(propertiesReader, ProcessCreatePriority);
      if processCreatePriority.None? {
        return TwinParseException;
      }
      var listeningPortsPriority := SetSingleValue(propertiesReader, ListeningPortsPriority);
      if listeningPortsPriority.None? {
        return TwinParseException;
      }
      var systemInformationPriority := SetSingleValue(propertiesReader, SystemInformationPriority);
      if systemInformationPriority.None? {
        return TwinParseException;
      }
      var localUsersPriority := SetSingleValue(propertiesReader, LocalUsersPriority);
      if localUsersPriority.None? {
        return TwinParseException;
      }
      var loginPriority := SetSingleValue(propertiesReader, LoginPriority);
      if loginPriority.None? {
        return TwinParseException;
      }
      var connectionCreatePriority := SetSingleValue(propertiesReader, ConnectionCreatePriority);
      if connectionCreatePriority.None? {
        return TwinParseException;
      }
      var firewallConfigurationPriority := SetSingleValue(propertiesReader, FirewallConfigurationPriority);
      if firewallConfigurationPriority.None? {
        return TwinParseException;
      }
      var baselinePriority := SetSingleValue(propertiesReader, BaselinePriority);
      if baselinePriority.None? {
        return TwinParseException;
      }
      var diagnosticPriority := SetSingleValue(propertiesReader, DiagnosticPriority);
      if diagnosticPriority.None? {
        return TwinParseException;
      }
      var operationalPriority := SetSingleValue(propertiesReader, OperationalPriority);
      if operationalPriority.None? {
        return TwinParseException;
      }
      eventPriorities := eventPriorities.(operational := Normalized(eventPriorities.operational));
      var processCreateAggregationEnabled := SetSingleValue(propertiesReader, ProcessCreateAggregationEnabled);
      if processCreateAggregationEnabled.None? {
        return TwinParseException;
      }
      var processCreateAggregationInterval := SetSingleValue(propertiesReader, ProcessCreateAggregationInterval);
      if processCreateAggregationInterval.None? {
        return TwinParseException;
      }
      var connectionCreateAggregationEnabled := SetSingleValue(propertiesReader, ConnectionCreateAggregationEnabled);
      if connectionCreateAggregationEnabled.None? {
        return TwinParseException;
      }
      var connectionCreateAggregationInterval := SetSingleValue(propertiesReader, ConnectionCreateAggregationInterval);
      if connectionCreateAggregationInterval.None? {
        return TwinParseException;
      }
      eventPriorities := EventCollectors(
        LevelOf(processCreatePriority), LevelOf(listeningPortsPriority), LevelOf(systemInformationPriority),
        LevelOf(localUsersPriority), LevelOf(loginPriority), LevelOf(connectionCreatePriority),
        LevelOf(firewallConfigurationPriority), LevelOf(baselinePriority), LevelOf(diagnosticPriority),
        LevelOf(operationalPriority),
        FlagOf(processCreateAggregationEnabled), NumberOf(processCreateAggregationInterval),
        FlagOf(connectionCreateAggregationEnabled), NumberOf(connectionCreateAggregationInterval));
      result := TwinOk;
    }

    /** The result code of an update. */
    ghost function CodeOf(u: Update): TwinResult {
      match Select(u.document, twinConfigurationObjectName, u.complete)
      case Refused(r) => r
      case Chosen(_) => if Accepted(twinConfigurationObjectName, u) then TwinOk else TwinParseException
    }

    /** What an update comes to, in terms of the chosen object. */
    lemma ResultByDecoding(t: Twin, document: Option<Json>, complete: bool)
      ensures var name, u := twinConfigurationObjectName, TwinSpec.Update(document, complete);
              match Select(document, name, complete)
              case Refused(r) => Updated(t, name, u) == t && CodeOf(u) == r
              case Chosen(j) =>
                if !Decodes(j, CONFIGURATION_KEYS) || !Decodes(j, PRIORITY_KEYS) then
                  Updated(t, name, u) == t && CodeOf(u) == TwinParseException
                else if !Decodes(j, AGGREGATION_KEYS) then
                  && Updated(t, name, u) == WithOperational(t, Normalized(t.collectors.operational))
                  && CodeOf(u) == TwinParseException
                else
                  Updated(t, name, u) == DecodedTwin(j) && CodeOf(u) == TwinOk
    {
      hide Decodes, DecodedTwin, Normalized, GetValueOfType, Select, WithOperational;
    }

    /** What an update comes to, in terms of the document's own members. */
    lemma ResultByMembers(t: Twin, document: Option<Json>, complete: bool)
      ensures var name, u := twinConfigurationObjectName, TwinSpec.Update(document, complete);
              && (document.None? || !document.value.JsonObject? ==>
                    CodeOf(u) == TwinException && Updated(t, name, u) == t)
              && (document.Some? && document.value.JsonObject? && complete ==>
                    var fields := document.value.fields;
                    if "desired" in fields && fields["desired"].JsonObject? then
                      var partial := TwinSpec.Update(Some(fields["desired"]), false);
                      Updated(t, name, u) == Updated(t, name, partial) && CodeOf(u) == CodeOf(partial)
                    else
                      Updated(t, name, u) == t && CodeOf(u) == TwinParseException)
              && (document.Some? && document.value.JsonObject? && !complete && DotFree(name) ==>
                    var fields := document.value.fields;
                    && (name in fields && !fields[name].JsonNull? && !fields[name].JsonObject? ==>
                          CodeOf(u) == TwinParseException && Updated(t, name, u) == t)
                    && (CodeOf(u) == TwinOk ==>
                          Updated(t, name, u) == DecodedTwin(if name in fields && fields[name].JsonObject?
                                                             then fields[name] else JsonObject(map[]))))
    {
      hide Decodes, DecodedTwin, Normalized, GetValueOfType, SelectNamed;
      if document.Some? && document.value.JsonObject? {
        var fields := document.value.fields;
        if complete {
          hide Select;
          CompleteIsDesired(fields, twinConfigurationObjectName);
        } else if DotFree(twinConfigurationObjectName) {
          hide Select;
          MemberSelected(fields, twinConfigurationObjectName);
        }
      }
    }

    /**
     * One update: choose the object, read the main half into a local, then the collectors' half in place, then install.
     * `document` is the parsed JSON text, None if it does not parse.
     */
    method Install(document: Option<Json>, complete: bool) returns (returnValue: TwinResult)
      requires var s := Select(document, twinConfigurationObjectName, complete);
               s.Chosen? ==> ReadableTimes(s.member)
      modifies this`twinConfiguration, this`eventPriorities, this`lastUpdateResult, this`lastMismatches
      modifies this`lastEventPrioritiesMismatch
      ensures Value() == Updated(old(Value()), twinConfigurationObjectName, TwinSpec.Update(document, complete))
      ensures returnValue == CodeOf(TwinSpec.Update(document, complete)) && lastUpdateResult == returnValue
      ensures var s := Select(document, twinConfigurationObjectName, complete);
              && lastMismatches == (if s.Chosen? then Mismatches(s.member) else {})
              && (lastEventPrioritiesMismatch <==>
                    s.Chosen? && Mismatches(s.member) == {} && returnValue == TwinParseException)
    {
      hide Decode, Decodes, ReadableTimes, GetValueOfType, Follow, DecodedConfiguration, DecodedCollectors, Mismatches;
      hide CONFIGURATION_KEYS, PRIORITY_KEYS, AGGREGATION_KEYS, DEFAULTS, Normalized;
      ResultByDecoding(Value(), document, complete);
      hide Updated, CodeOf, Accepted, LateRejected;
      forall obj ensures Mismatches(obj) == {} <==> Decodes(obj, CONFIGURATION_KEYS) {
        NoMismatch(obj);
      }
      lastMismatches, lastEventPrioritiesMismatch := {}, false;
      if document.None? || !document.value.JsonObject? {
        lastUpdateResult := TwinException;
        return TwinException;
      }
      var jsonReader := new JsonObjectReader(document.value);
      if complete {
        var desired := jsonReader.StepIn("desired");
        if desired != ReadOk(()) {
          lastUpdateResult := TwinParseException;
          return TwinParseException;
        }
      }
      var result := jsonReader.StepIn(twinConfigurationObjectName);
      if result == KeyMissing || result == ValueIsNull {
        jsonReader := new JsonObjectReader(JsonObject(map[]));
      } else if result != ReadOk(()) {
        lastUpdateResult := TwinParseException;
        return TwinParseException;
      }
      var status, newConfiguration;
      returnValue, status, newConfiguration := ExtractConfiguration(jsonReader);
      lastMismatches := status;
      if returnValue == TwinOk {
        returnValue := SetValues(jsonReader);
        if returnValue == TwinParseException {
          lastEventPrioritiesMismatch := true;
        } else {
          twinConfiguration := newConfiguration;
        }
      }
      lastUpdateResult := returnValue;
    }

    /** An update is entered in the history, accepted or not. */
    method Update(document: Option<Json>, complete: bool) returns (returnValue: TwinResult)
      requires Valid()
      requires var s := Select(document, twinConfigurationObjectName, complete);
               s.Chosen? ==> ReadableTimes(s.member)
      modifies this
      ensures Valid() && updates == old(updates) + [TwinSpec.Update(document, complete)]
      ensures Value() == Updated(old(Value()), twinConfigurationObjectName, TwinSpec.Update(document, complete))
      ensures returnValue == CodeOf(TwinSpec.Update(document, complete)) && lastUpdateResult == returnValue
      ensures var s := Select(document, twinConfigurationObjectName, complete);
              && lastMismatches == (if s.Chosen? then Mismatches(s.member) else {})
              && (lastEventPrioritiesMismatch <==>
                    s.Chosen? && Mismatches(s.member) == {} && returnValue == TwinParseException)
      ensures document.None? || !document.value.JsonObject? ==>
                returnValue == TwinException && Value() == old(Value())
      ensures document.Some? && document.value.JsonObject? && complete ==>
                var fields := document.value.fields;
                if "desired" in fields && fields["desired"].JsonObject? then
                  var partial := TwinSpec.Update(Some(fields["desired"]), false);
                  && Value() == Updated(old(Value()), twinConfigurationObjectName, partial)
                  && returnValue == CodeOf(partial)
                else
                  returnValue == TwinParseException && Value() == old(Value())
      ensures document.Some? && document.value.JsonObject? && !complete && DotFree(twinConfigurationObjectName) ==>
                var fields, name := document.value.fields, twinConfigurationObjectName;
                && (name in fields && !fields[name].JsonNull? && !fields[name].JsonObject? ==>
                      returnValue == TwinParseException && Value() == old(Value()))
                && (returnValue == TwinOk ==>
                      Value() == DecodedTwin(if name in fields && fields[name].JsonObject? then fields[name]
                                             else JsonObject(map[])))
    {
      hide Select, Updated, Updates, Mismatches, ReadableTimes, DEFAULTS, CodeOf;
      ResultByMembers(Value(), document, complete);
      OneMoreUpdate(DEFAULTS, twinConfigurationObjectName, updates, TwinSpec.Update(document, complete));
      returnValue := Install(document, complete);
      updates := updates + [TwinSpec.Update(document, complete)];
    }

    /**
     * Prints one entry as the n-th of the twin t; a string that is NULL is skipped.
     */
    static method WriteConfigurationToJson(members: map<string, Json>, k: Key, value: Option<Json>,
                                           ghost t: Twin, ghost n: nat)
      returns (written: map<string, Json>)
      requires n < |PRINT_ORDER| && k == PRINT_ORDER[n] && PrintedUpTo(members, t, n) && value == PrintedValue(t, k)
      ensures PrintedUpTo(written, t, n + 1)
    {
      PrintOne(members, t, n);
      written := Put(members, k, value);
    }

    /** The number goes through an int32_t. */
    static method WriteUint(members: map<string, Json>, k: Key, value: u32, ghost t: Twin, ghost n: nat)
      returns (written: map<string, Json>)
      requires n < |PRINT_ORDER| && k == PRINT_ORDER[n] && PrintedUpTo(members, t, n)
      requires SettingOf(t, k) == Number(value) && KindOf(k) == KindUint
      ensures PrintedUpTo(written, t, n + 1)
    {
      written := WriteConfigurationToJson(members, k, Some(JsonNumber(AsInt32(value) as real)), t, n);
    }

    static method WriteBool(members: map<string, Json>, k: Key, flag: bool, ghost t: Twin, ghost n: nat)
      returns (written: map<string, Json>)
      requires n < |PRINT_ORDER| && k == PRINT_ORDER[n] && PrintedUpTo(members, t, n) && SettingOf(t, k) == Flag(flag)
      ensures PrintedUpTo(written, t, n + 1)
    {
      written := WriteConfigurationToJson(members, k, Some(JsonBool(flag)), t, n);
    }

    static method WriteString(members: map<string, Json>, k: Key, text: Option<string>, ghost t: Twin, ghost n: nat)
      returns (written: map<string, Json>)
      requires n < |PRINT_ORDER| && k == PRINT_ORDER[n] && PrintedUpTo(members, t, n) && SettingOf(t, k) == Text(text)
      ensures PrintedUpTo(written, t, n + 1)
    {
      var value := if text.None? then None else Some(JsonString(text.value));
      written := WriteConfigurationToJson(members, k, value, t, n);
    }

    static method WritePriority(members: map<string, Json>, k: Key, priority: Priority, ghost t: Twin, ghost n: nat)
      returns (written: map<string, Json>)
      requires n < |PRINT_ORDER| && k == PRINT_ORDER[n] && PrintedUpTo(members, t, n)
      requires SettingOf(t, k) == Level(priority)
      ensures PrintedUpTo(written, t, n + 1)
    {
      var priorityAsString := PriorityEnumAsString(priority);
      written := WriteConfigurationToJson(members, k, Some(JsonString(priorityAsString)), t, n);
    }

    /** Prints a duration through the shared buffer; fails exactly for intervals below a second. */
    method WriteTimeToJson(members: map<string, Json>, k: Key, milisec: u32, timeSpan: array<char>,
                           ghost t: Twin, ghost n: nat)
      returns (success: bool, written: map<string, Json>)
      requires n < |PRINT_ORDER| && k == PRINT_ORDER[n] && PrintedUpTo(members, t, n)
      requires KindOf(k) == KindTime && SettingOf(t, k) == Number(milisec)
      requires timeSpan.Length == DURATION_MAX_LENGTH
      modifies timeSpan
      ensures success <==> MILLISECONDS_IN_A_SECOND <= milisec
      ensures success ==> PrintedUpTo(written, t, n + 1)
    {
      hide KeyText, Printed, PrintedUpTo, PRINT_ORDER;
      written := members;
      success := MillisecondsToISO8601DurationString(milisec, timeSpan, DURATION_MAX_LENGTH);
      if success {
        PrintedCString(timeSpan[..], milisec);
        written := WriteConfigurationToJson(members, k, Some(JsonString(CString(timeSpan[..]))), t, n);
      }
    }

    lemma ConfigurationSettings()
      ensures SettingOf(Value(), MaxLocalCacheSize) == Number(twinConfiguration.maxLocalCacheSize)
      ensures SettingOf(Value(), MaxMessageSize) == Number(twinConfiguration.maxMessageSize)
      ensures SettingOf(Value(), HighPriorityMessageFrequency) == Number(twinConfiguration.highPriorityMessageFrequency)
      ensures SettingOf(Value(), LowPriorityMessageFrequency) == Number(twinConfiguration.lowPriorityMessageFrequency)
      ensures SettingOf(Value(), SnapshotFrequency) == Number(twinConfiguration.snapshotFrequency)
      ensures SettingOf(Value(), BaselineCustomChecksEnabled) == Flag(twinConfiguration.baselineCustomChecksEnabled)
      ensures SettingOf(Value(), BaselineCustomChecksFilePath) == Text(twinConfiguration.baselineCustomChecksFilePath)
      ensures SettingOf(Value(), BaselineCustomChecksFileHash) == Text(twinConfiguration.baselineCustomChecksFileHash)
    {
    }

    lemma FirstPriorities()
      ensures SettingOf(Value(), BaselinePriority) == Level(eventPriorities.baselinePriority)
      ensures SettingOf(Value(), ConnectionCreatePriority) == Level(eventPriorities.connectionCreatePriority)
      ensures SettingOf(Value(), DiagnosticPriority) == Level(eventPriorities.diagnostic)
      ensures SettingOf(Value(), FirewallConfigurationPriority) == Level(eventPriorities.firewallConfigurationPriority)
      ensures SettingOf(Value(), ListeningPortsPriority) == Level(eventPriorities.listeningPortsPriority)
    {
    }

    lemma OtherPriorities()
      ensures SettingOf(Value(), LocalUsersPriority) == Level(eventPriorities.localUsersPriority)
      ensures SettingOf(Value(), LoginPriority) == Level(eventPriorities.loginPriority)
      ensures SettingOf(Value(), OperationalPriority) == Level(eventPriorities.operational)
      ensures SettingOf(Value(), ProcessCreatePriority) == Level(eventPriorities.processCreatePriority)
      ensures SettingOf(Value(), SystemInformationPriority) == Level(eventPriorities.systemInformationPriority)
    {
    }

    lemma AggregationSettings()
      ensures SettingOf(Value(), ProcessCreateAggregationEnabled)
              == Flag(eventPriorities.processCreateAggregationEnabled)
      ensures SettingOf(Value(), ProcessCreateAggregationInterval)
              == Number(eventPriorities.processCreateAggregationInterval)
      ensures SettingOf(Value(), ConnectionCreateAggregationEnabled)
              == Flag(eventPriorities.connectionCreateAggregationEnabled)
      ensures SettingOf(Value(), ConnectionCreateAggregationInterval)
              == Number(eventPriorities.connectionCreateAggregationInterval)
    {
    }

    /** The first five priorities of the print, in the order of their keys. */
    method WriteFirstPriorities(prioritiesJson: map<string, Json>) returns (written: map<string, Json>)
      requires PrintedUpTo(prioritiesJson, Value(), 8)
      ensures PrintedUpTo(written, Value(), 13)
    {
      hide PrintedUpTo, PrintedValue, PRINT_ORDER, SettingOf, TwinState.Value;
      PrintOrder();
      FirstPriorities();
      ghost var t := Value();
      written := prioritiesJson;
      written := WritePriority(written, BaselinePriority, eventPriorities.baselinePriority, t, 8);
      written := WritePriority(written, ConnectionCreatePriority, eventPriorities.connectionCreatePriority, t, 9);
      written := WritePriority(written, DiagnosticPriority, eventPriorities.diagnostic, t, 10);
      written := WritePriority(written, FirewallConfigurationPriority,
                               eventPriorities.firewallConfigurationPriority, t, 11);
      written := WritePriority(written, ListeningPortsPriority, eventPriorities.listeningPortsPriority, t, 12);
    }

    method WriteOtherPriorities(prioritiesJson: map<string, Json>) returns (written: map<string, Json>)
      requires PrintedUpTo(prioritiesJson, Value(), 13)
      ensures PrintedUpTo(written, Value(), 18)
    {
      hide PrintedUpTo, PrintedValue, PRINT_ORDER, SettingOf, TwinState.Value;
      PrintOrder();
      OtherPriorities();
      ghost var t := Value();
      written := prioritiesJson;
      written := WritePriority(written, LocalUsersPriority, eventPriorities.localUsersPriority, t, 13);
      written := WritePriority(written, LoginPriority, eventPriorities.loginPriority, t, 14);
      written := WritePriority(written, OperationalPriority, eventPriorities.operational, t, 15);
      written := WritePriority(written, ProcessCreatePriority, eventPriorities.processCreatePriority, t, 16);
      written := WritePriority(written, SystemInformationPriority, eventPriorities.systemInformationPriority, t, 17);
    }

    /** The collectors' half of the print; it fails exactly if an aggregation interval is below a second. */
    method SafeGetPrioritiesJson(prioritiesJson: map<string, Json>) returns (success: bool, written: map<string, Json>)
      requires PrintedUpTo(prioritiesJson, Value(), 8)
      ensures success <==>
                && MILLISECONDS_IN_A_SECOND <= eventPriorities.processCreateAggregationInterval
                && MILLISECONDS_IN_A_SECOND <= eventPriorities.connectionCreateAggregationInterval
      ensures success ==> PrintedUpTo(written, Value(), 22)
    {
      hide PrintedUpTo, PrintedValue, PRINT_ORDER, SettingOf, TwinState.Value;
      PrintOrder();
      AggregationSettings();
      ghost var t := Value();
      written := WriteFirstPriorities(prioritiesJson);
      written := WriteOtherPriorities(written);
      var iso8601Interval := new char[DURATION_MAX_LENGTH];
      written := WriteBool(written, ProcessCreateAggregationEnabled,
                           eventPriorities.processCreateAggregationEnabled, t, 18);
      success, written := WriteTimeToJson(written, ProcessCreateAggregationInterval,
                                         eventPriorities.processCreateAggregationInterval, iso8601Interval, t, 19);
      if !success {
        return false, written;
      }
      written := WriteBool(written, ConnectionCreateAggregationEnabled,
                           eventPriorities.connectionCreateAggregationEnabled, t, 20);
      success, written := WriteTimeToJson(written, ConnectionCreateAggregationInterval,
                                         eventPriorities.connectionCreateAggregationInterval, iso8601Interval, t, 21);
      if !success {
        return false, written;
      }
      success := true;
    }

    /** Prints the whole twin; it fails exactly if some interval is below a second. */
    method GetSerializedTwinConfiguration()
      returns (result: TwinResult, twin: Option<Json>, ghost members: map<string, Json>)
      ensures result == if Printable(Value()) then TwinOk else TwinException
      ensures result == TwinOk ==>
                twin == Some(Document(members, twinConfigurationObjectName)) && IsPrint(members, Value())
    {
      hide PrintedUpTo, PrintedValue, PRINT_ORDER, SettingOf, Document, IsPrint;
      PrintOrder();
      ConfigurationSettings();
      ghost var t := Value();
      twin, members := None, map[];
      var timeSpan := new char[DURATION_MAX_LENGTH];
      var success;
      var written: map<string, Json> := map[];
      NothingPrinted(t);
      written := WriteUint(written, MaxLocalCacheSize, twinConfiguration.maxLocalCacheSize, t, 0);
      written := WriteUint(written, MaxMessageSize, twinConfiguration.maxMessageSize, t, 1);
      success, written := WriteTimeToJson(written, HighPriorityMessageFrequency,
                                         twinConfiguration.highPriorityMessageFrequency, timeSpan, t, 2);
      if !success {
        return TwinException, None, map[];
      }
      success, written := WriteTimeToJson(written, LowPriorityMessageFrequency,
                                         twinConfiguration.lowPriorityMessageFrequency, timeSpan, t, 3);
      if !success {
        return TwinException, None, map[];
      }
      success, written := WriteTimeToJson(written, SnapshotFrequency,
                                         twinConfiguration.snapshotFrequency, timeSpan, t, 4);
      if !success {
        return TwinException, None, map[];
      }
      written := WriteBool(written, BaselineCustomChecksEnabled, twinConfiguration.baselineCustomChecksEnabled, t, 5);
      written := WriteString(written, BaselineCustomChecksFilePath,
                             twinConfiguration.baselineCustomChecksFilePath, t, 6);
      written := WriteString(written, BaselineCustomChecksFileHash,
                             twinConfiguration.baselineCustomChecksFileHash, t, 7);
      success, written := SafeGetPrioritiesJson(written);
      if !success {
        return TwinException, None, map[];
      }
      PrintedAll(written, t);
      members := written;
      twin := Some(Document(written, twinConfigurationObjectName));
      result := TwinOk;
    }
  }

  // ----- the program's own round trip -----

  lemma PrintedEntryReadable(members: map<string, Json>, t: Twin, k: Key)
    requires IsPrint(members, t)
    ensures ReadableEntry(JsonObject(members), KeyText(k), KindOf(k))
  {
    hide KeyText, Readable, Printed, Split, DotFree, PriorityEnumAsString;
    if KindOf(k) == KindTime {
      KeyTextDotFree(k);
      FollowOne(members, KeyText(k));
      ValueKeyDotFree();
      if PrintedValue(t, k).Some? {
        FollowOne(map[VALUE_KEY := PrintedValue(t, k).value], VALUE_KEY);
        if SettingOf(t, k).Number? {
          PrintedReadable(SettingOf(t, k).number);
        }
      }
    }
  }

  /** A printed object is within what the program reads. */
  lemma PrintReadable(members: map<string, Json>, t: Twin)
    requires IsPrint(members, t)
    ensures ReadableTimes(JsonObject(members))
  {
    hide IsPrint, ReadableEntry;
    forall k ensures ReadableEntry(JsonObject(members), KeyText(k), KindOf(k)) {
      PrintedEntryReadable(members, t, k);
    }
  }

  lemma EmptyReadable()
    ensures ReadableTimes(JsonObject(map[]))
  {
    hide ReadableEntry, KeyText;
    forall k ensures ReadableEntry(JsonObject(map[]), KeyText(k), KindOf(k)) {
      KeyTextDotFree(k);
      EmptyEntryReadable(KeyText(k), KindOf(k));
    }
  }

  lemma EmptyEntryReadable(key: string, kind: Kind)
    requires DotFree(key)
    ensures ReadableEntry(JsonObject(map[]), key, kind)
  {
    FollowOne(map[], key);
  }

  /** So is whatever an update finds in a printed document. */
  lemma ReappliedReadable(members: map<string, Json>, t: Twin, name: string)
    requires IsPrint(members, t)
    ensures var s := Select(Some(Document(members, name)), name, false); s.Chosen? ==> ReadableTimes(s.member)
  {
    hide IsPrint, ReadableTimes;
    PrintReadable(members, t);
    EmptyReadable();
    if DotFree(name) {
      FollowOne(map[name := JsonObject(members)], name);
    } else {
      DottedNameMissed(members, name);
    }
  }

  /**
   * From any two states reached by updates under the same name: printing the first succeeds, applying the print to the
   * second succeeds, and it rebuilds the first exactly as the conditions of PrintRoundTrip say.
   */
  method PrintAndReapply(source: TwinState, target: TwinState) returns (printed: TwinResult, applied: TwinResult)
    requires source.Valid() && target.Valid()
    requires source.twinConfigurationObjectName == target.twinConfigurationObjectName
    modifies target
    ensures printed == TwinOk && applied == TwinOk && target.Valid()
    ensures var name, t := target.twinConfigurationObjectName, old(source.Value());
            && (EqualButOperational(target.Value(), t) <==> DotFree(name) || EqualButOperational(t, DEFAULTS))
            && (target.Value() == t <==>
                  if DotFree(name) then t.collectors.operational != Operational else t == DEFAULTS)
  {
    hide IsPrint, Updated, Updates, Select, Accepted, Document, ReadableTimes, DEFAULTS, Mismatches, Printable;
    ghost var name, us, t := source.twinConfigurationObjectName, source.updates, source.Value();
    ReachableWellTimed(name, us);
    var twin;
    ghost var members, before := map[], target.Value();
    printed, twin, members := source.GetSerializedTwinConfiguration();
    ReappliedReadable(members, t, name);
    PrintRoundTrip(name, us, members, before);
    applied := target.Update(twin, false);
    AcceptedCode(name, Reapplied(members, name));
  }

  lemma AcceptedCode(name: string, u: TwinSpec.Update)
    requires Accepted(name, u)
    ensures Select(u.document, name, u.complete).Chosen?
  {
  }
}
