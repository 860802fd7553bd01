/** Concrete documents at which the twin's promises fail where the exact conditions of TwinSpec say they do. */
module TwinWitnesses {
  import opened Common
  import opened Json
  import opened TwinKeys
  import opened TwinSpec
  import opened TwinConfiguration

  /** The members of an object that configures a single key. */
  function OneEntry(k: Key, value: Json): map<string, Json> {
    map[KeyText(k) := Entry(value)]
  }

  function OneEntryUpdate(name: string, k: Key, value: Json): Update {
    Update(Some(Document(OneEntry(k, value), name)), false)
  }

  /** Such an object says what its one entry says, and the default about every other key. */
  lemma OneEntryDecodes(k: Key, value: Json, other: Key)
    requires !value.JsonNull?
    ensures Decode(JsonObject(OneEntry(k, value)), other)
            == if other != k then Some(SettingOf(DEFAULTS, other))
               else match ReadPlain(value, KindOf(k)) case Some(v) => Convert(k, v) case None => None
  {
    hide KeyText, KindOf, Configured, Convert, DEFAULTS, ReadPlain, Entry;
    if other == k {
      ConfiguredEntry(OneEntry(k, value), k, Some(value));
    } else {
      if KeyText(other) == KeyText(k) {
        KeyTextInjective(other, k);
      }
      ConfiguredEntry(OneEntry(k, value), other, None);
    }
  }

  /** An update with one well-formed entry is accepted and installs that entry over the defaults. */
  lemma OneEntryAccepted(obj: Json, name: string, u: Update, k: Key, value: Json, setting: Setting)
    requires Select(u.document, name, u.complete) == Chosen(obj) && obj == JsonObject(OneEntry(k, value))
    requires !value.JsonNull? && Decode(obj, k) == Some(setting)
    ensures Accepted(name, u) && SettingOf(DecodedTwin(obj), k) == setting
  {
    hide Decode, DEFAULTS, OneEntry, SettingOf, DecodedTwin;
    forall other ensures Decode(obj, other).Some? {
      OneEntryDecodes(k, value, other);
    }
    DecodedSettings(obj, k);
  }

  lemma OneEntrySelected(name: string, k: Key, value: Json)
    requires DotFree(name)
    ensures var u := OneEntryUpdate(name, k, value);
            Select(u.document, name, u.complete) == Chosen(JsonObject(OneEntry(k, value)))
  {
    hide OneEntry;
    FollowOne(map[name := JsonObject(OneEntry(k, value))], name);
  }

  /** "high" for the operational priority, and a number where the aggregation flag should be. */
  function HighOperational(name: string): Update {
    OneEntryUpdate(name, OperationalPriority, JsonString("high"))
  }

  function NumericFlag(name: string): Update {
    OneEntryUpdate(name, ProcessCreateAggregationEnabled, JsonNumber(1.0))
  }

  lemma HighOperationalAccepted(name: string)
    requires DotFree(name)
    ensures Accepted(name, HighOperational(name))
    ensures Updated(DEFAULTS, name, HighOperational(name)).collectors.operational == High
  {
    hide KeyText, DecodedTwin, Decode, Accepted;
    var obj := JsonObject(OneEntry(OperationalPriority, JsonString("high")));
    OneEntrySelected(name, OperationalPriority, JsonString("high"));
    OneEntryDecodes(OperationalPriority, JsonString("high"), OperationalPriority);
    PriorityRoundTrip(High);
    OneEntryAccepted(obj, name, HighOperational(name), OperationalPriority, JsonString("high"), Level(High));
  }

  lemma NumericFlagRejectedLate(name: string)
    requires DotFree(name)
    ensures !Accepted(name, NumericFlag(name)) && LateRejected(name, NumericFlag(name))
  {
    hide KeyText, Decode, DEFAULTS, Convert;
    var k, value := ProcessCreateAggregationEnabled, JsonNumber(1.0);
    OneEntrySelected(name, k, value);
    forall other ensures Decode(JsonObject(OneEntry(k, value)), other).Some? <==> other != k {
      OneEntryDecodes(k, value, other);
    }
    assert k in AGGREGATION_KEYS && k !in CONFIGURATION_KEYS && k !in PRIORITY_KEYS;
  }

  /** A rejected update that changes the state: after the first update, the second one is refused and takes effect. */
  lemma RejectedUpdateChanges(name: string)
    requires DotFree(name)
    ensures var first, second := HighOperational(name), NumericFlag(name);
            && !Accepted(name, second)
            && Updates(DEFAULTS, name, [first]).collectors.operational == High
            && Updates(DEFAULTS, name, [first, second]).collectors.operational == Operational
  {
    hide Accepted, LateRejected, DecodedTwin, DEFAULTS, HighOperational, NumericFlag;
    var first, second := HighOperational(name), NumericFlag(name);
    HighOperationalAccepted(name);
    NumericFlagRejectedLate(name);
    assert [first][..0] == [] && [first, second][..1] == [first];
    assert Updates(DEFAULTS, name, []) == DEFAULTS;
    assert Updates(DEFAULTS, name, [first]) == Updated(DEFAULTS, name, first);
  }

  /** A complete round trip fails at once: the defaults print "high" for the operational priority. */
  lemma DefaultsPrintDiffers(name: string, members: map<string, Json>, before: Twin)
    requires DotFree(name) && IsPrint(members, DEFAULTS)
    ensures Updated(before, name, Reapplied(members, name)) != DEFAULTS
    ensures DEFAULTS.collectors.operational == Operational
  {
    assert Updates(DEFAULTS, name, []) == DEFAULTS;
    PrintRoundTrip(name, [], members, before);
  }

  const DOTTED := "a.b"

  /** Nested objects reach the dotted name; the print uses it as one key. */
  function NestedUpdate(obj: Json): Update {
    Update(Some(JsonObject(map["a" := JsonObject(map["b" := obj])])), false)
  }

  lemma DottedSplit()
    ensures Split(DOTTED) == ["a", "b"] && !DotFree(DOTTED)
  {
    assert DOTTED[1] == '.';
    assert DOTTED[..1] == "a" && DOTTED[2..] == "b" && DotFree("b");
  }

  lemma NestedSelected(obj: Json)
    requires obj.JsonObject?
    ensures Select(NestedUpdate(obj).document, DOTTED, false) == Chosen(obj)
  {
    hide Split, DOTTED;
    DottedSplit();
    var inner := JsonObject(map["b" := obj]);
    assert Follow(inner, ["b"]) == Follow(obj, ["b"][1..]);
    assert ["a", "b"][1..] == ["b"];
    assert Follow(JsonObject(map["a" := inner]), ["a", "b"]) == Follow(inner, ["b"]);
  }

  /** A reachable configuration with a dotted object name that its own print does not bring back. */
  lemma DottedNameLosesPrint(members: map<string, Json>, before: Twin)
    requires var obj := JsonObject(OneEntry(BaselinePriority, JsonString("high")));
             IsPrint(members, Updates(DEFAULTS, DOTTED, [NestedUpdate(obj)]))
    ensures var obj := JsonObject(OneEntry(BaselinePriority, JsonString("high")));
            var t := Updates(DEFAULTS, DOTTED, [NestedUpdate(obj)]);
            && t.collectors.baselinePriority == High
            && Accepted(DOTTED, Reapplied(members, DOTTED))
            && Updated(before, DOTTED, Reapplied(members, DOTTED)).collectors.baselinePriority == Low
  {
    hide KeyText, DecodedTwin, Decode, Accepted, IsPrint, NestedUpdate, DOTTED, WellTimed, Ranked;
    var k, value := BaselinePriority, JsonString("high");
    var obj := JsonObject(OneEntry(k, value));
    var us := [NestedUpdate(obj)];
    var t := Updates(DEFAULTS, DOTTED, us);
    NestedIsPartial(obj);
    NestedSelected(obj);
    OneEntryDecodes(k, value, k);
    PriorityRoundTrip(High);
    OneEntryAccepted(obj, DOTTED, NestedUpdate(obj), k, value, Level(High));
    assert us[..0] == [] && Updates(DEFAULTS, DOTTED, []) == DEFAULTS;
    assert t == Updated(DEFAULTS, DOTTED, NestedUpdate(obj)) == DecodedTwin(obj);
    DottedSplit();
    ReachableWellTimed(DOTTED, us);
    ReachableRanked(DOTTED, us);
    ReapplyPrint(members, t, DOTTED, before);
  }

  lemma NestedIsPartial(obj: Json)
    ensures !NestedUpdate(obj).complete
  {
  }

  // ----- a complete twin -----

  const SIZE_ENTRY: map<string, Json> := map["maxMessageSizeInBytes" := JsonObject(map["value" := JsonNumber(1000.0)])]

  const COMPLETE_TWIN: Json := JsonObject(map[
    "desired" := JsonObject(map["agent" := JsonObject(SIZE_ENTRY)]),
    "reported" := JsonObject(map[])])

  lemma SizeEntry()
    ensures SIZE_ENTRY == OneEntry(MaxMessageSize, JsonNumber(1000.0))
  {
    MainTexts();
  }

  lemma SizeEntrySelected()
    ensures Select(Some(COMPLETE_TWIN), "agent", true) == Chosen(JsonObject(SIZE_ENTRY))
  {
    hide Select, SIZE_ENTRY;
    CompleteIsDesired(COMPLETE_TWIN.fields, "agent");
    MemberSelected(map["agent" := JsonObject(SIZE_ENTRY)], "agent");
  }

  lemma SizeDecoded(k: Key)
    ensures Decode(JsonObject(SIZE_ENTRY), k)
            == Some(if k == MaxMessageSize then Number(1000) else SettingOf(DEFAULTS, k))
  {
    hide Decode, SIZE_ENTRY, OneEntry, DEFAULTS, SettingOf;
    SizeEntry();
    OneEntryDecodes(MaxMessageSize, JsonNumber(1000.0), k);
  }

  /** The desired size is installed, over the defaults. */
  lemma SizeInstalled(before: Twin)
    ensures var u := Update(Some(COMPLETE_TWIN), true);
            && Accepted("agent", u)
            && Updated(before, "agent", u)
               == DEFAULTS.(configuration := DEFAULTS.configuration.(maxMessageSize := 1000))
  {
    hide Decode, Select, SIZE_ENTRY, COMPLETE_TWIN, DEFAULTS, SettingOf, DecodedTwin;
    SizeEntrySelected();
    var obj := JsonObject(SIZE_ENTRY);
    forall k ensures Decode(obj, k).Some? {
      SizeDecoded(k);
    }
    var expected := DEFAULTS.(configuration := DEFAULTS.configuration.(maxMessageSize := 1000));
    forall k ensures SettingOf(DecodedTwin(obj), k) == SettingOf(expected, k) {
      SizeDecoded(k);
      DecodedSettings(obj, k);
      SizeSetting(DEFAULTS, k);
    }
    SameSettingsSameTwin(DecodedTwin(obj), expected);
  }

  lemma SizeSetting(t: Twin, k: Key)
    ensures SettingOf(t.(configuration := t.configuration.(maxMessageSize := 1000)), k)
            == if k == MaxMessageSize then Number(1000) else SettingOf(t, k)
  {
  }

  lemma SizeEntryReadable()
    ensures ReadableTimes(JsonObject(SIZE_ENTRY))
  {
    hide KeyText, KindOf, ReadableEntry, SIZE_ENTRY;
    SizeEntry();
    forall k ensures ReadableEntry(JsonObject(SIZE_ENTRY), KeyText(k), KindOf(k)) {
      SizeEntryReadableAt(k);
    }
  }

  lemma SizeEntryReadableAt(k: Key)
    ensures ReadableEntry(JsonObject(OneEntry(MaxMessageSize, JsonNumber(1000.0))), KeyText(k), KindOf(k))
  {
    hide KeyText, Split;
    KeyTextDotFree(k);
    if KindOf(k) == KindTime {
      if KeyText(k) == KeyText(MaxMessageSize) {
        KeyTextInjective(k, MaxMessageSize);
      }
      MemberRead(OneEntry(MaxMessageSize, JsonNumber(1000.0)), KeyText(k), TypeObject);
    }
  }

  /** A complete twin sets the message size; another one without a "desired" object is refused and changes nothing. */
  method CompleteUpdates() returns (state: TwinState, first: TwinResult, second: TwinResult)
    ensures first == TwinOk && second == TwinParseException
    ensures state.twinConfiguration.maxMessageSize == 1000 && state.twinConfiguration.maxLocalCacheSize == 10485760
    ensures state.eventPriorities == DEFAULTS.collectors
  {
    hide Select, Updated, Updates, Accepted, ReadableTimes, COMPLETE_TWIN, SIZE_ENTRY, Mismatches;
    state := new TwinState("agent");
    SizeEntrySelected();
    SizeEntryReadable();
    SizeInstalled(DEFAULTS);
    first := state.Update(Some(COMPLETE_TWIN), true);
    CompleteIsDesired(map["reported" := JsonObject(map[])], "agent");
    second := state.Update(Some(JsonObject(map["reported" := JsonObject(map[])])), true);
  }
}
