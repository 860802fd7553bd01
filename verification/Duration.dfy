/**
 * Durations in the format of section 4.4.3.2 of ISO 8601:2004 (with weeks mixed in as the agent allows):
 * what a text denotes, independently of how it is parsed or printed.
 */
module Duration {
  import opened Common
  import opened Decimal

  const MILLISECONDS_IN_A_SECOND: u32 := 1000
  const MILLISECONDS_IN_A_MINUTE: u32 := 60000
  const MILLISECONDS_IN_AN_HOUR: u32 := 3600000
  const MILLISECONDS_IN_A_DAY: u32 := 86400000
  const MILLISECONDS_IN_A_WEEK: u32 := 604800000
  const MILLISECONDS_IN_A_MONTH: u32 := 2592000000
  /** The product overflows an unsigned int, and the constant is what is left of it. */
  const MILLISECONDS_IN_A_YEAR: u32 := Wrap(MILLISECONDS_IN_A_DAY * 365)
  const MAX_YEARS_IN_UINT32: u32 := U32_MAX / MILLISECONDS_IN_A_YEAR

  lemma YearConstants()
    ensures MILLISECONDS_IN_A_YEAR == 1471228928 && MAX_YEARS_IN_UINT32 == 2
  {
  }

  /** One kind of component: its designator, what one unit is worth, and the largest number accepted, if limited. */
  datatype Unit = Unit(designator: char, weight: nat, limit: Option<nat>)

  /** Years are read, limited by the wrapped constant, and then count for nothing. */
  const DATE_UNITS: seq<Unit> :=
    [Unit('Y', 0, Some(MAX_YEARS_IN_UINT32)), Unit('M', MILLISECONDS_IN_A_MONTH, None),
     Unit('W', MILLISECONDS_IN_A_WEEK, None), Unit('D', MILLISECONDS_IN_A_DAY, None)]

  const TIME_UNITS: seq<Unit> :=
    [Unit('H', MILLISECONDS_IN_AN_HOUR, None), Unit('M', MILLISECONDS_IN_A_MINUTE, None),
     Unit('S', MILLISECONDS_IN_A_SECOND, None)]

  // ----- a section written out of its components -----

  /** One optional numeral per unit. */
  type Fields = seq<Option<string>>

  predicate WellFormed(units: seq<Unit>, fields: Fields) {
    && |fields| == |units|
    && forall i | 0 <= i < |fields| && fields[i].Some? ::
         && fields[i].value != [] && AllDigits(fields[i].value)
         && (units[i].limit.Some? ==> ValueOf(fields[i].value) <= units[i].limit.value)
  }

  predicate SomePresent(fields: Fields) {
    exists i :: 0 <= i < |fields| && fields[i].Some?
  }

  function FieldText(u: Unit, field: Option<string>): string {
    if field.None? then [] else field.value + [u.designator]
  }

  function Written(units: seq<Unit>, fields: Fields): string
    requires |fields| == |units|
  {
    if units == [] then [] else FieldText(units[0], fields[0]) + Written(units[1..], fields[1..])
  }

  function Worth(u: Unit, digits: string): nat
    requires AllDigits(digits)
  {
    ValueOf(digits) * u.weight
  }

  /** The exact, unbounded sum of the components. */
  function Weighted(units: seq<Unit>, fields: Fields): nat
    requires WellFormed(units, fields)
  {
    if units == [] then 0
    else
      (if fields[0].None? then 0 else Worth(units[0], fields[0].value)) + Weighted(units[1..], fields[1..])
  }

  lemma PresentSplit(fields: Fields)
    ensures SomePresent(fields) <==> fields != [] && (fields[0].Some? || SomePresent(fields[1..]))
  {
    if fields == [] {
      return;
    }
    if i :| 0 <= i < |fields[1..]| && fields[1..][i].Some? {
      assert fields[i + 1].Some?;
    }
    if i :| 1 <= i < |fields| && fields[i].Some? {
      assert fields[1..][i - 1].Some?;
    }
  }

  // ----- reading a section left to right -----

  function Plus(n: nat, rest: Option<nat>): Option<nat> {
    if rest.None? then None else Some(n + rest.value)
  }

  /** The number in front of the first designator of a section, if it has one. */
  predicate Scans(text: string) {
    0 < DigitRun(text) < |text|
  }

  function Reading(units: seq<Unit>, text: string): Option<nat> {
    var n := DigitRun(text);
    if units == [] || !Scans(text) then None
    else if text[n] != units[0].designator then Reading(units[1..], text)
    else if units[0].limit.Some? && ValueOf(text[..n]) > units[0].limit.value then None
    else if n + 1 == |text| then Some(Worth(units[0], text[..n]))
    else Plus(Worth(units[0], text[..n]), Reading(units[1..], text[n + 1..]))
  }

  predicate Designators(units: seq<Unit>) {
    && (forall i | 0 <= i < |units| :: !IsDigit(units[i].designator))
    && (forall i, j | 0 <= i < j < |units| :: units[i].designator != units[j].designator)
  }

  lemma FieldStart(digits: string, designator: char, more: string)
    requires digits != [] && AllDigits(digits) && !IsDigit(designator)
    ensures Scans(digits + [designator] + more)
    ensures (digits + [designator] + more)[DigitRun(digits + [designator] + more)] == designator
  {
    var rest := [designator] + more;
    assert digits + [designator] + more == digits + rest;
    DigitRunOf(digits, rest);
  }

  /** The designator that ends the first component of a written section belongs to one of the units. */
  lemma {:induction false} WrittenStart(units: seq<Unit>, fields: Fields) returns (i: nat)
    requires WellFormed(units, fields) && Designators(units) && SomePresent(fields)
    ensures Scans(Written(units, fields)) && i < |units|
    ensures Written(units, fields)[DigitRun(Written(units, fields))] == units[i].designator
  {
    hide Scans, DigitRun, SomePresent;
    PresentSplit(fields);
    if fields[0].None? {
      i := WrittenStart(units[1..], fields[1..]);
      assert Written(units, fields) == Written(units[1..], fields[1..]);
      i := i + 1;
    } else {
      i := 0;
      FieldStart(fields[0].value, units[0].designator, Written(units[1..], fields[1..]));
    }
  }

  lemma ReadSkip(units: seq<Unit>, text: string)
    requires units != [] && Scans(text) && text[DigitRun(text)] != units[0].designator
    ensures Reading(units, text) == Reading(units[1..], text)
  {
  }

  lemma ReadField(units: seq<Unit>, digits: string, more: string)
    requires units != [] && digits != [] && AllDigits(digits) && !IsDigit(units[0].designator)
    requires units[0].limit.Some? ==> ValueOf(digits) <= units[0].limit.value
    ensures Reading(units, digits + [units[0].designator] + more)
            == if more == [] then Some(Worth(units[0], digits))
               else Plus(Worth(units[0], digits), Reading(units[1..], more))
  {
    var text := digits + [units[0].designator] + more;
    assert text == digits + ([units[0].designator] + more);
    DigitRunOf(digits, [units[0].designator] + more);
    assert text[..|digits|] == digits && text[|digits| + 1..] == more;
  }

  lemma ScansNonempty(text: string)
    requires Scans(text)
    ensures text != []
  {
  }

  lemma SplitSection(units: seq<Unit>, fields: Fields)
    requires WellFormed(units, fields) && Designators(units) && fields != []
    ensures WellFormed(units[1..], fields[1..]) && Designators(units[1..]) && !IsDigit(units[0].designator)
    ensures Written(units, fields) == FieldText(units[0], fields[0]) + Written(units[1..], fields[1..])
    ensures Weighted(units, fields)
            == (if fields[0].None? then 0 else Worth(units[0], fields[0].value)) + Weighted(units[1..], fields[1..])
    ensures fields[0].None? && SomePresent(fields) ==>
              Scans(Written(units, fields)) &&
              Written(units, fields)[DigitRun(Written(units, fields))] != units[0].designator
  {
    if fields[0].None? && SomePresent(fields) {
      PresentSplit(fields);
      var _ := WrittenStart(units[1..], fields[1..]);
      assert Written(units, fields) == Written(units[1..], fields[1..]);
    }
  }

  /** A written section reads as its exact sum. */
  lemma {:induction false} ReadWritten(units: seq<Unit>, fields: Fields)
    requires WellFormed(units, fields) && Designators(units) && SomePresent(fields)
    ensures Reading(units, Written(units, fields)) == Some(Weighted(units, fields))
  {
    hide Reading, SomePresent, Written, Weighted, Designators, Worth, Scans;
    PresentSplit(fields);
    SplitSection(units, fields);
    var text, more := Written(units, fields), Written(units[1..], fields[1..]);
    if fields[0].None? {
      assert text == more;
      ReadSkip(units, text);
      ReadWritten(units[1..], fields[1..]);
    } else {
      ReadField(units, fields[0].value, more);
      assert text == fields[0].value + [units[0].designator] + more;
      if SomePresent(fields[1..]) {
        var _ := WrittenStart(units[1..], fields[1..]);
        ScansNonempty(more);
        ReadWritten(units[1..], fields[1..]);
      } else {
        AbsentFields(units[1..], fields[1..]);
      }
    }
  }

  lemma {:induction false} AbsentFields(units: seq<Unit>, fields: Fields)
    requires WellFormed(units, fields) && !SomePresent(fields)
    ensures Written(units, fields) == [] && Weighted(units, fields) == 0
  {
    if units != [] {
      PresentSplit(fields);
      AbsentFields(units[1..], fields[1..]);
    }
  }

  function Absent(n: nat): Fields {
    seq(n, _ => None)
  }

  lemma NothingWritten(units: seq<Unit>)
    ensures WellFormed(units, Absent(|units|)) && !SomePresent(Absent(|units|))
    ensures Written(units, Absent(|units|)) == [] && Weighted(units, Absent(|units|)) == 0
  {
    AbsentFields(units, Absent(|units|));
  }

  /** One more component, or a gap, in front of a section. */
  lemma Prepend(units: seq<Unit>, field: Option<string>, rest: Fields)
    requires units != [] && WellFormed(units[1..], rest)
    requires field.Some? ==>
               && field.value != [] && AllDigits(field.value)
               && (units[0].limit.Some? ==> ValueOf(field.value) <= units[0].limit.value)
    ensures WellFormed(units, [field] + rest)
    ensures Written(units, [field] + rest) == FieldText(units[0], field) + Written(units[1..], rest)
    ensures Weighted(units, [field] + rest)
            == (if field.None? then 0 else Worth(units[0], field.value)) + Weighted(units[1..], rest)
    ensures SomePresent([field] + rest) <==> field.Some? || SomePresent(rest)
  {
    var fields := [field] + rest;
    assert fields[1..] == rest;
    forall i | 0 <= i < |fields| && fields[i].Some?
      ensures fields[i].value != [] && AllDigits(fields[i].value)
      ensures units[i].limit.Some? ==> ValueOf(fields[i].value) <= units[i].limit.value
    {
      assert i > 0 ==> fields[i] == rest[i - 1] && units[i] == units[1..][i - 1];
    }
    PresentSplit(fields);
  }

  /** Whatever reads is a written section with that sum. */
  lemma {:induction false} ReadIsWritten(units: seq<Unit>, text: string) returns (fields: Fields)
    requires Reading(units, text).Some?
    ensures WellFormed(units, fields) && SomePresent(fields)
    ensures Written(units, fields) == text && Some(Weighted(units, fields)) == Reading(units, text)
  {
    hide Written, Weighted, SomePresent, WellFormed;
    var n := DigitRun(text);
    if text[n] != units[0].designator {
      var rest := ReadIsWritten(units[1..], text);
      Prepend(units, None, rest);
      fields := [None] + rest;
    } else {
      var rest: Fields;
      if n + 1 == |text| {
        rest := Absent(|units| - 1);
        NothingWritten(units[1..]);
      } else {
        rest := ReadIsWritten(units[1..], text[n + 1..]);
      }
      Prepend(units, Some(text[..n]), rest);
      fields := [Some(text[..n])] + rest;
      assert text == text[..n] + [units[0].designator] + text[n + 1..];
    }
  }

  // ----- a whole duration -----

  /** The position of the first c at or after `from`, or the length of s if there is none. */
  function IndexOf(s: string, c: char, from: nat): (i: nat)
    requires from <= |s|
    ensures from <= i <= |s| && (i < |s| ==> s[i] == c)
    ensures forall j | from <= j < i :: s[j] != c
    decreases |s| - from
  {
    if from == |s| || s[from] == c then from else IndexOf(s, c, from + 1)
  }

  /** What a text means as a duration: the exact number of milliseconds, or None. */
  function Meaning(s: string): Option<nat> {
    if s == [] || s[0] != 'P' then None
    else
      var t := IndexOf(s, 'T', 1);
      var date := if t == 1 && t < |s| then Some(0) else Reading(DATE_UNITS, s[1..t]);
      var time := if t == |s| then Some(0) else Reading(TIME_UNITS, s[t + 1..]);
      if date.None? then None else Plus(date.value, time)
  }

  /** What the agent accepts: a positive number of milliseconds that fits in 32 bits. */
  function Parsed(s: string): Option<u32> {
    var m := Meaning(s);
    if m.Some? && 0 < m.value <= U32_MAX then Some(m.value) else None
  }

  /** A duration as its components; `time` is absent when there is no "T". */
  datatype Components = Components(date: Fields, time: Option<Fields>) {
    predicate Valid() {
      && WellFormed(DATE_UNITS, date)
      && (time.Some? ==> WellFormed(TIME_UNITS, time.value) && SomePresent(time.value))
      && (SomePresent(date) || time.Some?)
    }

    function Text(): string
      requires Valid()
    {
      ['P'] + Written(DATE_UNITS, date) + if time.None? then [] else ['T'] + Written(TIME_UNITS, time.value)
    }

    function Sum(): nat
      requires Valid()
    {
      Weighted(DATE_UNITS, date) + if time.None? then 0 else Weighted(TIME_UNITS, time.value)
    }
  }

  lemma {:induction false} WrittenAvoids(units: seq<Unit>, fields: Fields, c: char)
    requires WellFormed(units, fields) && !IsDigit(c) && forall i | 0 <= i < |units| :: units[i].designator != c
    ensures c !in Written(units, fields)
  {
    if units != [] {
      WrittenAvoids(units[1..], fields[1..], c);
    }
  }

  lemma IndexOfFirst(s: string, c: char, from: nat, i: nat)
    requires from <= i <= |s| && (i < |s| ==> s[i] == c) && forall j | from <= j < i :: s[j] != c
    ensures IndexOf(s, c, from) == i
  {
  }

  lemma KnownUnits()
    ensures Designators(DATE_UNITS) && Designators(TIME_UNITS) && |DATE_UNITS| == 4 && |TIME_UNITS| == 3
    ensures forall i | 0 <= i < |DATE_UNITS| :: DATE_UNITS[i].designator != 'T'
  {
  }

  lemma MeaningOfText(c: Components)
    requires c.Valid()
    ensures Meaning(c.Text()) == Some(c.Sum())
  {
    hide Reading, Written, Weighted, SomePresent, Designators, IndexOf, DATE_UNITS, TIME_UNITS;
    KnownUnits();
    var s := c.Text();
    var date := Written(DATE_UNITS, c.date);
    WrittenAvoids(DATE_UNITS, c.date, 'T');
    IndexOfFirst(s, 'T', 1, 1 + |date|);
    assert s[1..1 + |date|] == date;
    if SomePresent(c.date) {
      var _ := WrittenStart(DATE_UNITS, c.date);
      ReadWritten(DATE_UNITS, c.date);
    } else {
      AbsentFields(DATE_UNITS, c.date);
    }
    if c.time.Some? {
      ReadWritten(TIME_UNITS, c.time.value);
      assert s[1 + |date| + 1..] == Written(TIME_UNITS, c.time.value);
    }
  }

  lemma TextOfMeaning(s: string) returns (c: Components)
    requires Meaning(s).Some?
    ensures c.Valid() && c.Text() == s && Meaning(s) == Some(c.Sum())
  {
    hide Reading, Written, Weighted, SomePresent, Designators, IndexOf, DATE_UNITS, TIME_UNITS;
    KnownUnits();
    var t := IndexOf(s, 'T', 1);
    var date: Fields := Absent(4);
    if t == 1 && t < |s| {
      NothingWritten(DATE_UNITS);
    } else {
      date := ReadIsWritten(DATE_UNITS, s[1..t]);
    }
    if t == |s| {
      c := Components(date, None);
      assert s == ['P'] + s[1..t];
    } else {
      var time := ReadIsWritten(TIME_UNITS, s[t + 1..]);
      c := Components(date, Some(time));
      assert s == ['P'] + s[1..t] + (['T'] + s[t + 1..]);
    }
  }

  /**
   * Exactness: a text is accepted with value v if and only if it has the ordered form
   * P[nY][nM][nW][nD][T[nH][nM][nS]] with some component (and one after any T), at most two years,
   * and v is the exact sum of everything but the years, positive and below 2^32.
   */
  lemma ParsedIff(s: string, v: u32)
    ensures Parsed(s) == Some(v) <==> 0 < v && exists c: Components :: c.Valid() && c.Text() == s && c.Sum() == v
  {
    if Parsed(s) == Some(v) {
      var c := TextOfMeaning(s);
    }
    if c: Components :| c.Valid() && c.Text() == s && c.Sum() == v {
      MeaningOfText(c);
    }
  }

  lemma OneDigit(d: nat)
    requires d <= 9
    ensures AllDigits([DigitOf(d)]) && ValueOf([DigitOf(d)]) == d
  {
    assert [DigitOf(d)][..0] == [];
  }

  /** A section whose first component is the only one. */
  lemma OnlyFirst(units: seq<Unit>, fields: Fields)
    requires WellFormed(units, fields) && fields != [] && fields[0].Some? && !SomePresent(fields[1..])
    ensures SomePresent(fields) && Written(units, fields) == fields[0].value + [units[0].designator]
    ensures Weighted(units, fields) == Worth(units[0], fields[0].value)
  {
    AbsentFields(units[1..], fields[1..]);
  }

  lemma LeadingAbsent(units: seq<Unit>, fields: Fields)
    requires WellFormed(units, fields) && fields != [] && fields[0].None?
    ensures Written(units, fields) == Written(units[1..], fields[1..])
    ensures Weighted(units, fields) == Weighted(units[1..], fields[1..])
    ensures SomePresent(fields[1..]) ==> SomePresent(fields)
  {
    PresentSplit(fields);
  }

  lemma TwoYears()
    ensures var c := Components([Some("2"), None, None, None], Some([None, None, Some("5")]));
            c.Valid() && c.Text() == "P2YT5S" && c.Sum() == 5000
  {
    hide Written, Weighted, SomePresent;
    OneDigit(2);
    OneDigit(5);
    YearConstants();
    var date: Fields, clock: Fields := [Some("2"), None, None, None], [None, None, Some("5")];
    PresentSplit(date[1..]);
    PresentSplit(date[1..][1..]);
    PresentSplit(date[1..][1..][1..]);
    PresentSplit([]);
    OnlyFirst(DATE_UNITS, date);
    LeadingAbsent(TIME_UNITS, clock);
    LeadingAbsent(TIME_UNITS[1..], clock[1..]);
    PresentSplit(clock[1..][1..][1..]);
    OnlyFirst(TIME_UNITS[1..][1..], clock[1..][1..]);
    assert "P" + "2Y" + ("T" + "5S") == "P2YT5S";
  }

  lemma ThreeYears()
    ensures Reading(DATE_UNITS, "3Y") == None
  {
    OneDigit(3);
    YearConstants();
    DigitRunOf("3", "Y");
    assert "3" + "Y" == "3Y" && "3Y"[..1] == "3";
  }

  /** Two years are read and count for nothing, a third year is refused: the price of the wrapped constant. */
  lemma YearsCountForNothing()
    ensures Parsed("P2YT5S") == Some(5000) && Parsed("P3YT5S") == None
  {
    hide Reading, IndexOf, Components.Valid, Components.Text, Components.Sum;
    TwoYears();
    MeaningOfText(Components([Some("2"), None, None, None], Some([None, None, Some("5")])));
    IndexOfFirst("P3YT5S", 'T', 1, 3);
    ThreeYears();
    assert "P3YT5S"[1..3] == "3Y";
  }

  // ----- one of each unit -----

  function Only(n: nat, j: nat): (fields: Fields)
    ensures |fields| == n
  {
    seq(n, i => if i == j then Some("1") else None)
  }

  lemma {:induction false} OnlyOne(units: seq<Unit>, fields: Fields, j: nat)
    requires WellFormed(units, fields) && j < |units| && fields[j].Some?
    requires forall i | 0 <= i < |units| && i != j :: fields[i].None?
    ensures SomePresent(fields) && Written(units, fields) == fields[j].value + [units[j].designator]
    ensures Weighted(units, fields) == Worth(units[j], fields[j].value)
    decreases j
  {
    if j == 0 {
      OnlyFirst(units, fields);
    } else {
      OnlyOne(units[1..], fields[1..], j - 1);
      LeadingAbsent(units, fields);
    }
  }

  lemma OneWorth(u: Unit)
    ensures AllDigits("1") && ValueOf("1") == 1 && Worth(u, "1") == u.weight
  {
    OneDigit(1);
    assert [DigitOf(1)] == "1";
  }

  lemma DateUnit(j: nat)
    requires j < 4
    ensures Meaning("P1" + [DATE_UNITS[j].designator]) == Some(DATE_UNITS[j].weight)
  {
    hide Written, Weighted, SomePresent, Meaning;
    OneWorth(DATE_UNITS[j]);
    YearConstants();
    var fields := Only(4, j);
    OnlyOne(DATE_UNITS, fields, j);
    var c := Components(fields, None);
    assert ['P'] + ("1" + [DATE_UNITS[j].designator]) + [] == "P1" + [DATE_UNITS[j].designator];
    MeaningOfText(c);
  }

  lemma TimeUnit(j: nat)
    requires j < 3
    ensures Meaning("PT1" + [TIME_UNITS[j].designator]) == Some(TIME_UNITS[j].weight)
  {
    hide Written, Weighted, SomePresent, Meaning;
    OneWorth(TIME_UNITS[j]);
    var fields := Only(3, j);
    OnlyOne(TIME_UNITS, fields, j);
    NothingWritten(DATE_UNITS);
    var c := Components(Absent(4), Some(fields));
    assert ['P'] + [] + (['T'] + ("1" + [TIME_UNITS[j].designator])) == "PT1" + [TIME_UNITS[j].designator];
    MeaningOfText(c);
  }

  /** What one of each unit is worth in milliseconds; a year alone is worth nothing and so refused. */
  lemma UnitTexts()
    ensures Parsed("P1M") == Some(2592000000) && Parsed("P1W") == Some(604800000) && Parsed("P1D") == Some(86400000)
    ensures Parsed("PT1H") == Some(3600000) && Parsed("PT1M") == Some(60000) && Parsed("PT1S") == Some(1000)
    ensures Parsed("P1Y") == None
  {
    hide Meaning;
    DateUnit(0);
    DateUnit(1);
    DateUnit(2);
    DateUnit(3);
    TimeUnit(0);
    TimeUnit(1);
    TimeUnit(2);
    assert "P1" + ['Y'] == "P1Y" && "P1" + ['M'] == "P1M" && "P1" + ['W'] == "P1W" && "P1" + ['D'] == "P1D";
    assert "PT1" + ['H'] == "PT1H" && "PT1" + ['M'] == "PT1M" && "PT1" + ['S'] == "PT1S";
  }
}
