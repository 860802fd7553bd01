/** The duration parser and printer of the agent: cursors over a C string, 32-bit accumulators, a caller's buffer. */
module TimeUtils {
  import opened Common
  import opened Decimal
  import opened Duration
  import opened TextBuffer

  // ----- parsing -----

  /** The characters "%u%c" neither skips nor takes for a sign or an end. */
  predicate IsPlain(c: char) {
    c !in "\0 \t\n\r+-" && c != 11 as char && c != 12 as char
  }

  /**
   * The texts on which "%u%c" is a matter of digits alone: no NUL, no white space or sign in front of a numeral,
   * and every numeral fits in an unsigned int.
   */
  ghost predicate Readable(s: string) {
    && (forall i | 0 <= i < |s| :: IsPlain(s[i]))
    && (forall i, j | 0 <= i <= j <= |s| && AllDigits(s[i..j]) :: ValueOf(s[i..j]) <= U32_MAX)
  }

  /** What sscanf("%u%c") stores when it converts both items, and the position behind the designator. */
  datatype Scanned = Scanned(temp: u32, specifier: char)

  function ScanNumber(s: string, cursor: nat): Option<Scanned>
    requires cursor <= |s| && Readable(s)
  {
    var n := DigitRun(s[cursor..]);
    if 0 < n < |s| - cursor then
      assert s[cursor..][..n] == s[cursor..cursor + n];
      Some(Scanned(ValueOf(s[cursor..cursor + n]), s[cursor + n]))
    else None
  }

  /** The largest number whose product with the unit does not wrap; for years the constant of the header. */
  function MaxNumber(u: Unit): u32
    requires u in DATE_UNITS || u in TIME_UNITS
  {
    if u.limit.Some? then MAX_YEARS_IN_UINT32 else U32_MAX / u.weight
  }

  /** Utils_AddUnsignedIntsWithOverflowCheck. */
  function AddWithOverflowCheck(a: u32, b: u32): (r: Option<u32>)
    ensures r == if a + b <= U32_MAX then Some(a + b) else None
  {
    if a > U32_MAX - b then None else Some(a + b)
  }

  datatype Outcome =
    | Rejected
    | Finished(result: u32)
    | Continue(result: u32, cursor: nat, scanned: Scanned)

  function ResultOf(o: Outcome): Option<u32> {
    if o.Finished? then Some(o.result) else None
  }

  /** A section begins at the cursor and runs to the end of the text, or for dates to the first "T". */
  function SectionEnd(s: string, cursor: nat, stopsAtT: bool): nat
    requires cursor <= |s|
  {
    if stopsAtT then IndexOf(s, 'T', cursor) else |s|
  }

  /** Scanning the text at a cursor sees exactly what scanning the section would, if the section has a designator. */
  lemma SectionScan(s: string, cursor: nat, end: nat)
    requires cursor <= end <= |s| && Readable(s) && (end < |s| ==> s[end] == 'T')
    ensures DigitRun(s[cursor..end]) == DigitRun(s[cursor..])
    ensures Scans(s[cursor..end]) ==> ScanNumber(s, cursor).Some?
    ensures !Scans(s[cursor..end]) ==> ScanNumber(s, cursor).None? || ScanNumber(s, cursor).value.specifier == 'T'
  {
    hide ValueOf, Readable;
    var section := s[cursor..end];
    var n := DigitRun(section);
    BehindSection(s, cursor, end, n);
    DigitRunOf(section[..n], s[cursor + n..]);
  }

  /** What follows the first n characters of a section is the section's next one, or what stands behind it. */
  lemma BehindSection(s: string, cursor: nat, end: nat, n: nat)
    requires cursor <= end <= |s| && n <= end - cursor
    ensures s[cursor..end][..n] + s[cursor + n..] == s[cursor..]
    ensures n < end - cursor ==> s[cursor + n..] != [] && s[cursor + n..][0] == s[cursor + n] == s[cursor..end][n]
    ensures n == end - cursor && end < |s| ==> s[cursor + n..] != [] && s[cursor + n..][0] == s[end]
  {
  }

  /** What the rest of a section must still contribute. */
  ghost predicate StillToRead(units: seq<Unit>, s: string, end: nat, cursor: nat, scanned: Scanned)
  {
    cursor < end <= |s| && Readable(s) && ScanNumber(s, cursor) == Some(scanned) && (end < |s| ==> s[end] == 'T')
  }

  /** Whether an outcome agrees with the exact value of the section. */
  ghost predicate Agrees(o: Outcome, total: Option<nat>) {
    match o
    case Rejected => total.None? || total.value > U32_MAX
    case Finished(r) => total == Some(r)
    case Continue(_, _, _) => true
  }

  lemma SkipComponent(s: string, end: nat, units: seq<Unit>, cursor: nat, scanned: Scanned)
    requires units != [] && units[0].designator != 'T' && StillToRead(units, s, end, cursor, scanned)
    requires scanned.specifier != units[0].designator
    ensures Reading(units, s[cursor..end]) == Reading(units[1..], s[cursor..end])
  {
    SectionScan(s, cursor, end);
  }

  lemma ReadTaken(units: seq<Unit>, section: string)
    requires units != [] && Scans(section) && section[DigitRun(section)] == units[0].designator
    ensures var n := DigitRun(section);
            Reading(units, section)
            == if units[0].limit.Some? && ValueOf(section[..n]) > units[0].limit.value then None
               else if n + 1 == |section| then Some(Worth(units[0], section[..n]))
               else Plus(Worth(units[0], section[..n]), Reading(units[1..], section[n + 1..]))
  {
  }

  /** A matching designator: where the next component starts, and what the section is worth then. */
  lemma TakeComponent(s: string, end: nat, units: seq<Unit>, cursor: nat, scanned: Scanned) returns (next: nat)
    requires units != [] && units[0].designator != 'T' && StillToRead(units, s, end, cursor, scanned)
    requires scanned.specifier == units[0].designator
    ensures cursor < next <= end && next == IndexOf(s, units[0].designator, cursor) + 1
    ensures var value := scanned.temp * units[0].weight;
            Reading(units, s[cursor..end])
            == if units[0].limit.Some? && scanned.temp > units[0].limit.value then None
               else if next == end then Some(value)
               else Plus(value, Reading(units[1..], s[next..end]))
  {
    hide Readable, ValueOf, Reading, Plus;
    var section := s[cursor..end];
    SectionScan(s, cursor, end);
    ReadTaken(units, section);
    var n := DigitRun(section);
    next := cursor + n + 1;
    assert section[..n] == s[cursor..cursor + n] && section[n + 1..] == s[next..end];
    forall j | cursor <= j < cursor + n ensures IsDigit(s[j]) {
      assert s[j] == section[..n][j - cursor];
    }
    IndexOfFirst(s, units[0].designator, cursor, cursor + n);
  }

  /** The guards reject no representable component and let none wrap. */
  lemma GuardExact(u: Unit, temp: u32)
    requires u in DATE_UNITS || u in TIME_UNITS
    ensures temp > MaxNumber(u) <==> (u.limit.Some? && temp > u.limit.value) || temp * u.weight > U32_MAX
    ensures temp <= MaxNumber(u) ==> Wrap(temp * u.weight) == temp * u.weight
  {
    YearConstants();
  }

  lemma UnreadableSection(s: string, end: nat, units: seq<Unit>, cursor: nat)
    requires cursor <= end <= |s| && Readable(s) && (end < |s| ==> s[end] == 'T') && ScanNumber(s, cursor).None?
    ensures Reading(units, s[cursor..end]).None?
  {
    SectionScan(s, cursor, end);
  }

  lemma SectionEndStays(s: string, cursor: nat, next: nat, stopsAtT: bool)
    requires cursor <= next <= |s| && next <= SectionEnd(s, cursor, stopsAtT)
    ensures SectionEnd(s, next, stopsAtT) == SectionEnd(s, cursor, stopsAtT)
    ensures next == |s| || (stopsAtT && s[next] == 'T') <==> next == SectionEnd(s, cursor, stopsAtT)
  {
    if stopsAtT {
      IndexOfFirst(s, 'T', next, IndexOf(s, 'T', cursor));
    }
  }

  /** The block both parsers repeat for every designator, in order. */
  method ReadComponent(s: string, ghost end: nat, stopsAtT: bool, units: seq<Unit>, result: u32, cursor: nat,
                       scanned: Scanned)
    returns (o: Outcome)
    requires units != [] && (units[0] in DATE_UNITS || units[0] in TIME_UNITS) && units[0].designator != 'T'
    requires StillToRead(units, s, end, cursor, scanned) && end == SectionEnd(s, cursor, stopsAtT)
    ensures Agrees(o, Plus(result, Reading(units, s[cursor..end])))
    ensures o.Continue? ==>
              && StillToRead(units[1..], s, end, o.cursor, o.scanned) && end == SectionEnd(s, o.cursor, stopsAtT)
              && Plus(result, Reading(units, s[cursor..end])) == Plus(o.result, Reading(units[1..], s[o.cursor..end]))
  {
    hide Reading, SectionEnd, ScanNumber, IndexOf, Readable, MaxNumber;
    var u := units[0];
    if scanned.specifier != u.designator {
      SkipComponent(s, end, units, cursor, scanned);
      return Continue(result, cursor, scanned);
    }
    ghost var _ := TakeComponent(s, end, units, cursor, scanned);
    var next := IndexOf(s, u.designator, cursor) + 1;
    SectionEndStays(s, cursor, next, stopsAtT);
    GuardExact(u, scanned.temp);
    if scanned.temp > MaxNumber(u) {
      return Rejected;
    }
    var sum := AddWithOverflowCheck(result, Wrap(scanned.temp * u.weight));
    if sum.None? {
      return Rejected;
    }
    if next == |s| || (stopsAtT && s[next] == 'T') {
      return Finished(sum.value);
    }
    var again := ScanNumber(s, next);
    if again.None? {
      UnreadableSection(s, end, units[1..], next);
      return Rejected;
    }
    return Continue(sum.value, next, again.value);
  }

  /** The section from `start`, read exactly, when it fits in 32 bits. */
  ghost function SectionValue(units: seq<Unit>, s: string, start: nat, stopsAtT: bool): Option<nat>
    requires start <= |s|
  {
    var r := Reading(units, s[start..SectionEnd(s, start, stopsAtT)]);
    if r.Some? && r.value <= U32_MAX then r else None
  }

  /** The first scan of a section: what it finds, or why the section has no reading. */
  lemma FirstScan(s: string, start: nat, stopsAtT: bool, units: seq<Unit>)
    requires start <= |s| && Readable(s)
    ensures var end := SectionEnd(s, start, stopsAtT);
            && (ScanNumber(s, start).None? ==> Reading(units, s[start..end]).None?)
            && (ScanNumber(s, start).Some? ==> StillToRead(units, s, end, start, ScanNumber(s, start).value))
  {
    var end := SectionEnd(s, start, stopsAtT);
    SectionScan(s, start, end);
    if start == end < |s| {
      assert s[start..][0] == 'T';
    }
  }

  lemma NoUnitsLeft(units: seq<Unit>, s: string, end: nat, cursor: nat, scanned: Scanned)
    requires units == [] && StillToRead(units, s, end, cursor, scanned)
    ensures cursor <= end <= |s| && Reading(units, s[cursor..end]).None?
  {
  }

  /** The date section: years, months, weeks, days, each optional, in this order, up to the end or to a "T". */
  method ParseDateString(s: string, dateString: nat) returns (resultOut: Option<u32>)
    requires dateString <= |s| && Readable(s)
    ensures resultOut == SectionValue(DATE_UNITS, s, dateString, true)
  {
    hide Reading, SectionEnd, ScanNumber, Readable, StillToRead;
    ghost var end := SectionEnd(s, dateString, true);
    FirstScan(s, dateString, true, DATE_UNITS);
    var scanned := ScanNumber(s, dateString);
    if scanned.None? {
      return None;
    }
    var o := ReadComponent(s, end, true, DATE_UNITS, 0, dateString, scanned.value);
    if !o.Continue? {
      return ResultOf(o);
    }
    o := ReadComponent(s, end, true, DATE_UNITS[1..], o.result, o.cursor, o.scanned);
    if !o.Continue? {
      return ResultOf(o);
    }
    o := ReadComponent(s, end, true, DATE_UNITS[2..], o.result, o.cursor, o.scanned);
    if !o.Continue? {
      return ResultOf(o);
    }
    o := ReadComponent(s, end, true, DATE_UNITS[3..], o.result, o.cursor, o.scanned);
    if o.Continue? {
      NoUnitsLeft(DATE_UNITS[3..][1..], s, end, o.cursor, o.scanned);
    }
    return ResultOf(o);
  }

  /** The time section: hours, minutes, seconds, each optional, in this order, up to the end. */
  method ParseTimeString(s: string, timeString: nat) returns (resultOut: Option<u32>)
    requires timeString <= |s| && Readable(s)
    ensures resultOut == SectionValue(TIME_UNITS, s, timeString, false)
  {
    hide Reading, SectionEnd, ScanNumber, Readable, StillToRead;
    ghost var end := SectionEnd(s, timeString, false);
    FirstScan(s, timeString, false, TIME_UNITS);
    var scanned := ScanNumber(s, timeString);
    if scanned.None? {
      return None;
    }
    var o := ReadComponent(s, end, false, TIME_UNITS, 0, timeString, scanned.value);
    if !o.Continue? {
      return ResultOf(o);
    }
    o := ReadComponent(s, end, false, TIME_UNITS[1..], o.result, o.cursor, o.scanned);
    if !o.Continue? {
      return ResultOf(o);
    }
    o := ReadComponent(s, end, false, TIME_UNITS[2..], o.result, o.cursor, o.scanned);
    if o.Continue? {
      NoUnitsLeft(TIME_UNITS[2..][1..], s, end, o.cursor, o.scanned);
    }
    return ResultOf(o);
  }

  /** The parser accepts exactly the durations of the grammar whose exact value is positive and fits in 32 bits. */
  method ISO8601DurationStringToMilliseconds(duration: string) returns (milisecOut: Option<u32>)
    requires Readable(duration)
    ensures milisecOut == Parsed(duration)
  {
    hide Reading, Readable, IndexOf;
    if duration == [] || duration[0] != 'P' {
      return None;
    }
    var dateString := 1;
    var timeString := IndexOf(duration, 'T', 0);
    IndexOfFirst(duration, 'T', 1, timeString);
    var dateResult, timeResult: u32 := 0, 0;
    if timeString == |duration| || timeString + 1 != dateString + 1 {
      var date := ParseDateString(duration, dateString);
      if date.None? {
        return None;
      }
      dateResult := date.value;
    }
    if timeString < |duration| {
      var time := ParseTimeString(duration, timeString + 1);
      assert duration[timeString + 1..|duration|] == duration[timeString + 1..];
      if time.None? {
        return None;
      }
      timeResult := time.value;
    }
    var result := AddWithOverflowCheck(dateResult, timeResult);
    if result == None || result.value == 0 {
      return None;
    }
    return result;
  }

  // ----- printing -----

  function Part(n: nat, designator: char): string {
    if n > 0 then Numeral(n) + [designator] else []
  }

  /** What is printed for a number of milliseconds: whole seconds, in the largest units that fit. */
  function Printed(ms: u32): string {
    var sub := ms % MILLISECONDS_IN_A_MONTH;
    var subsub := sub % MILLISECONDS_IN_A_WEEK;
    "P" + Part(ms / MILLISECONDS_IN_A_MONTH, 'M') + Part(sub / MILLISECONDS_IN_A_WEEK, 'W')
    + Part(subsub / MILLISECONDS_IN_A_DAY, 'D') + PrintedTime(subsub % MILLISECONDS_IN_A_DAY)
  }

  function PrintedTime(ms: u32): string {
    ClockText(ms / MILLISECONDS_IN_AN_HOUR, ms % MILLISECONDS_IN_AN_HOUR / MILLISECONDS_IN_A_MINUTE,
              ms % MILLISECONDS_IN_A_MINUTE / MILLISECONDS_IN_A_SECOND)
  }

  function ClockText(hours: nat, minutes: nat, seconds: nat): string {
    if hours == 0 && minutes == 0 && seconds == 0 then []
    else "T" + Part(hours, 'H') + Part(minutes, 'M') + Part(seconds, 'S')
  }

  function FieldOf(n: nat): Option<string> {
    if n > 0 then Some(Numeral(n)) else None
  }

  lemma FieldOfNumber(u: Unit, n: nat)
    ensures FieldText(u, FieldOf(n)) == Part(n, u.designator)
    ensures FieldOf(n).Some? ==> ValueOf(FieldOf(n).value) == n
  {
    if n > 0 {
      ValueOfNumeral(n);
    }
  }

  /** The components a number of milliseconds is printed with. */
  ghost function PrintedComponents(ms: u32): Components {
    var sub := ms % MILLISECONDS_IN_A_MONTH;
    var subsub := sub % MILLISECONDS_IN_A_WEEK;
    var time := subsub % MILLISECONDS_IN_A_DAY;
    Components(
      [None, FieldOf(ms / MILLISECONDS_IN_A_MONTH), FieldOf(sub / MILLISECONDS_IN_A_WEEK),
       FieldOf(subsub / MILLISECONDS_IN_A_DAY)],
      if time < MILLISECONDS_IN_A_SECOND then None
      else Some([FieldOf(time / MILLISECONDS_IN_AN_HOUR),
                 FieldOf(time % MILLISECONDS_IN_AN_HOUR / MILLISECONDS_IN_A_MINUTE),
                 FieldOf(time % MILLISECONDS_IN_A_MINUTE / MILLISECONDS_IN_A_SECOND)]))
  }

  ghost predicate Holds(units: seq<Unit>, numbers: seq<nat>, fields: Fields) {
    && |units| == |numbers| == |fields|
    && forall i | 0 <= i < |units| :: fields[i] == FieldOf(numbers[i]) && (units[i].limit.Some? ==> numbers[i] == 0)
  }

  lemma NumeralsWellFormed(units: seq<Unit>, numbers: seq<nat>, fields: Fields)
    requires Holds(units, numbers, fields)
    ensures WellFormed(units, fields)
    ensures forall i | 0 <= i < |units| && numbers[i] > 0 :: SomePresent(fields)
  {
    forall i | 0 <= i < |units| ensures fields[i].Some? <==> numbers[i] > 0 {
    }
  }

  /** A section of printed numbers: its text and its exact sum. */
  lemma {:induction false} SectionOf(units: seq<Unit>, numbers: seq<nat>, fields: Fields)
    requires Holds(units, numbers, fields) && WellFormed(units, fields)
    ensures Written(units, fields) == Parts(units, numbers)
    ensures Weighted(units, fields) == WeightedSum(units, numbers)
  {
    if units != [] {
      FieldOfNumber(units[0], numbers[0]);
      SectionOf(units[1..], numbers[1..], fields[1..]);
    }
  }

  function Parts(units: seq<Unit>, numbers: seq<nat>): string
    requires |units| == |numbers|
  {
    if units == [] then [] else Part(numbers[0], units[0].designator) + Parts(units[1..], numbers[1..])
  }

  function WeightedSum(units: seq<Unit>, numbers: seq<nat>): nat
    requires |units| == |numbers|
  {
    if units == [] then 0 else numbers[0] * units[0].weight + WeightedSum(units[1..], numbers[1..])
  }

  lemma ThreeParts(units: seq<Unit>, numbers: seq<nat>)
    requires |units| == |numbers| == 3
    ensures Parts(units, numbers)
            == Part(numbers[0], units[0].designator) + Part(numbers[1], units[1].designator)
               + Part(numbers[2], units[2].designator)
    ensures WeightedSum(units, numbers)
            == numbers[0] * units[0].weight + numbers[1] * units[1].weight + numbers[2] * units[2].weight
  {
    hide Part;
    var u, n := units[1..][1..], numbers[1..][1..];
    assert Parts(u, n) == Part(n[0], u[0].designator) + Parts(u[1..], n[1..]);
    assert WeightedSum(u, n) == n[0] * u[0].weight + WeightedSum(u[1..], n[1..]);
  }

  lemma DateParts(months: nat, weeks: nat, days: nat)
    ensures Parts(DATE_UNITS, [0, months, weeks, days]) == Part(months, 'M') + Part(weeks, 'W') + Part(days, 'D')
    ensures WeightedSum(DATE_UNITS, [0, months, weeks, days])
            == months * MILLISECONDS_IN_A_MONTH + weeks * MILLISECONDS_IN_A_WEEK + days * MILLISECONDS_IN_A_DAY
  {
    var units, numbers := DATE_UNITS[1..], [months, weeks, days];
    assert [0, months, weeks, days][1..] == numbers;
    ThreeParts(units, numbers);
    assert Part(0, 'Y') == [];
  }

  /** Division with remainder by a whole number of seconds keeps the remainder's fraction of a second. */
  lemma DivideBy(n: nat, unit: nat)
    requires 0 < unit && unit % 1000 == 0
    ensures n / unit * unit == n - n % unit && n % unit < unit && n % unit % 1000 == n % 1000
    ensures n / unit > 0 <==> unit <= n
  {
    Fraction(n / unit, unit / 1000, n % unit);
    QuotientPositive(n, unit);
    assert unit == 1000 * (unit / 1000);
  }

  lemma QuotientPositive(n: nat, unit: nat)
    requires 0 < unit
    ensures n / unit > 0 <==> unit <= n
  {
  }

  lemma Fraction(q: nat, thousands: nat, rest: nat)
    ensures (q * (1000 * thousands) + rest) % 1000 == rest % 1000
  {
    assert q * (1000 * thousands) == 1000 * (q * thousands);
    Remainder(rest, q * thousands);
  }

  lemma Remainder(rest: nat, thousands: nat)
    ensures (1000 * thousands + rest) % 1000 == rest % 1000
  {
  }

  /** Hours, minutes and seconds of a number of milliseconds, and what is left. */
  lemma ClockRadix(time: nat)
    ensures time % MILLISECONDS_IN_AN_HOUR % MILLISECONDS_IN_A_MINUTE == time % MILLISECONDS_IN_A_MINUTE
    ensures time / MILLISECONDS_IN_AN_HOUR * MILLISECONDS_IN_AN_HOUR
            + time % MILLISECONDS_IN_AN_HOUR / MILLISECONDS_IN_A_MINUTE * MILLISECONDS_IN_A_MINUTE
            + time % MILLISECONDS_IN_A_MINUTE / MILLISECONDS_IN_A_SECOND * MILLISECONDS_IN_A_SECOND
            == time - time % 1000
  {
    Minutes(time);
    DivideBy(time, MILLISECONDS_IN_AN_HOUR);
    DivideBy(time % MILLISECONDS_IN_AN_HOUR, MILLISECONDS_IN_A_MINUTE);
    DivideBy(time % MILLISECONDS_IN_A_MINUTE, MILLISECONDS_IN_A_SECOND);
    DivideBy(time, MILLISECONDS_IN_A_MINUTE);
  }

  lemma Minutes(time: nat)
    ensures time % 3600000 % 60000 == time % 60000
  {
    var hours, rest := time / 3600000, time % 3600000;
    assert time == 60000 * (60 * hours) + rest;
    var minutes, ms := rest / 60000, rest % 60000;
    assert time == 60000 * (60 * hours + minutes) + ms;
  }

  /** What is left of a day is below a second exactly if there are no hours, minutes and seconds. */
  lemma ClockEmpty(time: nat)
    ensures time < MILLISECONDS_IN_A_SECOND <==>
              time / MILLISECONDS_IN_AN_HOUR == 0 && time % MILLISECONDS_IN_AN_HOUR / MILLISECONDS_IN_A_MINUTE == 0
              && time % MILLISECONDS_IN_A_MINUTE / MILLISECONDS_IN_A_SECOND == 0
  {
    ClockRadix(time);
    DivideBy(time, MILLISECONDS_IN_A_SECOND);
    DivideBy(time, MILLISECONDS_IN_AN_HOUR);
    DivideBy(time % MILLISECONDS_IN_AN_HOUR, MILLISECONDS_IN_A_MINUTE);
    DivideBy(time % MILLISECONDS_IN_A_MINUTE, MILLISECONDS_IN_A_SECOND);
    SmallQuotients(time);
  }

  lemma SmallQuotients(time: nat)
    ensures time < 1000 ==> time / 3600000 == 0 && time % 3600000 / 60000 == 0 && time % 60000 / 1000 == 0
  {
  }

  /** The units a number of milliseconds is split into add up to its whole seconds. */
  lemma MixedRadix(ms: u32)
    ensures var sub := ms % MILLISECONDS_IN_A_MONTH;
            var subsub := sub % MILLISECONDS_IN_A_WEEK;
            var time := subsub % MILLISECONDS_IN_A_DAY;
            && ms / MILLISECONDS_IN_A_MONTH * MILLISECONDS_IN_A_MONTH
               + sub / MILLISECONDS_IN_A_WEEK * MILLISECONDS_IN_A_WEEK
               + subsub / MILLISECONDS_IN_A_DAY * MILLISECONDS_IN_A_DAY == ms - time
            && time / MILLISECONDS_IN_AN_HOUR * MILLISECONDS_IN_AN_HOUR
               + time % MILLISECONDS_IN_AN_HOUR / MILLISECONDS_IN_A_MINUTE * MILLISECONDS_IN_A_MINUTE
               + time % MILLISECONDS_IN_A_MINUTE / MILLISECONDS_IN_A_SECOND * MILLISECONDS_IN_A_SECOND
               == time - ms % 1000
            && (time < MILLISECONDS_IN_A_SECOND <==>
                  time / MILLISECONDS_IN_AN_HOUR == 0 && time % MILLISECONDS_IN_AN_HOUR / MILLISECONDS_IN_A_MINUTE == 0
                  && time % MILLISECONDS_IN_A_MINUTE / MILLISECONDS_IN_A_SECOND == 0)
            && (time < MILLISECONDS_IN_A_SECOND <= ms ==>
                  || ms / MILLISECONDS_IN_A_MONTH > 0 || sub / MILLISECONDS_IN_A_WEEK > 0
                  || subsub / MILLISECONDS_IN_A_DAY > 0)
  {
    var sub := ms % MILLISECONDS_IN_A_MONTH;
    var subsub := sub % MILLISECONDS_IN_A_WEEK;
    var time := subsub % MILLISECONDS_IN_A_DAY;
    DivideBy(ms, MILLISECONDS_IN_A_MONTH);
    DivideBy(sub, MILLISECONDS_IN_A_WEEK);
    DivideBy(subsub, MILLISECONDS_IN_A_DAY);
    ClockRadix(time);
    ClockEmpty(time);
  }

  lemma PrintedDate(months: nat, weeks: nat, days: nat)
    ensures var fields := [None, FieldOf(months), FieldOf(weeks), FieldOf(days)];
            && WellFormed(DATE_UNITS, fields) && (months > 0 || weeks > 0 || days > 0 ==> SomePresent(fields))
            && Written(DATE_UNITS, fields) == Part(months, 'M') + Part(weeks, 'W') + Part(days, 'D')
            && Weighted(DATE_UNITS, fields)
               == months * MILLISECONDS_IN_A_MONTH + weeks * MILLISECONDS_IN_A_WEEK + days * MILLISECONDS_IN_A_DAY
  {
    hide Part, Parts, WeightedSum, Written, Weighted, WellFormed, SomePresent;
    var fields, numbers := [None, FieldOf(months), FieldOf(weeks), FieldOf(days)], [0, months, weeks, days];
    assert Holds(DATE_UNITS, numbers, fields);
    DateParts(months, weeks, days);
    NumeralsWellFormed(DATE_UNITS, numbers, fields);
    SectionOf(DATE_UNITS, numbers, fields);
    assert numbers[1] == months && numbers[2] == weeks && numbers[3] == days;
  }

  lemma PrintedClock(hours: nat, minutes: nat, seconds: nat)
    ensures var fields := [FieldOf(hours), FieldOf(minutes), FieldOf(seconds)];
            && WellFormed(TIME_UNITS, fields) && (hours > 0 || minutes > 0 || seconds > 0 ==> SomePresent(fields))
            && Written(TIME_UNITS, fields) == Part(hours, 'H') + Part(minutes, 'M') + Part(seconds, 'S')
            && Weighted(TIME_UNITS, fields)
               == hours * MILLISECONDS_IN_AN_HOUR + minutes * MILLISECONDS_IN_A_MINUTE
                  + seconds * MILLISECONDS_IN_A_SECOND
  {
    hide Part, Parts, WeightedSum, Written, Weighted, WellFormed, SomePresent;
    var fields, numbers := [FieldOf(hours), FieldOf(minutes), FieldOf(seconds)], [hours, minutes, seconds];
    assert Holds(TIME_UNITS, numbers, fields);
    ThreeParts(TIME_UNITS, numbers);
    NumeralsWellFormed(TIME_UNITS, numbers, fields);
    SectionOf(TIME_UNITS, numbers, fields);
    assert numbers[0] == hours && numbers[1] == minutes && numbers[2] == seconds;
  }

  /** What is printed is a duration worth the whole seconds of what was given. */
  lemma PrintedMeaning(ms: u32)
    requires MILLISECONDS_IN_A_SECOND <= ms
    ensures var c := PrintedComponents(ms); c.Valid() && c.Text() == Printed(ms) && c.Sum() == ms - ms % 1000
  {
    hide Part, Written, Weighted, WellFormed, SomePresent, FieldOf, DATE_UNITS, TIME_UNITS;
    var sub := ms % MILLISECONDS_IN_A_MONTH;
    var subsub := sub % MILLISECONDS_IN_A_WEEK;
    var time := subsub % MILLISECONDS_IN_A_DAY;
    MixedRadix(ms);
    PrintedDate(ms / MILLISECONDS_IN_A_MONTH, sub / MILLISECONDS_IN_A_WEEK, subsub / MILLISECONDS_IN_A_DAY);
    PrintedClock(time / MILLISECONDS_IN_AN_HOUR, time % MILLISECONDS_IN_AN_HOUR / MILLISECONDS_IN_A_MINUTE,
                 time % MILLISECONDS_IN_A_MINUTE / MILLISECONDS_IN_A_SECOND);
  }

  // ----- what is printed can be scanned -----

  /** Plain characters, no three digits in a row, and no digit at the end. */
  ghost predicate Tame(s: string) {
    && (forall i | 0 <= i < |s| :: IsPlain(s[i]))
    && (forall i | 0 <= i < |s| - 2 :: !(IsDigit(s[i]) && IsDigit(s[i + 1]) && IsDigit(s[i + 2])))
    && (s != [] ==> !IsDigit(s[|s| - 1]))
  }

  lemma TameConcat(a: string, b: string)
    requires Tame(a) && Tame(b)
    ensures Tame(a + b)
  {
    var s := a + b;
    forall i | 0 <= i < |s| - 2 ensures !(IsDigit(s[i]) && IsDigit(s[i + 1]) && IsDigit(s[i + 2])) {
      if i >= |a| {
        assert s[i] == b[i - |a|] && s[i + 1] == b[i - |a| + 1] && s[i + 2] == b[i - |a| + 2];
      } else if i + 2 >= |a| {
        assert s[|a| - 1] == a[|a| - 1];
      }
    }
  }

  lemma TamePart(n: nat, designator: char)
    requires n < 100 && IsPlain(designator) && !IsDigit(designator)
    ensures Tame(Part(n, designator))
  {
    assert Power10(1) == 10 && Power10(2) == 100;
    NumeralLength(n, 2);
    hide Tame, IsPlain, Numeral, AllDigits;
    if n > 0 {
      TameNumber(Numeral(n), designator);
    } else {
      TameNothing();
    }
  }

  lemma TameNumber(digits: string, designator: char)
    requires AllDigits(digits) && |digits| <= 2 && IsPlain(designator) && !IsDigit(designator)
    ensures Tame(digits + [designator])
  {
  }

  lemma TameNothing()
    ensures Tame([])
  {
  }

  lemma ShortValue(s: string)
    requires AllDigits(s) && |s| <= 2
    ensures ValueOf(s) < 100
  {
    if s != [] {
      var front := s[..|s| - 1];
      assert front != [] ==> front[..0] == [];
      assert front != [] ==> ValueOf(front) == DigitValue(front[0]);
    }
  }

  lemma TameReadable(s: string)
    requires Tame(s)
    ensures Readable(s)
  {
    forall i, j | 0 <= i <= j <= |s| && AllDigits(s[i..j]) ensures ValueOf(s[i..j]) <= U32_MAX {
      assert i < |s| - 2 ==> !(IsDigit(s[i]) && IsDigit(s[i + 1]) && IsDigit(s[i + 2]));
      assert forall k | i <= k < j :: IsDigit(s[i..j][k - i]) && s[i..j][k - i] == s[k];
      assert j - i <= 2;
      ShortValue(s[i..j]);
    }
  }

  lemma TameClock(hours: nat, minutes: nat, seconds: nat)
    requires hours < 24 && minutes < 60 && seconds < 60
    ensures Tame(ClockText(hours, minutes, seconds))
  {
    hide Part;
    TamePart(hours, 'H');
    TamePart(minutes, 'M');
    TamePart(seconds, 'S');
    TameConcat("T", Part(hours, 'H'));
    TameConcat("T" + Part(hours, 'H'), Part(minutes, 'M'));
    TameConcat("T" + Part(hours, 'H') + Part(minutes, 'M'), Part(seconds, 'S'));
  }

  /** Whatever is printed is within what the parser is about. */
  lemma PrintedReadable(ms: u32)
    ensures Readable(Printed(ms))
  {
    hide Part, ClockText, Readable, Tame;
    var sub := ms % MILLISECONDS_IN_A_MONTH;
    var subsub := sub % MILLISECONDS_IN_A_WEEK;
    var time := subsub % MILLISECONDS_IN_A_DAY;
    var months, weeks := Part(ms / MILLISECONDS_IN_A_MONTH, 'M'), Part(sub / MILLISECONDS_IN_A_WEEK, 'W');
    var days := Part(subsub / MILLISECONDS_IN_A_DAY, 'D');
    TamePart(ms / MILLISECONDS_IN_A_MONTH, 'M');
    TamePart(sub / MILLISECONDS_IN_A_WEEK, 'W');
    TamePart(subsub / MILLISECONDS_IN_A_DAY, 'D');
    TameClock(time / MILLISECONDS_IN_AN_HOUR, time % MILLISECONDS_IN_AN_HOUR / MILLISECONDS_IN_A_MINUTE,
              time % MILLISECONDS_IN_A_MINUTE / MILLISECONDS_IN_A_SECOND);
    TameP();
    TameConcat("P", months);
    TameConcat("P" + months, weeks);
    TameConcat("P" + months + weeks, days);
    TameConcat("P" + months + weeks + days, PrintedTime(time));
    TameReadable(Printed(ms));
  }

  lemma TameP()
    ensures Tame("P")
  {
  }

  /**
   * Round trip: whatever the agent prints for at least one second its parser may be given, and it reads the whole
   * seconds of the original; so printing is exact, and injective, on multiples of a second.
   */
  lemma RoundTrip(ms: u32)
    requires MILLISECONDS_IN_A_SECOND <= ms
    ensures Readable(Printed(ms)) && Parsed(Printed(ms)) == Some(ms - ms % 1000)
  {
    hide Printed, PrintedComponents, Meaning, Components.Valid, Components.Text, Components.Sum, Readable;
    PrintedReadable(ms);
    PrintedMeaning(ms);
    MeaningOfText(PrintedComponents(ms));
  }

  // ----- printing into the caller's buffer -----

  const DURATION_MAX_LENGTH: u32 := 19

  lemma PartLength(n: nat, designator: char, k: nat)
    requires 0 < k && n < Power10(k)
    ensures |Part(n, designator)| <= k + 1
  {
    NumeralLength(n, k);
  }

  /**
   * The block the printer repeats for every unit: nothing for zero, else the number and its designator.
   * Its callers leave room for every part, so the failure it reports does not arise there.
   */
  method PutPart(buffer: array<char>, cursor: nat, size: u32, n: nat, designator: char)
    returns (ok: bool, newCursor: nat, newSize: u32)
    requires cursor + |Part(n, designator)| < buffer.Length && buffer[cursor] == '\0' && 0 < size
    modifies buffer
    ensures ok <==> |Part(n, designator)| < size
    ensures ok ==> newCursor == cursor + |Part(n, designator)| && newSize == size - |Part(n, designator)|
    ensures ok ==> buffer[..newCursor] == old(buffer[..cursor]) + Part(n, designator) && buffer[newCursor] == '\0'
    ensures forall i | cursor + |Part(n, designator)| < i < buffer.Length :: buffer[i] == old(buffer[i])
  {
    ok, newCursor, newSize := true, cursor, size;
    if n > 0 {
      ok, newCursor, newSize := ConcatenateToString(buffer, cursor, size, Part(n, designator));
    }
    if ok {
      assert buffer[..newCursor] == buffer[..cursor] + buffer[cursor..newCursor];
    }
  }

  lemma ClockLength(hours: nat, minutes: nat, seconds: nat)
    requires hours < 24 && minutes < 60 && seconds < 60
    ensures |Part(hours, 'H')| <= 3 && |Part(minutes, 'M')| <= 3 && |Part(seconds, 'S')| <= 3
    ensures |ClockText(hours, minutes, seconds)| <= 10
  {
    PartLength(hours, 'H', 2);
    PartLength(minutes, 'M', 2);
    PartLength(seconds, 'S', 2);
  }

  lemma ClockPieces(before: string, hours: nat, minutes: nat, seconds: nat)
    ensures if hours > 0 || minutes > 0 || seconds > 0 then
              && before + ClockText(hours, minutes, seconds)
                 == before + "T" + Part(hours, 'H') + Part(minutes, 'M') + Part(seconds, 'S')
              && |ClockText(hours, minutes, seconds)|
                 == 1 + |Part(hours, 'H')| + |Part(minutes, 'M')| + |Part(seconds, 'S')|
            else ClockText(hours, minutes, seconds) == [] && before + [] == before
  {
    hide Part;
  }

  /** Three parts in a row. */
  method PutParts(buffer: array<char>, cursor: nat, size: u32, hours: nat, minutes: nat, seconds: nat)
    returns (newCursor: nat)
    requires cursor + |Part(hours, 'H')| + |Part(minutes, 'M')| + |Part(seconds, 'S')| < buffer.Length
    requires |Part(hours, 'H')| + |Part(minutes, 'M')| + |Part(seconds, 'S')| < size && buffer[cursor] == '\0'
    modifies buffer
    ensures newCursor == cursor + |Part(hours, 'H')| + |Part(minutes, 'M')| + |Part(seconds, 'S')|
    ensures buffer[..newCursor]
            == old(buffer[..cursor]) + Part(hours, 'H') + Part(minutes, 'M') + Part(seconds, 'S')
    ensures buffer[newCursor] == '\0' && forall i | newCursor < i < buffer.Length :: buffer[i] == old(buffer[i])
  {
    hide Part;
    var _, c1, s1 := PutPart(buffer, cursor, size, hours, 'H');
    var _, c2, s2 := PutPart(buffer, c1, s1, minutes, 'M');
    var _, c3, _ := PutPart(buffer, c2, s2, seconds, 'S');
    newCursor := c3;
  }

  /** The time of day, if any; its "T" is written without being charged to the remaining size. */
  method PrintClock(buffer: array<char>, cursor: nat, size: u32, hours: nat, minutes: nat, seconds: nat)
    returns (newCursor: nat)
    requires hours < 24 && minutes < 60 && seconds < 60
    requires 10 <= size && cursor + 10 < buffer.Length && buffer[cursor] == '\0'
    modifies buffer
    ensures newCursor == cursor + |ClockText(hours, minutes, seconds)| < buffer.Length
    ensures buffer[..newCursor] == old(buffer[..cursor]) + ClockText(hours, minutes, seconds)
    ensures buffer[newCursor] == '\0' && forall i | newCursor < i < buffer.Length :: buffer[i] == old(buffer[i])
  {
    hide Part, ClockText;
    ClockLength(hours, minutes, seconds);
    ghost var before := buffer[..cursor];
    ClockPieces(before, hours, minutes, seconds);
    newCursor := cursor;
    if hours > 0 || minutes > 0 || seconds > 0 {
      buffer[newCursor], buffer[newCursor + 1] := 'T', '\0';
      newCursor := newCursor + 1;
      assert buffer[..newCursor] == before + "T";
      newCursor := PutParts(buffer, newCursor, size, hours, minutes, seconds);
    }
  }

  /**
   * The printer succeeds exactly from one second and 19 bytes on, writes the printed duration and a NUL,
   * and touches nothing behind it, although the "T" is not charged to `len`.
   */
  method MillisecondsToISO8601DurationString(milisec: u32, duration: array<char>, len: u32) returns (success: bool)
    requires len <= duration.Length
    modifies duration
    ensures success <==> MILLISECONDS_IN_A_SECOND <= milisec && DURATION_MAX_LENGTH <= len
    ensures success ==>
              && |Printed(milisec)| <= 17
              && duration[..|Printed(milisec)| + 1] == Printed(milisec) + ['\0']
              && forall i | |Printed(milisec)| < i < duration.Length :: duration[i] == old(duration[i])
    ensures !success ==> duration[..] == old(duration[..])
  {
    if milisec < MILLISECONDS_IN_A_SECOND || len < DURATION_MAX_LENGTH {
      return false;
    }
    hide Part, ClockText;
    var months := milisec / MILLISECONDS_IN_A_MONTH;
    var rest := milisec % MILLISECONDS_IN_A_MONTH;
    var weeks := rest / MILLISECONDS_IN_A_WEEK;
    rest := rest % MILLISECONDS_IN_A_WEEK;
    var days := rest / MILLISECONDS_IN_A_DAY;
    rest := rest % MILLISECONDS_IN_A_DAY;
    PartLength(months, 'M', 1);
    PartLength(weeks, 'W', 1);
    PartLength(days, 'D', 1);
    var hours := rest / MILLISECONDS_IN_AN_HOUR;
    var minutes := rest % MILLISECONDS_IN_AN_HOUR / MILLISECONDS_IN_A_MINUTE;
    var seconds := rest % MILLISECONDS_IN_A_MINUTE / MILLISECONDS_IN_A_SECOND;
    ClockLength(hours, minutes, seconds);
    var _, c0, s0 := ConcatenateToString(duration, 0, len, "P");
    var _, c1, s1 := PutPart(duration, c0, s0, months, 'M');
    var _, c2, s2 := PutPart(duration, c1, s1, weeks, 'W');
    var _, c3, s3 := PutPart(duration, c2, s2, days, 'D');
    var cursor := PrintClock(duration, c3, s3, hours, minutes, seconds);
    assert duration[..cursor] == Printed(milisec);
    success := true;
  }

  /** The text in a buffer: everything before the first NUL. */
  function CString(chars: seq<char>): string {
    chars[..IndexOf(chars, '\0', 0)]
  }

  lemma PrintedHasNoNul(ms: u32)
    requires MILLISECONDS_IN_A_SECOND <= ms
    ensures '\0' !in Printed(ms)
  {
    hide Printed, Written, WellFormed;
    PrintedMeaning(ms);
    var c := PrintedComponents(ms);
    KnownUnits();
    WrittenAvoids(DATE_UNITS, c.date, '\0');
    if c.time.Some? {
      WrittenAvoids(TIME_UNITS, c.time.value, '\0');
    }
  }

  /** A buffer filled by the printer holds exactly the printed duration as a C string. */
  lemma PrintedCString(chars: seq<char>, ms: u32)
    requires MILLISECONDS_IN_A_SECOND <= ms && |Printed(ms)| < |chars|
    requires chars[..|Printed(ms)| + 1] == Printed(ms) + ['\0']
    ensures CString(chars) == Printed(ms)
  {
    hide Printed, IndexOf;
    PrintedHasNoNul(ms);
    var n := |Printed(ms)|;
    assert chars[n] == chars[..n + 1][n] == '\0';
    assert forall j | 0 <= j < n :: chars[j] == chars[..n + 1][j] == Printed(ms)[j];
    IndexOfFirst(chars, '\0', 0, n);
    assert chars[..n] == chars[..n + 1][..n];
  }
}
