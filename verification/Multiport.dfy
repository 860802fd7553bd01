/** Port lists of the multiport match as text: ports and ranges between commas, negation as "!(" ")" around them. */
module Multiport {
  import opened Common
  import opened Decimal
  import opened IptablesDef
  import opened TextBuffer
  import opened TextSplit

  type u16 = x: int | 0 <= x <= 0xFFFF

  datatype PortRange = Single(port: u16) | Range(low: u16, high: u16)

  // ----- what the kernel's arrays mean -----

  /**
   * The kernel's arrays have a fixed size, `count` of their entries are in use. From entry j on, every range start that
   * is visited has a successor in the arrays, in use or not.
   */
  predicate Paired(pflags: seq<bool>, count: nat, j: nat)
    requires count <= |pflags|
    decreases count - j
  {
    if j >= count then true
    else if pflags[j] then j + 1 < |pflags| && Paired(pflags, count, j + 2)
    else Paired(pflags, count, j + 1)
  }

  /** That is so when some entry is not in use, or when the last one starts no range. */
  lemma {:induction false} RoomToPair(pflags: seq<bool>, count: nat, j: nat)
    requires count <= |pflags| && (count < |pflags| || (count > 0 ==> !pflags[count - 1]))
    ensures Paired(pflags, count, j)
    decreases count - j
  {
    if j < count {
      RoomToPair(pflags, count, if pflags[j] then j + 2 else j + 1);
    }
  }

  /** The ports and ranges from entry j on; a range takes two entries. */
  function RangesFrom(ports: seq<u16>, pflags: seq<bool>, count: nat, j: nat): seq<PortRange>
    requires count <= |ports| == |pflags| && Paired(pflags, count, j)
    decreases count - j
  {
    if j >= count then []
    else if pflags[j] then [Range(ports[j], ports[j + 1])] + RangesFrom(ports, pflags, count, j + 2)
    else [Single(ports[j])] + RangesFrom(ports, pflags, count, j + 1)
  }

  /** If the last entry in use starts no range, the entries behind it do not matter. */
  lemma {:induction false} LastStartsNoRange(ports: seq<u16>, pflags: seq<bool>, count: nat, j: nat)
    requires count <= |ports| == |pflags| && (count > 0 ==> !pflags[count - 1])
    ensures Paired(pflags, count, j) && Paired(pflags[..count], count, j)
    ensures RangesFrom(ports, pflags, count, j) == RangesFrom(ports[..count], pflags[..count], count, j)
    decreases count - j
  {
    if j < count {
      LastStartsNoRange(ports, pflags, count, if pflags[j] then j + 2 else j + 1);
    }
  }

  /** The entries that a list of ranges takes, one after the other. */
  function Entries(ranges: seq<PortRange>): seq<u16> {
    if ranges == [] then []
    else (match ranges[0] case Single(p) => [p] case Range(low, high) => [low, high]) + Entries(ranges[1..])
  }

  /**
   * Nothing is lost, added or reordered: the ranges take the entries from j on one by one, up to the end of those in
   * use or, if the last range needs it, one beyond; and an entry starts a range exactly where its flag says so.
   */
  lemma {:induction false} RangesTakeAll(ports: seq<u16>, pflags: seq<bool>, count: nat, j: nat)
    requires count <= |ports| == |pflags| && Paired(pflags, count, j) && j <= count
    ensures var ranges := RangesFrom(ports, pflags, count, j);
            var end := j + |Entries(ranges)|;
            && count <= end <= |ports| && end <= count + 1 && Entries(ranges) == ports[j..end]
            && (j < count ==> ranges != [] && (ranges[0].Range? <==> pflags[j]))
    decreases count - j
  {
    if j < count {
      PairedStep(ports, pflags, count, j);
      var next := if pflags[j] then j + 2 else j + 1;
      var rest := RangesFrom(ports, pflags, count, next);
      if next <= count {
        RangesTakeAll(ports, pflags, count, next);
      } else {
        RangesEnd(ports, pflags, count, next);
      }
      hide RangesFrom, Paired;
      EntriesMore(if pflags[j] then Range(ports[j], ports[j + 1]) else Single(ports[j]), rest);
      SliceJoins(ports, j, next, next + |Entries(rest)|);
    } else {
      RangesEnd(ports, pflags, count, j);
    }
  }

  lemma EntriesMore(r: PortRange, rest: seq<PortRange>)
    ensures Entries([r] + rest) == (match r case Single(p) => [p] case Range(low, high) => [low, high]) + Entries(rest)
  {
    assert ([r] + rest)[1..] == rest;
  }

  lemma SliceJoins(ports: seq<u16>, j: nat, next: nat, end: nat)
    requires j <= next <= end <= |ports|
    ensures ports[j..next] + ports[next..end] == ports[j..end]
    ensures next == j + 1 ==> ports[j..next] == [ports[j]]
    ensures next == j + 2 ==> ports[j..next] == [ports[j], ports[j + 1]]
  {
  }

  // ----- the text and its reading -----

  function RangeText(r: PortRange): string {
    match r
    case Single(p) => Numeral(p)
    case Range(low, high) => Numeral(low) + "-" + Numeral(high)
  }

  function Texts(ranges: seq<PortRange>): (texts: seq<string>)
    ensures |texts| == |ranges| && forall i | 0 <= i < |texts| :: texts[i] == RangeText(ranges[i])
  {
    seq(|ranges|, i requires 0 <= i < |ranges| => RangeText(ranges[i]))
  }

  function PortsText(ranges: seq<PortRange>, invert: bool): string {
    (if invert then "!(" else "") + Join(Texts(ranges), ',') + if invert then ")" else ""
  }

  predicate IsPortText(s: string) {
    s != [] && AllDigits(s) && ValueOf(s) <= 0xFFFF
  }

  function ReadRange(s: string): Option<PortRange> {
    var parts := SplitOn(s, '-');
    if |parts| == 1 && IsPortText(parts[0]) then Some(Single(ValueOf(parts[0])))
    else if |parts| == 2 && IsPortText(parts[0]) && IsPortText(parts[1])
    then Some(Range(ValueOf(parts[0]), ValueOf(parts[1])))
    else None
  }

  function ReadRanges(texts: seq<string>): Option<seq<PortRange>> {
    if texts == [] then Some([])
    else
      var first := ReadRange(texts[0]);
      var rest := ReadRanges(texts[1..]);
      if first.Some? && rest.Some? then Some([first.value] + rest.value) else None
  }

  /** The ranges and the negation of a port list. */
  function ReadPorts(s: string): Option<(seq<PortRange>, bool)> {
    var invert := |s| >= 3 && s[..2] == "!(" && s[|s| - 1] == ')';
    var list := if invert then s[2..|s| - 1] else s;
    var ranges := ReadRanges(if list == "" then [] else SplitOn(list, ','));
    if ranges.Some? then Some((ranges.value, invert)) else None
  }

  lemma RangeReads(r: PortRange)
    ensures ReadRange(RangeText(r)) == Some(r)
    ensures ',' !in RangeText(r) && RangeText(r) != [] && IsDigit(RangeText(r)[0])
  {
    hide SplitOn, ValueOf;
    match r {
      case Single(p) =>
        ValueOfNumeral(p);
        SplitFirst(Numeral(p), '-', "");
      case Range(low, high) =>
        ValueOfNumeral(low);
        ValueOfNumeral(high);
        SplitPair(Numeral(low), Numeral(high));
    }
  }

  lemma SplitPair(low: string, high: string)
    requires '-' !in low && '-' !in high
    ensures SplitOn(low + "-" + high, '-') == [low, high]
  {
    hide SplitOn;
    SplitFirst(low, '-', high);
    SplitFirst(high, '-', "");
    assert low + "-" + high == low + ['-'] + high;
  }

  lemma {:induction false} RangesRead(ranges: seq<PortRange>)
    ensures ReadRanges(Texts(ranges)) == Some(ranges)
  {
    hide ReadRange, RangeText;
    if ranges != [] {
      RangeReads(ranges[0]);
      RangesRead(ranges[1..]);
      assert Texts(ranges)[1..] == Texts(ranges[1..]);
      assert [ranges[0]] + ranges[1..] == ranges;
    } else {
      assert Texts(ranges) == [];
    }
  }

  lemma JoinStart(texts: seq<string>, sep: char)
    requires texts != [] && texts[0] != []
    ensures Join(texts, sep) != [] && Join(texts, sep)[0] == texts[0][0]
  {
  }

  lemma ListReads(ranges: seq<PortRange>)
    ensures var list := Join(Texts(ranges), ',');
            && ReadRanges(if list == "" then [] else SplitOn(list, ',')) == Some(ranges)
            && (list != "" ==> IsDigit(list[0]))
  {
    hide ReadRanges, RangeText, SplitOn;
    var texts := Texts(ranges);
    RangesRead(ranges);
    if ranges != [] {
      forall i | 0 <= i < |texts| ensures ',' !in texts[i] {
        RangeReads(ranges[i]);
      }
      RangeReads(ranges[0]);
      JoinStart(texts, ',');
      SplitJoin(texts, ',');
    }
  }

  /** The printed list reads back as exactly the ranges and the negation it was printed from. */
  lemma PortsRead(ranges: seq<PortRange>, invert: bool)
    ensures ReadPorts(PortsText(ranges, invert)) == Some((ranges, invert))
  {
    hide ReadRanges, RangeText, SplitOn, Join, Texts;
    ListReads(ranges);
    var list := Join(Texts(ranges), ',');
    var s := PortsText(ranges, invert);
    if invert {
      assert s == "!(" + list + ")" && s[..2] == "!(" && s[2..|s| - 1] == list;
    } else {
      assert s == list;
      assert list != "" ==> s[0] != '!';
      assert |s| >= 3 ==> s[..2][0] == s[0];
    }
  }

  // ----- the program -----

  /** The text printed while some ranges are done, always a beginning of the whole. */
  lemma {:induction false} JoinPrefix(a: seq<string>, b: seq<string>, sep: char)
    requires a != []
    ensures Join(a, sep) <= Join(a + b, sep) && (b != [] ==> Join(a, sep) + [sep] + b[0] <= Join(a + b, sep))
    decreases |b|
  {
    if b == [] {
      assert a + b == a;
    } else {
      JoinAppend(a, b[0], sep);
      JoinPrefix(a + [b[0]], b[1..], sep);
      assert a + [b[0]] + b[1..] == a + b;
    }
  }

  /** Text at the cursor, after what is already in the buffer. */
  method Append(buffer: array<char>, cursor: nat, size: u32, ghost before: string, text: string)
    returns (ok: bool, newCursor: nat, newSize: u32)
    requires cursor + size <= buffer.Length && buffer[..cursor] == before
    modifies buffer
    ensures ok <==> |text| < size
    ensures ok ==> newCursor == cursor + |text| && newSize == size - |text|
    ensures ok ==> buffer[..newCursor] == before + text && buffer[newCursor] == '\0'
  {
    ok, newCursor, newSize := ConcatenateToString(buffer, cursor, size, text);
    if ok {
      assert buffer[..newCursor] == buffer[..cursor] + buffer[cursor..newCursor];
    }
  }

  /** What is printed once the ranges in `done` are: without the closing parenthesis. */
  ghost function Partial(done: seq<PortRange>, invert: bool): string {
    (if invert then "!(" else "") + Join(Texts(done), ',')
  }

  /** The next piece, comma and range, and how it continues the text; it never reaches beyond the whole. */
  lemma NextPiece(done: seq<PortRange>, next: PortRange, rest: seq<PortRange>, invert: bool)
    ensures Partial(done + [next], invert) == Partial(done, invert) + (if done == [] then "" else ",") + RangeText(next)
    ensures |Partial(done, invert)| <= |Partial(done + [next], invert)| <= |PortsText(done + ([next] + rest), invert)|
  {
    hide RangeText;
    var a, b := Texts(done), Texts(rest);
    assert Texts(done + [next]) == a + [RangeText(next)];
    assert Texts(done + ([next] + rest)) == a + [RangeText(next)] + b;
    JoinPrefix(a + [RangeText(next)], b, ',');
    if done == [] {
      assert a + [RangeText(next)] == [RangeText(next)];
    } else {
      JoinAppend(a, RangeText(next), ',');
    }
  }

  /** One range behind a comma, unless it is the first. */
  method AppendRange(buffer: array<char>, cursor: nat, size: u32, first: bool, r: PortRange, ghost done: seq<PortRange>,
                     ghost rest: seq<PortRange>, ghost invert: bool)
    returns (ok: bool, newCursor: nat, newSize: u32)
    requires cursor + size <= buffer.Length && buffer[..cursor] == Partial(done, invert) && first == (done == [])
    modifies buffer
    ensures ok ==> newCursor + newSize == cursor + size && 0 < newSize
    ensures ok ==> buffer[..newCursor] == Partial(done + [r], invert) && buffer[newCursor] == '\0'
    ensures !ok ==> |PortsText(done + ([r] + rest), invert)| >= cursor + size
  {
    hide Partial, RangeText, PortsText;
    NextPiece(done, r, rest, invert);
    ghost var before := Partial(done, invert);
    ok, newCursor, newSize := true, cursor, size;
    if !first {
      ok, newCursor, newSize := Append(buffer, newCursor, newSize, before, ",");
      if !ok {
        return;
      }
      before := before + ",";
    }
    assert before == Partial(done, invert) + (if done == [] then "" else ",");
    ok, newCursor, newSize := Append(buffer, newCursor, newSize, before, RangeText(r));
  }

  lemma OneMoreDone(done: seq<PortRange>, r: PortRange, rest: seq<PortRange>)
    ensures done + ([r] + rest) == done + [r] + rest && done + [r] != []
  {
  }

  /** The loop takes two entries for a range; the output is refused exactly when it does not fit. */
  method FormatMultiportV1Match(ports: seq<u16>, pflags: seq<bool>, count: nat, invert: bool,
                                buffer: array<char>, bufferSize: u32)
    returns (result: IptablesResult)
    requires count <= |ports| == |pflags| && Paired(pflags, count, 0) && bufferSize <= buffer.Length
    modifies buffer
    ensures var text := PortsText(RangesFrom(ports, pflags, count, 0), invert);
            && result == (if |text| < bufferSize || text == "" then IptablesOk else IptablesException)
            && (result == IptablesOk && text != "" ==> buffer[..|text|] == text && buffer[|text|] == '\0')
  {
    hide RangeText, Paired, RangesFrom, PortsText, Partial;
    ghost var all := RangesFrom(ports, pflags, count, 0);
    WholeText(all, invert);
    ghost var done: seq<PortRange> := [];
    var cursor: nat := 0;
    var size: u32 := bufferSize;
    var ok := true;
    if invert {
      ok, cursor, size := Append(buffer, cursor, size, "", "!(");
      if !ok {
        return IptablesException;
      }
    }
    var j: nat := 0;
    while j < count
      invariant Paired(pflags, count, j) && all == done + RangesFrom(ports, pflags, count, j)
      invariant done == [] <==> j == 0
      invariant cursor + size == bufferSize && buffer[..cursor] == Partial(done, invert)
      invariant cursor > 0 ==> size > 0 && buffer[cursor] == '\0'
      decreases count - j
    {
      PairedStep(ports, pflags, count, j);
      var r := if pflags[j] then Range(ports[j], ports[j + 1]) else Single(ports[j]);
      ghost var rest := RangesFrom(ports, pflags, count, if pflags[j] then j + 2 else j + 1);
      ok, cursor, size := AppendRange(buffer, cursor, size, j == 0, r, done, rest, invert);
      if !ok {
        return IptablesException;
      }
      OneMoreDone(done, r, rest);
      done := done + [r];
      j := if pflags[j] then j + 2 else j + 1;
    }
    RangesEnd(ports, pflags, count, j);
    assert done == all;
    if invert {
      ok, cursor, size := Append(buffer, cursor, size, Partial(done, invert), ")");
      if !ok {
        return IptablesException;
      }
    }
    result := IptablesOk;
  }

  function Singles(ports: seq<u16>): (ranges: seq<PortRange>)
    ensures |ranges| == |ports| && forall i | 0 <= i < |ports| :: ranges[i] == Single(ports[i])
  {
    seq(|ports|, i requires 0 <= i < |ports| => Single(ports[i]))
  }

  /** The older match format: single ports only, no negation. */
  method FormatMultiportMatch(ports: seq<u16>, buffer: array<char>, bufferSize: u32) returns (result: IptablesResult)
    requires bufferSize <= buffer.Length
    modifies buffer
    ensures var text := PortsText(Singles(ports), false);
            && result == (if |text| < bufferSize || text == "" then IptablesOk else IptablesException)
            && (result == IptablesOk && text != "" ==> buffer[..|text|] == text && buffer[|text|] == '\0')
  {
    hide RangeText, PortsText, Partial;
    ghost var all := Singles(ports);
    WholeText(all, false);
    var cursor: nat := 0;
    var size: u32 := bufferSize;
    for j := 0 to |ports|
      invariant cursor + size == bufferSize && buffer[..cursor] == Partial(all[..j], false)
      invariant j > 0 ==> size > 0 && buffer[cursor] == '\0'
    {
      assert all[..j] + ([all[j]] + all[j + 1..]) == all && all[..j] + [all[j]] == all[..j + 1];
      var ok;
      ok, cursor, size := AppendRange(buffer, cursor, size, j == 0, Single(ports[j]), all[..j], all[j + 1..], false);
      if !ok {
        return IptablesException;
      }
    }
    assert all[..|ports|] == all;
    result := IptablesOk;
  }

  lemma PairedStep(ports: seq<u16>, pflags: seq<bool>, count: nat, j: nat)
    requires j < count <= |pflags| == |ports| && Paired(pflags, count, j)
    ensures if pflags[j] then
              && j + 1 < |pflags| && Paired(pflags, count, j + 2)
              && RangesFrom(ports, pflags, count, j)
                 == [Range(ports[j], ports[j + 1])] + RangesFrom(ports, pflags, count, j + 2)
            else
              && Paired(pflags, count, j + 1)
              && RangesFrom(ports, pflags, count, j) == [Single(ports[j])] + RangesFrom(ports, pflags, count, j + 1)
  {
  }

  lemma RangesEnd(ports: seq<u16>, pflags: seq<bool>, count: nat, j: nat)
    requires count <= j && count <= |pflags| == |ports| && Paired(pflags, count, j)
    ensures RangesFrom(ports, pflags, count, j) == []
  {
  }

  lemma WholeText(ranges: seq<PortRange>, invert: bool)
    ensures Partial([], invert) == if invert then "!(" else ""
    ensures PortsText(ranges, invert) == Partial(ranges, invert) + if invert then ")" else ""
    ensures |Partial([], invert)| <= |PortsText(ranges, invert)|
    ensures invert ==> PortsText(ranges, invert) != []
    ensures !invert && ranges == [] ==> PortsText(ranges, invert) == []
    ensures ranges != [] ==> PortsText(ranges, invert) != []
  {
    assert Texts([]) == [];
    if ranges != [] {
      RangeReads(ranges[0]);
      JoinStart(Texts(ranges), ',');
    }
  }
}
