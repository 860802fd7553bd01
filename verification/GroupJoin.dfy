/** The two-pass join of a user's groups: the first pass sizes two buffers, the second fills them. */
module GroupJoin {
  import opened Common
  import opened Decimal
  import opened TextSplit

  const DELIMITER := ';'
  const MAX_ID_AS_STRING_LENGTH := 11

  datatype Group = Group(name: string, id: int)

  /** What "%d" prints. */
  function IntegerText(i: int): (s: string)
    ensures s != []
  {
    if i < 0 then "-" + Numeral(-i) else Numeral(i)
  }

  /** Utils_IntegerToString into a buffer of this size: there must be room for the NUL. */
  predicate FitsAsString(i: int) {
    |IntegerText(i)| < MAX_ID_AS_STRING_LENGTH
  }

  function Names(groups: seq<Group>): (names: seq<string>)
    ensures |names| == |groups|
  {
    seq(|groups|, i requires 0 <= i < |groups| => groups[i].name)
  }

  function Ids(groups: seq<Group>): (ids: seq<string>)
    ensures |ids| == |groups|
  {
    seq(|groups|, i requires 0 <= i < |groups| => IntegerText(groups[i].id))
  }

  /** An int32_t fits the 11 bytes exactly when it needs no sign in front of ten digits. */
  lemma Int32FitsIff(i: int)
    requires -0x8000_0000 <= i <= 0x7FFF_FFFF
    ensures FitsAsString(i) <==> i > -1_000_000_000
  {
    assert Power10(5) == 100_000;
    assert Power10(9) == 1_000_000_000 && Power10(10) == 10_000_000_000;
    if i >= 0 {
      NumeralLength(i, 10);
    } else if i > -1_000_000_000 {
      NumeralLength(-i, 9);
    } else {
      NumeralLong(-i, 9);
    }
  }

  /** So a group id of minus one billion, an int32_t like any other, makes the whole join fail. */
  lemma ElevenCharacters()
    ensures !FitsAsString(-1_000_000_000) && |IntegerText(-1_000_000_000)| >= 11
  {
    Int32FitsIff(-1_000_000_000);
  }

  function TotalLength(parts: seq<string>): nat {
    if parts == [] then 0 else TotalLength(parts[..|parts| - 1]) + |parts[|parts| - 1]|
  }

  lemma {:induction false} JoinLength(parts: seq<string>, sep: char)
    requires parts != []
    ensures |Join(parts, sep)| == TotalLength(parts) + |parts| - 1
  {
    if |parts| > 1 {
      var n := |parts| - 1;
      JoinLength(parts[..n], sep);
      JoinAppend(parts[..n], parts[n], sep);
      assert parts == parts[..n] + [parts[n]];
    } else {
      assert TotalLength(parts[..0]) == 0;
    }
  }

  lemma TotalNext(parts: seq<string>, k: nat)
    requires k < |parts|
    ensures TotalLength(parts[..k + 1]) == TotalLength(parts[..k]) + |parts[k]|
    ensures TotalLength(parts[..0]) == 0 && parts[..|parts|] == parts
  {
    assert parts[..k + 1][..k] == parts[..k];
  }

  /** The accumulated size of a join: a delimiter or the NUL per part, and the parts. */
  lemma JoinSize(parts: seq<string>)
    requires parts != []
    ensures |parts| + TotalLength(parts) == |Join(parts, DELIMITER)| + 1
    ensures TotalLength(parts[..0]) == 0 && parts[..|parts|] == parts
  {
    JoinLength(parts, DELIMITER);
  }

  /**
   * First pass: delimiters and the NUL, then every length. Without groups the delimiter count wraps
   * and there is no room for even the NUL.
   */
  method CalculateSizeOfGroups(groups: seq<Group>) returns (success: bool, namesSize: u32, idsSize: u32)
    ensures success <==> forall g | g in groups :: FitsAsString(g.id)
    ensures success && groups != [] ==>
              && namesSize == Wrap(|Join(Names(groups), DELIMITER)| + 1)
              && idsSize == Wrap(|Join(Ids(groups), DELIMITER)| + 1)
    ensures groups == [] ==> namesSize == 0 && idsSize == 0
  {
    hide TotalLength, FitsAsString, IntegerText, Join;
    var numOfGroups := |groups|;
    namesSize, idsSize := Wrap(Wrap(numOfGroups - 1) + 1), Wrap(Wrap(numOfGroups - 1) + 1);
    WrapAdd(numOfGroups - 1, 1);
    if groups != [] {
      JoinSize(Names(groups));
      JoinSize(Ids(groups));
    }
    var k := 0;
    while k < |groups|
      invariant 0 <= k <= |groups| && (groups == [] ==> namesSize == 0 && idsSize == 0)
      invariant groups != [] ==> namesSize == Wrap(|groups| + TotalLength(Names(groups)[..k]))
      invariant groups != [] ==> idsSize == Wrap(|groups| + TotalLength(Ids(groups)[..k]))
      invariant forall i | 0 <= i < k :: FitsAsString(groups[i].id)
    {
      TotalNext(Names(groups), k);
      TotalNext(Ids(groups), k);
      WrapAdd(|groups| + TotalLength(Names(groups)[..k]), |groups[k].name|);
      WrapAdd(|groups| + TotalLength(Ids(groups)[..k]), |IntegerText(groups[k].id)|);
      namesSize := Wrap(namesSize + |groups[k].name|);
      if !FitsAsString(groups[k].id) {
        return false, namesSize, idsSize;
      }
      idsSize := Wrap(idsSize + |IntegerText(groups[k].id)|);
      k := k + 1;
    }
    success := true;
  }

  /** Second pass, one value: a delimiter unless it is the first, then the value, at the current position. */
  method AppendValueName(combinedValue: array<char>, isFirst: bool, currentPosition: nat, value: string)
    returns (newPosition: nat)
    requires currentPosition + (if isFirst then 0 else 1) + |value| <= combinedValue.Length
    modifies combinedValue
    ensures newPosition == currentPosition + (if isFirst then 0 else 1) + |value|
    ensures combinedValue[..newPosition]
            == old(combinedValue[..currentPosition]) + (if isFirst then "" else [DELIMITER]) + value
    ensures forall i | newPosition <= i < combinedValue.Length :: combinedValue[i] == old(combinedValue[i])
  {
    newPosition := currentPosition;
    if !isFirst {
      combinedValue[newPosition] := DELIMITER;
      newPosition := newPosition + 1;
    }
    forall i | 0 <= i < |value| {
      combinedValue[newPosition + i] := value[i];
    }
    newPosition := newPosition + |value|;
  }

  /** What has been joined so far is a beginning of the whole join. */
  lemma {:induction false} JoinBegins(parts: seq<string>, k: nat)
    requires 0 < k <= |parts|
    ensures |Join(parts[..k], DELIMITER)| <= |Join(parts, DELIMITER)|
    decreases |parts| - k
  {
    if k < |parts| {
      assert parts[..k + 1] == parts[..k] + [parts[k]];
      JoinAppend(parts[..k], parts[k], DELIMITER);
      JoinBegins(parts, k + 1);
    } else {
      assert parts[..k] == parts;
    }
  }

  lemma JoinNext(parts: seq<string>, k: nat)
    requires k < |parts|
    ensures Join(parts[..k + 1], DELIMITER)
            == Join(parts[..k], DELIMITER) + (if k == 0 then "" else [DELIMITER]) + parts[k]
    ensures |Join(parts[..k + 1], DELIMITER)| <= |Join(parts, DELIMITER)|
  {
    assert parts[..k + 1] == parts[..k] + [parts[k]];
    if k > 0 {
      JoinAppend(parts[..k], parts[k], DELIMITER);
    }
    JoinBegins(parts, k + 1);
  }

  /** Second pass: no write leaves the buffers, and each ends up holding the join and what was behind it before. */
  method GenerateGroupNamesAndIds(groups: seq<Group>, combinedGroupNames: array<char>, combinedGroupIds: array<char>)
    returns (success: bool)
    requires combinedGroupNames != combinedGroupIds
    requires |Join(Names(groups), DELIMITER)| <= combinedGroupNames.Length
    requires |Join(Ids(groups), DELIMITER)| <= combinedGroupIds.Length
    modifies combinedGroupNames, combinedGroupIds
    ensures success <==> forall g | g in groups :: FitsAsString(g.id)
    ensures success ==>
              && var n := |Join(Names(groups), DELIMITER)|;
              && combinedGroupNames[..n] == Join(Names(groups), DELIMITER)
              && combinedGroupNames[n..] == old(combinedGroupNames[n..])
    ensures success ==>
              && var n := |Join(Ids(groups), DELIMITER)|;
              && combinedGroupIds[..n] == Join(Ids(groups), DELIMITER)
              && combinedGroupIds[n..] == old(combinedGroupIds[n..])
  {
    hide Join, FitsAsString, Names, Ids, IntegerText;
    NamesAndIds(groups);
    var namesPosition, idsPosition := 0, 0;
    JoinNothing();
    var k := 0;
    while k < |groups|
      invariant 0 <= k <= |groups|
      invariant namesPosition == |Join(Names(groups)[..k], DELIMITER)| <= combinedGroupNames.Length
      invariant idsPosition == |Join(Ids(groups)[..k], DELIMITER)| <= combinedGroupIds.Length
      invariant combinedGroupNames[..namesPosition] == Join(Names(groups)[..k], DELIMITER)
      invariant combinedGroupIds[..idsPosition] == Join(Ids(groups)[..k], DELIMITER)
      invariant forall i | namesPosition <= i < combinedGroupNames.Length ::
                  combinedGroupNames[i] == old(combinedGroupNames[i])
      invariant forall i | idsPosition <= i < combinedGroupIds.Length :: combinedGroupIds[i] == old(combinedGroupIds[i])
      invariant forall i | 0 <= i < k :: FitsAsString(groups[i].id)
    {
      JoinNext(Names(groups), k);
      JoinNext(Ids(groups), k);
      namesPosition := AppendValueName(combinedGroupNames, k == 0, namesPosition, groups[k].name);
      if !FitsAsString(groups[k].id) {
        return false;
      }
      idsPosition := AppendValueName(combinedGroupIds, k == 0, idsPosition, IntegerText(groups[k].id));
      k := k + 1;
    }
    assert Names(groups)[..k] == Names(groups) && Ids(groups)[..k] == Ids(groups);
    success := true;
  }

  lemma NamesAndIds(groups: seq<Group>)
    ensures forall k | 0 <= k < |groups| ::
              Names(groups)[k] == groups[k].name && Ids(groups)[k] == IntegerText(groups[k].id)
    ensures Names(groups)[..0] == [] && Ids(groups)[..0] == []
  {
  }

  lemma JoinNothing()
    ensures Join([], DELIMITER) == ""
  {
  }

  /** How the allocator and the JSON library answer while one user's groups are written. */
  datatype Answers = Answers(namesAllocated: bool, idsAllocated: bool, namesWritten: bool, idsWritten: bool)

  /** The second pass into two fresh, zeroed buffers of the sizes the first pass found. */
  method FillBuffers(groups: seq<Group>, namesSize: u32, idsSize: u32)
    returns (success: bool, combinedGroupNames: array<char>, combinedGroupIds: array<char>)
    requires |Join(Names(groups), DELIMITER)| < U32_MAX && |Join(Ids(groups), DELIMITER)| < U32_MAX
    requires if groups == [] then namesSize == 0 && idsSize == 0
             else namesSize == |Join(Names(groups), DELIMITER)| + 1 && idsSize == |Join(Ids(groups), DELIMITER)| + 1
    ensures success <==> forall g | g in groups :: FitsAsString(g.id)
    ensures combinedGroupNames.Length == namesSize && combinedGroupIds.Length == idsSize
    ensures success && groups != [] ==> combinedGroupNames[..] == Join(Names(groups), DELIMITER) + ['\0']
    ensures success && groups != [] ==> combinedGroupIds[..] == Join(Ids(groups), DELIMITER) + ['\0']
  {
    hide Join, FitsAsString, Names, Ids;
    ghost var n, m := |Join(Names(groups), DELIMITER)|, |Join(Ids(groups), DELIMITER)|;
    assert groups == [] ==> n == 0 && m == 0 by {
      JoinNothing();
    }
    combinedGroupNames := new char[namesSize](_ => '\0');
    combinedGroupIds := new char[idsSize](_ => '\0');
    assert groups != [] ==> combinedGroupNames[n..] == ['\0'] && combinedGroupIds[m..] == ['\0'];
    success := GenerateGroupNamesAndIds(groups, combinedGroupNames, combinedGroupIds);
    if success {
      assert combinedGroupNames[..] == combinedGroupNames[..n] + combinedGroupNames[n..];
      assert combinedGroupIds[..] == combinedGroupIds[..m] + combinedGroupIds[m..];
    }
  }

  /**
   * Both passes together, for joins that fit a 32-bit size: what is handed to the JSON library are buffers that hold
   * exactly the join and one NUL, the names before the ids, each only if all went well before. For a user without
   * groups they have no room at all, not even for the NUL, so how that ends is up to what lies behind them.
   */
  method AddGroupsForUser(groups: seq<Group>, answers: Answers)
    returns (success: bool, names: Option<seq<char>>, ids: Option<seq<char>>)
    requires |Join(Names(groups), DELIMITER)| < U32_MAX && |Join(Ids(groups), DELIMITER)| < U32_MAX
    ensures success <==>
              && (forall g | g in groups :: FitsAsString(g.id))
              && answers == Answers(true, true, true, true)
    ensures names.Some? <==>
              (forall g | g in groups :: FitsAsString(g.id)) && answers.namesAllocated && answers.idsAllocated
    ensures ids.Some? <==> names.Some? && answers.namesWritten
    ensures names.Some? ==> names.value == if groups == [] then [] else Join(Names(groups), DELIMITER) + ['\0']
    ensures ids.Some? ==> ids.value == if groups == [] then [] else Join(Ids(groups), DELIMITER) + ['\0']
  {
    hide Join, FitsAsString, Names, Ids;
    names, ids := None, None;
    var namesSize, idsSize;
    success, namesSize, idsSize := CalculateSizeOfGroups(groups);
    if !success {
      return;
    }
    if !answers.namesAllocated || !answers.idsAllocated {
      return false, None, None;
    }
    var combinedGroupNames, combinedGroupIds;
    success, combinedGroupNames, combinedGroupIds := FillBuffers(groups, namesSize, idsSize);
    if !success {
      return;
    }
    names := Some(combinedGroupNames[..]);
    if !answers.namesWritten {
      return false, names, None;
    }
    ids := Some(combinedGroupIds[..]);
    success := answers.idsWritten;
  }

  /** The number a text like "-7" or "42" stands for. */
  function ReadInteger(s: string): Option<int> {
    if s != [] && AllDigits(s) then Some(ValueOf(s))
    else if |s| > 1 && s[0] == '-' && AllDigits(s[1..]) then
      var magnitude: int := ValueOf(s[1..]);
      Some(-magnitude)
    else None
  }

  /** An id prints as its own digits, behind a sign if it is negative. */
  lemma IntegerReads(i: int)
    ensures ReadInteger(IntegerText(i)) == Some(i)
  {
    hide Numeral, ValueOf;
    if i < 0 {
      ValueOfNumeral(-i);
      var s := IntegerText(i);
      assert s[0] == '-' && !IsDigit(s[0]);
      assert s[1..] == Numeral(-i);
    } else {
      ValueOfNumeral(i);
    }
  }

  lemma IntegersAsText()
    ensures IntegerText(-7) == "-7" && IntegerText(42) == "42" && IntegerText(0) == "0"
  {
    NumeralDigits(4, 2);
  }

  lemma JoinsAsText(a: Group, b: Group)
    ensures Join(Names([a, b]), DELIMITER) == a.name + ";" + b.name
    ensures Join(Ids([a, b]), DELIMITER) == IntegerText(a.id) + ";" + IntegerText(b.id)
  {
    assert Names([a, b]) == [a.name, b.name] && Ids([a, b]) == [IntegerText(a.id), IntegerText(b.id)];
    assert [a.name, b.name][1..] == [b.name];
    assert [IntegerText(a.id), IntegerText(b.id)][1..] == [IntegerText(b.id)];
  }

  /** Splitting the joined names recovers them when no name contains the delimiter; ids always, down to the numbers. */
  lemma GroupsRecovered(groups: seq<Group>)
    requires groups != []
    ensures (forall g | g in groups :: DELIMITER !in g.name) ==>
              SplitOn(Join(Names(groups), DELIMITER), DELIMITER) == Names(groups)
    ensures var ids := SplitOn(Join(Ids(groups), DELIMITER), DELIMITER);
            |ids| == |groups| && forall i | 0 <= i < |groups| :: ReadInteger(ids[i]) == Some(groups[i].id)
  {
    forall i | 0 <= i < |groups| ensures ReadInteger(Ids(groups)[i]) == Some(groups[i].id) {
      IntegerReads(groups[i].id);
    }
    if forall g | g in groups :: DELIMITER !in g.name {
      assert forall i | 0 <= i < |groups| :: groups[i] in groups;
      SplitJoin(Names(groups), DELIMITER);
    }
    SplitJoin(Ids(groups), DELIMITER);
  }
}
