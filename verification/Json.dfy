/** JSON trees as the parsing library presents them, and the agent's reader: a cursor that steps in and out. */
module Json {
  import opened Common
  import opened Duration
  import opened TimeUtils

  datatype Json =
    | JsonNull
    | JsonBool(flag: bool)
    | JsonNumber(number: real)
    | JsonString(text: string)
    | JsonArray(items: seq<Json>)
    | JsonObject(fields: map<string, Json>)

  datatype JsonType = TypeBool | TypeNumber | TypeString | TypeObject

  predicate HasType(j: Json, t: JsonType) {
    match t
    case TypeBool => j.JsonBool?
    case TypeNumber => j.JsonNumber?
    case TypeString => j.JsonString?
    case TypeObject => j.JsonObject?
  }

  datatype ReadResult<+T> = ReadOk(value: T) | KeyMissing | ValueIsNull | ParseError | ReadException

  // ----- dotted names -----

  predicate DotFree(name: string) {
    '.' !in name
  }

  /** A name is a path: its parts between dots. */
  function Split(name: string): (parts: seq<string>)
    ensures parts != []
    ensures DotFree(name) ==> parts == [name]
    decreases |name|
  {
    var dot := IndexOf(name, '.', 0);
    if dot == |name| then [name] else [name[..dot]] + Split(name[dot + 1..])
  }

  /** The value at the end of a path of object keys. */
  function Follow(j: Json, path: seq<string>): Option<Json> {
    if path == [] then Some(j)
    else if !j.JsonObject? || path[0] !in j.fields then None
    else Follow(j.fields[path[0]], path[1..])
  }

  lemma {:induction false} FollowConcat(j: Json, a: seq<string>, b: seq<string>)
    requires Follow(j, a).Some?
    ensures Follow(j, a + b) == Follow(Follow(j, a).value, b)
  {
    if a == [] {
      assert a + b == b;
    } else {
      assert (a + b)[0] == a[0] && (a + b)[1..] == a[1..] + b;
      FollowConcat(j.fields[a[0]], a[1..], b);
    }
  }

  /** Whatever lies on the way to something is an object. */
  lemma {:induction false} FollowPrefix(j: Json, path: seq<string>)
    requires path != [] && Follow(j, path).Some?
    ensures Follow(j, path[..|path| - 1]).Some? && Follow(j, path[..|path| - 1]).value.JsonObject?
  {
    if |path| > 1 {
      FollowPrefix(j.fields[path[0]], path[1..]);
      assert path[..|path| - 1] == [path[0]] + path[1..][..|path| - 2];
    } else {
      assert path[..0] == [];
    }
  }

  /** JsonObjectReader_GetValueOfType: the value under a dotted name, if it is there and of the wanted type. */
  function GetValueOfType(current: Json, name: string, t: JsonType): ReadResult<Json> {
    match Follow(current, Split(name))
    case None => KeyMissing
    case Some(j) => if j.JsonNull? then ValueIsNull else if HasType(j, t) then ReadOk(j) else ParseError
  }

  lemma FollowOne(fields: map<string, Json>, name: string)
    requires DotFree(name)
    ensures Follow(JsonObject(fields), Split(name)) == if name in fields then Some(fields[name]) else None
  {
    assert Follow(JsonObject(fields), [name]) ==
           if name in fields then Follow(fields[name], [name][1..]) else None;
  }

  /** A plain name is looked up among the members: missing, null, of the wanted type, or of another one. */
  lemma MemberRead(fields: map<string, Json>, name: string, t: JsonType)
    requires DotFree(name)
    ensures GetValueOfType(JsonObject(fields), name, t)
            == if name !in fields then KeyMissing
               else match (fields[name], t)
                    case (JsonNull, _) => ValueIsNull
                    case (JsonBool(_), TypeBool) => ReadOk(fields[name])
                    case (JsonNumber(_), TypeNumber) => ReadOk(fields[name])
                    case (JsonString(_), TypeString) => ReadOk(fields[name])
                    case (JsonObject(_), TypeObject) => ReadOk(fields[name])
                    case _ => ParseError
  {
    hide Split;
    FollowOne(fields, name);
  }

  // ----- numbers -----

  /** Conversion of a double to int32_t: truncation; out of range, what an x86-64 conversion delivers. */
  function ToInt32(n: real): (i: int)
    ensures -0x8000_0000 <= i <= 0x7FFF_FFFF
  {
    var t := if n >= 0.0 then n.Floor else -((-n).Floor);
    if -0x8000_0000 <= t <= 0x7FFF_FFFF then t else -0x8000_0000
  }

  /** In range, the conversion drops the fraction. */
  lemma TruncatesToZero(n: real)
    requires -2147483649.0 < n < 2147483648.0
    ensures n >= 0.0 ==> ToInt32(n) as real <= n < (ToInt32(n) + 1) as real
    ensures n <= 0.0 ==> (ToInt32(n) - 1) as real < n <= ToInt32(n) as real
  {
  }

  /** An int32_t stored through a pointer into a uint32_t, and read back the same way. */
  function AsInt32(u: u32): (i: int)
    ensures -0x8000_0000 <= i <= 0x7FFF_FFFF && Wrap(i) == u
  {
    if u <= 0x7FFF_FFFF then u else u - U32_MODULUS
  }

  lemma NumberRoundTrip(u: u32)
    ensures Wrap(ToInt32(AsInt32(u) as real)) == u
  {
  }

  lemma StepFollows(j: Json, name: string)
    ensures GetValueOfType(j, name, TypeObject).ReadOk? ==>
              && Follow(j, Split(name)) == Some(GetValueOfType(j, name, TypeObject).value)
              && GetValueOfType(j, name, TypeObject).value.JsonObject?
  {
    hide Split, Follow;
  }

  // ----- the reader -----

  class JsonObjectReader {
    const rootValue: Json
    /** The keys from the root to the object the reader stands on. */
    var path: seq<string>

    ghost predicate Valid()
      reads this
    {
      Follow(rootValue, path).Some? && Follow(rootValue, path).value.JsonObject?
    }

    /** The object the reader stands on. */
    function RootObject(): Json
      reads this
      requires Valid()
    {
      Follow(rootValue, path).value
    }

    constructor (document: Json)
      requires document.JsonObject?
      ensures Valid() && rootValue == document && RootObject() == document && path == []
    {
      rootValue := document;
      path := [];
    }

    method StepIn(name: string) returns (result: ReadResult<()>)
      requires Valid()
      modifies this
      ensures Valid()
      ensures match GetValueOfType(old(RootObject()), name, TypeObject)
              case ReadOk(j) => result == ReadOk(()) && RootObject() == j && path == old(path) + Split(name)
              case KeyMissing => result == KeyMissing && path == old(path)
              case ValueIsNull => result == ValueIsNull && path == old(path)
              case ParseError => result == ParseError && path == old(path)
              case ReadException => result == ReadException && path == old(path)
      ensures DotFree(name) ==>
                var fields := old(RootObject()).fields;
                && (result == ReadOk(()) <==> name in fields && fields[name].JsonObject?)
                && (result == ReadOk(()) ==> RootObject() == fields[name])
                && (result == KeyMissing <==> name !in fields)
                && (result == ValueIsNull <==> name in fields && fields[name].JsonNull?)
    {
      if DotFree(name) {
        MemberRead(RootObject().fields, name, TypeObject);
      }
      hide GetValueOfType;
      StepFollows(RootObject(), name);
      FollowConcat(rootValue, path, Split(name));
      match GetValueOfType(RootObject(), name, TypeObject) {
        case ReadOk(_) =>
          path := path + Split(name);
          result := ReadOk(());
        case KeyMissing => result := KeyMissing;
        case ValueIsNull => result := ValueIsNull;
        case ParseError => result := ParseError;
        case ReadException => result := ReadException;
      }
    }

    /** One level up; at the root there is no parent. */
    method StepOut() returns (result: ReadResult<()>)
      requires Valid()
      modifies this
      ensures Valid()
      ensures if old(path) == [] then result == ReadException && path == []
              else result == ReadOk(()) && path == old(path)[..|old(path)| - 1]
    {
      if path == [] {
        return ReadException;
      }
      FollowPrefix(rootValue, path);
      path := path[..|path| - 1];
      return ReadOk(());
    }
  }
}
