/** Fixed-width arithmetic and the few data types every other module uses. */
module Common {

  const U32_MODULUS: int := 0x1_0000_0000
  const U32_MAX: int := 0xFFFF_FFFF

  /** The values of the C type uint32_t. */
  type u32 = x: int | 0 <= x <= 0xFFFF_FFFF

  /** What an unsigned 32-bit addition stores when the exact sum is x. */
  function Wrap(x: int): u32 {
    x % U32_MODULUS
  }

  /** Wrapping along the way or at the end makes no difference. */
  lemma WrapAdd(x: int, y: int)
    ensures Wrap(Wrap(x) + y) == Wrap(x + y)
  {
  }

  /** TimeUtils_GetTimeDiff as its callers use it: milliseconds in a uint32_t, a negative difference wraps. */
  function TimeDiff(end: int, beginning: int): u32 {
    Wrap((end - beginning) * 1000)
  }

  /** Up to 2^31 - 1 milliseconds the difference is what it says: a thousand times the seconds between. */
  lemma TimeDiffExact(end: int, beginning: int)
    requires 0 <= end - beginning && 1000 * (end - beginning) <= 0x7FFF_FFFF
    ensures TimeDiff(end, beginning) == 1000 * (end - beginning)
  {
  }

  datatype Option<+T> = None | Some(value: T) {
    function GetOr(default: T): T {
      if Some? then value else default
    }
  }

  lemma Associative<T>(a: seq<T>, b: seq<T>, c: seq<T>)
    ensures a + b + c == a + (b + c)
  {
  }

  lemma LastApart<T>(a: seq<T>, b: seq<T>)
    requires b != []
    ensures b == b[..|b| - 1] + [b[|b| - 1]] && a + b == (a + b[..|b| - 1]) + [b[|b| - 1]]
  {
  }

  /** Concatenation of a list of lists, in order. */
  function Flatten<T>(parts: seq<seq<T>>): seq<T> {
    if parts == [] then [] else parts[0] + Flatten(parts[1..])
  }

  lemma {:induction false} FlattenAppend<T>(parts: seq<seq<T>>, last: seq<T>)
    ensures Flatten(parts + [last]) == Flatten(parts) + last
  {
    if parts == [] {
      assert parts + [last] == [last];
      assert Flatten([last]) == last + Flatten<T>([]);
    } else {
      assert (parts + [last])[1..] == parts[1..] + [last];
      FlattenAppend(parts[1..], last);
    }
  }
}
