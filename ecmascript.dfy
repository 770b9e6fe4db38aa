/**
 * The few ECMAScript built-ins whose exact behaviour the store depends on:
 * `Array.prototype.indexOf`, `Array.prototype.splice(start, 1)` and the
 * bitwise NOT operator `~` (which first converts its operand with ToInt32).
 * They are stated as ECMA-262 defines them, not as the store's authors may
 * have assumed them to behave.
 */
module EcmaScript {

  const TwoTo32: int := 0x1_0000_0000
  const TwoTo31: int := 0x8000_0000

  /** `s.indexOf(x)`: the first index holding `x`, or -1 when there is none. */
  function IndexOf<T(==)>(s: seq<T>, x: T): (r: int)
    ensures -1 <= r < |s|
    ensures r == -1 <==> x !in s
    ensures 0 <= r ==> s[r] == x && x !in s[..r]
  {
    if s == [] then -1
    else if s[0] == x then 0
    else
      var i := IndexOf(s[1..], x);
      if i == -1 then -1 else i + 1
  }

  /** ECMA-262 ToInt32: the unique 32-bit signed integer congruent to `x` modulo 2^32. */
  function ToInt32(x: int): (r: int)
    ensures -TwoTo31 <= r < TwoTo31
    ensures (x - r) % TwoTo32 == 0
  {
    var m := x % TwoTo32;
    if m >= TwoTo31 then m - TwoTo32 else m
  }

  /** The `~` operator: ToInt32 followed by bitwise complement, that is `-v - 1`. */
  function BitNot(x: int): (r: int)
    ensures r == 0 <==> (x + 1) % TwoTo32 == 0
  {
    -ToInt32(x) - 1
  }

  /**
   * The array left behind by `s.splice(start, 1)`. A negative `start` counts
   * from the end and is clamped at 0; a `start` at or past the end deletes
   * nothing.
   */
  function Splice1<T>(s: seq<T>, start: int): (r: seq<T>)
    ensures 0 <= start < |s| ==> r == s[..start] + s[start + 1..]
    ensures start == -1 && s != [] ==> r == s[..|s| - 1]
    ensures s == [] ==> r == []
    ensures |r| == if s == [] || start >= |s| then |s| else |s| - 1
  {
    var k := if start < 0 then (if |s| + start < 0 then 0 else |s| + start)
             else (if start < |s| then start else |s|);
    if k < |s| then s[..k] + s[k + 1..] else s
  }
}
