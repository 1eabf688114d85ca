/**
 * The parts of C++ and its libraries whose exact behaviour the annotation
 * step depends on: the int32_t/uint32_t conversions, ASCII upper-casing
 * (boost::to_upper_copy in the "C" locale) and std::string::substr, which
 * throws std::out_of_range for a start position past the end.
 */
module Cpp {

  datatype Option<+T> = None | Some(value: T)

  const Int32Limit: int := 0x8000_0000
  const UInt32Limit: int := 0x1_0000_0000

  /** The values of int32_t. */
  type Int32 = x: int | -0x8000_0000 <= x < 0x8000_0000

  predicate IsInt32(x: int) {
    -Int32Limit <= x < Int32Limit
  }

  function Min(a: int, b: int): int {
    if a <= b then a else b
  }

  function Max(a: int, b: int): int {
    if a >= b then a else b
  }

  /** Conversion of an integer to uint32_t: reduction modulo 2^32. */
  function ToUInt32(x: int): (u: nat)
    ensures u < UInt32Limit
    ensures 0 <= x < UInt32Limit ==> u == x
    ensures 0 <= x ==> u <= x
  {
    x % UInt32Limit
  }

  /** Conversion of a uint32_t value to int32_t (two's complement). */
  function ToInt32(u: nat): (r: Int32)
    requires u < UInt32Limit
    ensures r <= u
    ensures u < Int32Limit ==> r == u
  {
    if u < Int32Limit then u else u - UInt32Limit
  }

  /** Storing a wider integer into an int32_t variable or field. */
  function NarrowToInt32(x: int): (r: Int32)
    ensures IsInt32(x) ==> r == x
  {
    ToInt32(ToUInt32(x))
  }

  /** Upper-casing of one character in the "C" locale: only 'a'..'z' change. */
  function UpperChar(c: char): (u: char)
    ensures !('a' <= u <= 'z')
    ensures 'a' <= c <= 'z' ==> 'A' <= u <= 'Z'
    ensures !('a' <= c <= 'z') ==> u == c
  {
    if 'a' <= c <= 'z' then (c as int - 32) as char else c
  }

  /** boost::to_upper_copy: the string with every character upper-cased. */
  function Upper(s: string): (u: string)
    ensures |u| == |s|
    ensures forall i :: 0 <= i < |s| ==> u[i] == UpperChar(s[i])
  {
    seq(|s|, i requires 0 <= i < |s| => UpperChar(s[i]))
  }

  /**
   * std::string::substr(p, n): the at most n characters of s from index p on.
   * A start past the end throws std::out_of_range (None); p is a size_t, so
   * a negative start converts to a huge value and throws too.
   */
  function Substr(s: string, p: int, n: nat): (r: Option<string>)
    ensures r.Some? <==> 0 <= p <= |s|
    ensures r.Some? ==> |r.value| == Min(n, |s| - p) && r.value == s[p..p + |r.value|]
  {
    if 0 <= p <= |s| then Some(s[p..Min(p + n, |s|)]) else None
  }
}
