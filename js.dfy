/**
 * The few JavaScript built-ins that the pages' logic leans on, given the
 * meaning the language gives them: `null`, `Array.prototype.slice` /
 * `String.prototype.slice` with their clamping, `String.prototype.charAt`,
 * and `String.prototype.length`, which counts UTF-16 code units.
 */
module Js {

  /** A value that may be `null`. */
  datatype Option<+T> = None | Some(value: T)

  function Min(a: int, b: int): int
  {
    if a <= b then a else b
  }

  /**
   * `s.slice(start, end)` for non-negative bounds: both bounds are clamped
   * to the length, and an end at or before the start gives an empty result.
   */
  function Slice<T>(s: seq<T>, start: nat, end: nat): (r: seq<T>)
    ensures |r| == if Min(end, |s|) <= Min(start, |s|) then 0 else Min(end, |s|) - Min(start, |s|)
    ensures |r| <= |s|
    ensures forall k :: 0 <= k < |r| ==> start + k < |s| && r[k] == s[start + k]
  {
    var lo := Min(start, |s|);
    var hi := Min(end, |s|);
    if hi <= lo then [] else s[lo..hi]
  }

  /** `s.charAt(i)`: the one-character string at `i`, or "" past the end. */
  function CharAt(s: string, i: nat): string
  {
    if i < |s| then [s[i]] else ""
  }

  /**
   * `s.length`: a character outside the Basic Multilingual Plane is stored
   * as a surrogate pair and counts twice.
   */
  function Utf16Length(s: string): (n: nat)
    ensures |s| <= n <= 2 * |s|
    ensures (forall i :: 0 <= i < |s| ==> s[i] as int < 0x1_0000) ==> n == |s|
  {
    if s == [] then 0
    else (if s[0] as int < 0x1_0000 then 1 else 2) + Utf16Length(s[1..])
  }
}
