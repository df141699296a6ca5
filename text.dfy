/**
  String primitives of Rust's `str` that the normalisers rely on:
  `replace(" ", "+")`, `len()` (a count of UTF-8 bytes), `chars().take(n)` and
  `chars().skip(n)` (counts of Unicode scalar values). A Dafny `string` is a
  sequence of Unicode scalar values, so character positions are sequence
  positions and the byte length has to be computed.
*/
module Text {

  /** `s.replace(" ", "+")`: every space becomes a plus sign, nothing else moves. */
  function ReplaceSpaces(s: string): (r: string)
    ensures |r| == |s|
    ensures forall i :: 0 <= i < |s| ==> r[i] == (if s[i] == ' ' then '+' else s[i])
    ensures ' ' !in r
  {
    if s == [] then []
    else [if s[0] == ' ' then '+' else s[0]] + ReplaceSpaces(s[1..])
  }

  /** A string without spaces is left as it is by the replacement. */
  lemma ReplaceSpacesWithoutSpace(s: string)
    requires ' ' !in s
    ensures ReplaceSpaces(s) == s
  {
    var r := ReplaceSpaces(s);
    assert forall i :: 0 <= i < |s| ==> r[i] == s[i];
  }

  /** Number of bytes UTF-8 uses to encode the scalar value `c`. */
  function Utf8Width(c: char): (n: nat)
    ensures 1 <= n <= 4
    ensures n == 1 <==> c as int < 0x80
  {
    if c as int < 0x80 then 1
    else if c as int < 0x800 then 2
    else if c as int < 0x1_0000 then 3
    else 4
  }

  /** Rust's `str::len()`: the length of the UTF-8 encoding of `s`. */
  function ByteLen(s: string): (n: nat)
    ensures |s| <= n <= 4 * |s|
    ensures (forall i :: 0 <= i < |s| ==> s[i] as int < 0x80) <==> n == |s|
  {
    if s == [] then 0 else Utf8Width(s[0]) + ByteLen(s[1..])
  }

  /** `s.chars().take(n).collect()`: the first `n` characters, or all of them. */
  function TakeChars(s: string, n: nat): (r: string)
    ensures |r| == if |s| <= n then |s| else n
    ensures r <= s
  {
    if |s| <= n then s else s[..n]
  }

  /** `s.chars().skip(n).collect()`: all but the first `n` characters. */
  function SkipChars(s: string, n: nat): (r: string)
    ensures |r| == if |s| <= n then 0 else |s| - n
    ensures s == TakeChars(s, n) + r
  {
    if |s| <= n then [] else s[n..]
  }
}
