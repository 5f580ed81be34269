/** Base-16 text: `parseInt(s, 16)` and `n.toString(16)`. */
module Hex {
  import opened Base

  predicate IsHexDigit(c: char)
  {
    '0' <= c <= '9' || 'a' <= c <= 'f' || 'A' <= c <= 'F'
  }

  predicate AllHex(s: string)
  {
    forall i :: 0 <= i < |s| ==> IsHexDigit(s[i])
  }

  function HexDigitValue(c: char): (d: nat)
    requires IsHexDigit(c)
    ensures d < 16
  {
    if c <= '9' then c as int - 48
    else if c <= 'F' then c as int - 55
    else c as int - 87
  }

  /** The lower-case digit `toString(16)` writes for `d`. */
  function LowerHexDigit(d: nat): (c: char)
    requires d < 16
    ensures IsHexDigit(c) && HexDigitValue(c) == d
  {
    if d < 10 then (48 + d) as char else (87 + d) as char
  }

  /** The number a string of hex digits denotes (leading zeros allowed). */
  function HexValue(s: string): nat
    requires AllHex(s)
  {
    if s == [] then 0 else HexValue(s[..|s| - 1]) * 16 + HexDigitValue(s[|s| - 1])
  }

  /** How many hex digits `s` starts with. */
  function HexPrefixLength(s: string): (n: nat)
    ensures n <= |s| && AllHex(s[..n])
    ensures n < |s| ==> !IsHexDigit(s[n])
  {
    if s == [] || !IsHexDigit(s[0]) then 0 else 1 + HexPrefixLength(s[1..])
  }

  /** `parseInt(s, 16)` on text that starts with its digits: the value of the
      longest run of leading hex digits, or `None` (NaN) when there is none. */
  function ParseHex(s: string): (r: Option<nat>)
    ensures r.None? <==> s == [] || !IsHexDigit(s[0])
    ensures AllHex(s) && s != [] ==> r == Some(HexValue(s))
  {
    var n := HexPrefixLength(s);
    assert AllHex(s) ==> n == |s|;
    assert s[..|s|] == s;
    if n == 0 then None else Some(HexValue(s[..n]))
  }

  /** `n.toString(16)`: lower-case digits, no leading zero. */
  function ToHex(n: nat): (s: string)
    ensures |s| >= 1 && AllHex(s)
    decreases n
  {
    if n < 16 then [LowerHexDigit(n)] else ToHex(n / 16) + [LowerHexDigit(n % 16)]
  }

  /** Reading back what `ToHex` wrote gives the number again. */
  lemma {:induction false} HexRoundTrip(n: nat)
    ensures HexValue(ToHex(n)) == n
    decreases n
  {
    var s := ToHex(n);
    if n >= 16 {
      HexRoundTrip(n / 16);
      assert s[..|s| - 1] == ToHex(n / 16);
    }
  }

  /** `ToHex` writes no more digits than the number needs: below 16^k, at most k. */
  lemma {:induction false} ToHexLength(n: nat, k: nat)
    requires n < Pow16(k)
    ensures |ToHex(n)| <= if k == 0 then 1 else k
    decreases n
  {
    if n >= 16 {
      assert n / 16 < Pow16(k - 1);
      ToHexLength(n / 16, k - 1);
    }
  }

  function Pow16(k: nat): (p: nat)
    ensures p >= 1
  {
    if k == 0 then 1 else 16 * Pow16(k - 1)
  }

  /** Zeros written in front of a hex string do not change its value. */
  lemma {:induction false} HexLeadingZeros(z: string, s: string)
    requires forall i :: 0 <= i < |z| ==> z[i] == '0'
    requires AllHex(s)
    ensures AllHex(z + s) && HexValue(z + s) == HexValue(s)
    decreases |s|, |z|
  {
    if s == [] {
      if z != [] {
        HexLeadingZeros(z[..|z| - 1], []);
        assert (z + s)[..|z + s| - 1] == z[..|z| - 1] + [];
      }
    } else {
      HexLeadingZeros(z, s[..|s| - 1]);
      assert (z + s)[..|z + s| - 1] == z + s[..|s| - 1];
    }
  }
}
