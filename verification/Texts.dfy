/** JavaScript strings and the small containers every module shares. */
module Texts {
  /** One UTF-16 code unit: JavaScript measures and slices strings in these. */
  type CodeUnit = n: int | 0 <= n < 0x10000

  type Text = seq<CodeUnit>

  /** SHA-256 values travel as their lowercase hexadecimal text. */
  type Digest = Text

  datatype Option<+T> = None | Some(value: T)

  predicate IsHigh(u: CodeUnit) { 0xD800 <= u <= 0xDBFF }

  predicate IsLow(u: CodeUnit) { 0xDC00 <= u <= 0xDFFF }

  /** The code units of an ASCII literal. */
  function Ascii(s: string): (t: Text)
    ensures |t| == |s|
  {
    seq(|s|, i requires 0 <= i < |s| => if s[i] < 128 as char then s[i] as int else 0xFFFD)
  }

  /** Every element of `s` occurs once. */
  ghost predicate Distinct<T(!new)>(s: seq<T>) {
    forall i, j :: 0 <= i < j < |s| ==> s[i] != s[j]
  }

  function CeilDiv(a: nat, b: nat): (q: nat)
    requires b > 0
    ensures (a + b - 1) / b == q
    ensures q * b >= a
    ensures a > 0 ==> (q - 1) * b < a
    ensures a == 0 ==> q == 0
  {
    (a + b - 1) / b
  }

  /** The default token estimate: four code units to a token. */
  function EstimateTokens(text: Text): nat { CeilDiv(|text|, 4) }
}
