/** Digits, and decimal numbers as text: Rust's `{}` and zero-padded formatting, and `str::parse`. */
module Decimal {
  import opened Text

  function DigitChar(d: nat): char
    requires d < 10
  {
    ('0' as int + d) as char
  }

  predicate IsDigit(c: char) { '0' <= c <= '9' }

  predicate AllDigits(s: string) {
    forall i :: 0 <= i < |s| ==> IsDigit(s[i])
  }

  function DigitValue(c: char): (d: nat)
    requires IsDigit(c)
    ensures d < 10
  {
    c as int - '0' as int
  }

  predicate IsHexDigit(c: char) {
    IsDigit(c) || 'a' <= c <= 'f' || 'A' <= c <= 'F'
  }

  function HexDigit(c: char): (d: nat)
    requires IsHexDigit(c)
    ensures d < 16
  {
    if IsDigit(c) then DigitValue(c)
    else if 'a' <= c <= 'f' then c as int - 'a' as int + 10
    else c as int - 'A' as int + 10
  }

  /** `{}` of a natural number. */
  function Print(n: nat): (s: string)
    ensures s != [] && AllDigits(s)
    ensures Value(s) == n
  {
    if n < 10 then [DigitChar(n)]
    else
      var s := Print(n / 10) + [DigitChar(n % 10)];
      assert s[..|s| - 1] == Print(n / 10);
      s
  }

  function Value(s: string): nat
    requires AllDigits(s)
  {
    if s == [] then 0 else 10 * Value(s[..|s| - 1]) + DigitValue(s[|s| - 1])
  }

  function Zeros(k: nat): (s: string)
    ensures |s| == k && AllDigits(s)
  {
    seq(k, i => '0')
  }

  /** `{:0width}` of a natural number. */
  function Pad(n: nat, width: nat): (s: string)
    ensures s != [] && AllDigits(s) && |s| >= width
    ensures Value(s) == n
  {
    var digits := Print(n);
    var k := if |digits| < width then width - |digits| else 0;
    LeadingZeros(k, digits);
    Zeros(k) + digits
  }

  lemma {:induction false} LeadingZeros(k: nat, s: string)
    requires AllDigits(s)
    ensures Value(Zeros(k) + s) == Value(s)
    decreases k + |s|
  {
    var t := Zeros(k) + s;
    if s != [] {
      assert t[..|t| - 1] == Zeros(k) + s[..|s| - 1];
      LeadingZeros(k, s[..|s| - 1]);
    } else if k > 0 {
      assert t[..k - 1] == Zeros(k - 1) + s;
      LeadingZeros(k - 1, s);
    }
  }

  lemma {:induction false} PrintLength(n: nat, k: nat, bound: nat)
    requires k > 0 && bound == Power10(k) && n < bound
    ensures |Print(n)| <= k
    decreases k
  {
    if n >= 10 {
      PrintLength(n / 10, k - 1, Power10(k - 1));
    }
  }

  function Power10(k: nat): (p: nat)
    ensures p >= 1
  {
    if k == 0 then 1 else 10 * Power10(k - 1)
  }

  lemma {:induction false} PadLength(n: nat, width: nat)
    requires width > 0 && n < Power10(width)
    ensures |Pad(n, width)| == width
  {
    PrintLength(n, width, Power10(width));
  }

  const MAX_U32 := 0xFFFF_FFFF
  const MAX_I32 := 0x7FFF_FFFF

  /** `str::parse::<u32>`: an optional '+', then digits, within range. */
  function ParseU32(s: string): Option<nat> {
    var digits := if StartsWith(s, '+') then s[1..] else s;
    if digits == [] || !AllDigits(digits) || Value(digits) > MAX_U32 then None else Some(Value(digits))
  }

  /** `str::parse::<i32>`: an optional sign, then digits, within range. */
  function ParseI32(s: string): Option<int> {
    var digits := if StartsWith(s, '+') || StartsWith(s, '-') then s[1..] else s;
    if digits == [] || !AllDigits(digits) then None
    else if StartsWith(s, '-') then
      var v: int := Value(digits);
      if v > MAX_I32 + 1 then None else Some(-v)
    else if Value(digits) > MAX_I32 then None
    else Some(Value(digits))
  }

  lemma {:induction false} ParsePad(n: nat, width: nat)
    requires n <= MAX_I32
    ensures ParseU32(Pad(n, width)) == Some(n)
    ensures ParseI32(Pad(n, width)) == Some(n)
  {
    hide Pad, Value;
  }

  lemma {:induction false} ParsePrint(n: nat)
    requires n <= MAX_I32
    ensures ParseU32(Print(n)) == Some(n)
    ensures ParseI32(Print(n)) == Some(n)
  {
    hide Print, Value;
  }
}
