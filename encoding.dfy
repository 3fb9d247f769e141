/** The text forms graph-ts gives to byte strings and big integers:
    `Bytes.toHex` (lower-case hexadecimal after "0x") and `BigInt.toString`
    (decimal), each with a parser proved to be its inverse. */
module Encoding {
  import opened Wrappers

  newtype Byte = x: int | 0 <= x < 256

  type Bytes = seq<Byte>

  /** The lower-case hexadecimal digit for a nibble. */
  function HexChar(n: int): (c: char)
    requires 0 <= n < 16
    ensures c != '-'
  {
    if n < 10 then ('0' as int + n) as char else ('a' as int + n - 10) as char
  }

  /** The value of a lower-case hexadecimal digit, if `c` is one. */
  function HexValue(c: char): (r: Option<int>)
    ensures r.Some? ==> 0 <= r.value < 16 && HexChar(r.value) == c
  {
    if '0' <= c <= '9' then Some(c as int - '0' as int)
    else if 'a' <= c <= 'f' then Some(c as int - 'a' as int + 10)
    else None
  }

  /** Two digits per byte, high nibble first. */
  function HexDigits(b: Bytes): (s: string)
    ensures |s| == 2 * |b|
    ensures '-' !in s
  {
    if b == [] then []
    else [HexChar(b[0] as int / 16), HexChar(b[0] as int % 16)] + HexDigits(b[1..])
  }

  /** `Bytes.toHex`: "0x" followed by the digits. */
  function ToHex(b: Bytes): (s: string)
    ensures |s| == 2 + 2 * |b| && s[0] == '0' && s[1] == 'x'
    ensures '-' !in s
  {
    "0x" + HexDigits(b)
  }

  function ParseHexDigits(s: string): (r: Option<Bytes>)
    decreases |s|
  {
    if s == [] then Some([])
    else if |s| < 2 then None
    else
      match (HexValue(s[0]), HexValue(s[1]), ParseHexDigits(s[2..]))
      case (Some(hi), Some(lo), Some(rest)) => Some([(hi * 16 + lo) as Byte] + rest)
      case _ => None
  }

  /** Reads back the output of `ToHex`. */
  function ParseHex(s: string): (r: Option<Bytes>)
    ensures r.Some? ==> |s| == 2 + 2 * |r.value|
  {
    if |s| >= 2 && s[0] == '0' && s[1] == 'x' then ParseHexDigitsLength(s[2..]); ParseHexDigits(s[2..]) else None
  }

  lemma {:induction false} ParseHexDigitsLength(s: string)
    ensures ParseHexDigits(s).Some? ==> |s| == 2 * |ParseHexDigits(s).value|
    decreases |s|
  {
    if |s| >= 2 {
      ParseHexDigitsLength(s[2..]);
    }
  }

  lemma {:induction false} HexDigitsRoundTrip(b: Bytes)
    ensures ParseHexDigits(HexDigits(b)) == Some(b)
  {
    if b != [] {
      var s := HexDigits(b);
      var hi, lo := b[0] as int / 16, b[0] as int % 16;
      assert s[0] == HexChar(hi) && s[1] == HexChar(lo);
      assert s[2..] == HexDigits(b[1..]);
      HexDigitsRoundTrip(b[1..]);
      assert HexValue(HexChar(hi)) == Some(hi);
      assert HexValue(HexChar(lo)) == Some(lo);
      assert [(hi * 16 + lo) as Byte] + b[1..] == b;
    }
  }

  /** `ParseHex` inverts `ToHex`, so `ToHex` never maps two byte strings to one text. */
  lemma HexRoundTrip(b: Bytes)
    ensures ParseHex(ToHex(b)) == Some(b)
  {
    var s := ToHex(b);
    assert s[2..] == HexDigits(b);
    HexDigitsRoundTrip(b);
  }

  lemma ToHexInjective(a: Bytes, b: Bytes)
    ensures ToHex(a) == ToHex(b) <==> a == b
  {
    if ToHex(a) == ToHex(b) {
      HexRoundTrip(a);
      HexRoundTrip(b);
    }
  }

  function DigitChar(d: int): char
    requires 0 <= d < 10
  {
    ('0' as int + d) as char
  }

  /** `BigInt.toString` for a non-negative value: decimal, no leading zeros. */
  function Decimal(n: nat): (s: string)
    ensures |s| >= 1
    ensures forall i :: 0 <= i < |s| ==> '0' <= s[i] <= '9'
    ensures (|s| == 1 || s[0] != '0')
  {
    if n < 10 then [DigitChar(n)] else Decimal(n / 10) + [DigitChar(n % 10)]
  }

  /** Reads a non-empty run of decimal digits. */
  function ParseDecimal(s: string): (r: Option<nat>)
    decreases |s|
  {
    if s == [] then None
    else
      var d := s[|s| - 1];
      if !('0' <= d <= '9') then None
      else if |s| == 1 then Some(d as int - '0' as int)
      else
        match ParseDecimal(s[..|s| - 1])
        case None => None
        case Some(v) => Some(v * 10 + (d as int - '0' as int))
  }

  lemma {:induction false} DecimalRoundTrip(n: nat)
    ensures ParseDecimal(Decimal(n)) == Some(n)
  {
    if n >= 10 {
      var s := Decimal(n);
      assert s[..|s| - 1] == Decimal(n / 10);
      DecimalRoundTrip(n / 10);
    }
  }
}
