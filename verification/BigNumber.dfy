/** `BigNumber`: numbers as little-endian bytes and as hexadecimal text. */
module BigNumber {
  import opened Basics

  // ---- Positional notation ----

  function Power(base: nat, e: nat): nat { if e == 0 then 1 else base * Power(base, e - 1) }

  ghost predicate DigitsBelow(base: nat, ds: seq<nat>) { forall i | 0 <= i < |ds| :: ds[i] < base }

  /** The digits of `n`, most significant first, without leading zeros (one zero for 0). */
  function Digits(base: nat, n: nat): (ds: seq<nat>)
    requires base >= 2
    ensures DigitsBelow(base, ds) && ds != []
  {
    if n < base then [n] else Shrinks(base, n); Digits(base, n / base) + [n % base]
  }

  function Value(base: nat, ds: seq<nat>): nat {
    if ds == [] then 0 else Value(base, ds[..|ds| - 1]) * base + ds[|ds| - 1]
  }

  function Zeros(n: nat): seq<nat> { seq(n, _ => 0) }

  function Reversed(s: seq<nat>): (r: seq<nat>)
    ensures |r| == |s| && forall i | 0 <= i < |s| :: r[i] == s[|s| - 1 - i]
  {
    seq(|s|, i requires 0 <= i < |s| => s[|s| - 1 - i])
  }

  lemma Shrinks(base: nat, n: nat)
    requires base >= 2
    ensures n == (n / base) * base + n % base && 0 <= n % base < base && (n > 0 ==> n / base < n)
  {
    var q, r := n / base, n % base;
    assert q * base + r == n;
    if n > 0 && q >= n {
      Double(base, q);
    }
  }

  lemma Double(base: nat, q: nat)
    requires base >= 2
    ensures q * base >= 2 * q
  {
  }

  lemma {:induction false} ValueOfDigits(base: nat, n: nat)
    requires base >= 2
    ensures Value(base, Digits(base, n)) == n
  {
    hide Value;
    if n < base {
      ValueOne(base, n);
    } else {
      Shrinks(base, n);
      var q, d := n / base, n % base;
      ValueOfDigits(base, q);
      ValueAppend(base, Digits(base, q), d);
    }
  }

  lemma ValueOne(base: nat, d: nat)
    ensures Value(base, [d]) == d
  {
    assert [d][..0] == [];
  }

  lemma ValueAppend(base: nat, ds: seq<nat>, d: nat)
    ensures Value(base, ds + [d]) == Value(base, ds) * base + d
  {
    assert (ds + [d])[..|ds|] == ds;
  }

  /** Padding the digits of a value back to the length it was read from restores every digit, leading zeros included. */
  lemma {:induction false} DigitsOfValue(base: nat, ds: seq<nat>)
    requires base >= 2 && ds != [] && DigitsBelow(base, ds)
    ensures var d := Digits(base, Value(base, ds)); |d| <= |ds| && ds == Zeros(|ds| - |d|) + d
    decreases |ds|
  {
    hide Value;
    var front, last := ds[..|ds| - 1], ds[|ds| - 1];
    assert ds == front + [last];
    if front == [] {
      ValueOne(base, last);
      assert ds == [last];
    } else {
      DigitsOfValue(base, front);
      var v := Value(base, front);
      ValueAppend(base, front, last);
      DigitsAppend(base, v, last);
      if v == 0 {
        assert Zeros(|front| - 1) + [0] == Zeros(|front|);
      } else {
        var d := Digits(base, v);
        assert Zeros(|front| - |d|) + d + [last] == Zeros(|front| - |d|) + (d + [last]);
      }
    }
  }

  lemma DigitsAppend(base: nat, v: nat, last: nat)
    requires base >= 2 && last < base
    ensures Digits(base, v * base + last) == if v == 0 then [last] else Digits(base, v) + [last]
  {
    Quotient(base, v, last);
  }

  lemma Quotient(base: nat, q: nat, r: nat)
    requires r < base
    ensures (q * base + r) / base == q && (q * base + r) % base == r && (q > 0 ==> q * base + r >= base)
  {
    var n := q * base + r;
    assert (n / base - q) * base == r - n % base;
    if n / base > q { Scale(base, n / base - q); }
    if n / base < q { Scale(base, q - n / base); }
    if q > 0 { Scale(base, q); }
  }

  lemma Scale(base: nat, k: int)
    requires k >= 1
    ensures k * base >= base
  {
  }

  /** How many digits a number has. */
  lemma {:induction false} DigitCount(base: nat, n: nat, k: nat)
    requires base >= 2
    ensures |Digits(base, n)| <= k + 1 <==> n < Power(base, k + 1)
  {
    if n < base {
      if k > 0 { PowerAtLeast(base, k); Scale(base, Power(base, k)); }
    } else if k > 0 {
      Shrinks(base, n);
      DigitCount(base, n / base, k - 1);
      Below(base, n, Power(base, k));
    }
  }

  lemma Below(base: nat, n: nat, m: nat)
    requires base >= 1
    ensures n / base < m <==> n < base * m
  {
    var q, r := n / base, n % base;
    assert n == base * q + r;
    if q < m { Times(base, q + 1, m); } else { Times(base, m, q); }
  }

  lemma Times(base: nat, a: nat, b: nat)
    requires a <= b
    ensures base * a <= base * b
  {
  }

  lemma {:induction false} PowerAtLeast(base: nat, k: nat)
    requires base >= 1
    ensures Power(base, k) >= 1
  {
    if k > 0 { PowerAtLeast(base, k - 1); Scale(base, Power(base, k - 1)); }
  }

  // ---- Bytes, least significant first ----

  function SetBinary(bytes: seq<byte>): nat { Value(256, Reversed(bytes)) }

  function AsByteArray(n: nat, minSize: nat): seq<byte> {
    var be := Digits(256, n);
    var length := if minSize > |be| then minSize else |be|;
    var padded: seq<nat> := Zeros(length - |be|) + be;
    Reversed(padded)
  }

  function NumBytes(n: nat): nat { if n == 0 then 0 else |Digits(256, n)| }

  /** The first byte counts ones. */
  lemma LittleEndian(low: byte, rest: seq<byte>)
    ensures SetBinary([low] + rest) == low + 256 * SetBinary(rest)
  {
    hide Value;
    ValueAppend(256, Reversed(rest), low);
    assert Reversed([low] + rest) == Reversed(rest) + [low];
  }

  /** Writing to `k` bytes what was read from `k` bytes gives the same bytes, high zero bytes included. */
  lemma BytesRoundTrip(bytes: seq<byte>)
    requires bytes != []
    ensures AsByteArray(SetBinary(bytes), |bytes|) == bytes
  {
    var be: seq<nat> := Reversed(bytes);
    DigitsOfValue(256, be);
    assert Reversed(be) == bytes;
  }

  /** Reading what was written gives the same number, whatever the padding. */
  lemma NumberRoundTrip(n: nat, minSize: nat)
    ensures SetBinary(AsByteArray(n, minSize)) == n
  {
    var be := Digits(256, n);
    var pad := |AsByteArray(n, minSize)| - |be|;
    assert Reversed(AsByteArray(n, minSize)) == Zeros(pad) + be;
    LeadingZeros(256, pad, be);
    ValueOfDigits(256, n);
  }

  lemma {:induction false} LeadingZeros(base: nat, k: nat, ds: seq<nat>)
    ensures Value(base, Zeros(k) + ds) == Value(base, ds)
    decreases k + |ds|
  {
    var all := Zeros(k) + ds;
    if ds != [] {
      LeadingZeros(base, k, ds[..|ds| - 1]);
      assert all[..|all| - 1] == Zeros(k) + ds[..|ds| - 1];
    } else if k > 0 {
      LeadingZeros(base, k - 1, []);
      assert all[..k - 1] == Zeros(k - 1) + [];
    }
  }

  /** A number below 256^k written to `k` bytes takes exactly `k`. */
  lemma ByteLength(n: nat, k: nat)
    requires k > 0
    ensures |AsByteArray(n, k)| == k <==> n < Power(256, k)
    ensures |AsByteArray(n, 0)| <= k <==> n < Power(256, k)
  {
    DigitCount(256, n, k - 1);
  }

  // ---- Hexadecimal text, most significant first ----

  function HexChar(d: nat): (c: char)
    requires d < 16
    ensures HexValue(c) == Some(d) && !IsSpace(c) && c == "0123456789ABCDEF"[d]
  {
    if d < 10 then '0' + d as char else 'A' + (d - 10) as char
  }

  function HexValue(c: char): (r: Option<nat>)
    ensures r.Some? ==> r.value < 16
  {
    if '0' <= c <= '9' then Some((c - '0') as nat)
    else if 'A' <= c <= 'F' then Some((c - 'A') as nat + 10)
    else if 'a' <= c <= 'f' then Some((c - 'a') as nat + 10)
    else None
  }

  predicate IsSpace(c: char) { c == ' ' || '\t' <= c <= '\r' }

  function Trim(s: string): string {
    if s != "" && IsSpace(s[0]) then Trim(s[1..])
    else if s != "" && IsSpace(s[|s| - 1]) then Trim(s[..|s| - 1])
    else s
  }

  /** The value of a text of hexadecimal digits; anything else, and the empty text, is refused. */
  function ParseHex(s: string): Option<nat> {
    if s == "" then None
    else
      var d := HexValue(s[|s| - 1]);
      if d.None? then None
      else if |s| == 1 then d
      else
        var front := ParseHex(s[..|s| - 1]);
        if front.None? then None else Some(front.value * 16 + d.value)
  }

  /** `set_hex_str`: None where the source reports 0 characters and keeps the old number. */
  function SetHexStr(s: string): Option<nat> { ParseHex(Trim(s)) }

  function HexText(ds: seq<nat>): (s: string)
    requires DigitsBelow(16, ds)
    ensures |s| == |ds| && forall i | 0 <= i < |s| :: HexValue(s[i]) == Some(ds[i]) && !IsSpace(s[i])
  {
    seq(|ds|, i requires 0 <= i < |ds| => HexChar(ds[i]))
  }

  function AsHexStr(n: nat): string { HexText(Digits(16, n)) }

  /** Any text of hexadecimal digits reads as the value of its digits. */
  lemma {:induction false} ParseValue(s: string, ds: seq<nat>)
    requires |s| == |ds| > 0 && forall i | 0 <= i < |s| :: HexValue(s[i]) == Some(ds[i])
    ensures ParseHex(s) == Some(Value(16, ds))
    decreases |s|
  {
    var k := |s| - 1;
    if k == 0 {
      assert ds[..0] == [];
    } else {
      ParseValue(s[..k], ds[..k]);
    }
  }

  /** Text written for a number re-reads to the same number. */
  lemma HexRoundTrip(n: nat)
    ensures SetHexStr(AsHexStr(n)) == Some(n)
  {
    var ds := Digits(16, n);
    ParseValue(AsHexStr(n), ds);
    ValueOfDigits(16, n);
  }

  /** Two digits per byte, as a digest is spelt. */
  function Nibbles(bytes: seq<byte>): (ds: seq<nat>)
    ensures DigitsBelow(16, ds) && |ds| == 2 * |bytes|
  {
    if bytes == [] then [] else Nibbles(bytes[..|bytes| - 1]) + [bytes[|bytes| - 1] / 16, bytes[|bytes| - 1] % 16]
  }

  lemma {:induction false} NibblesValue(bytes: seq<byte>)
    ensures Value(16, Nibbles(bytes)) == Value(256, bytes)
  {
    if bytes != [] {
      var front, last := bytes[..|bytes| - 1], bytes[|bytes| - 1];
      NibblesValue(front);
      ValueAppend(16, Nibbles(front), last / 16);
      ValueAppend(16, Nibbles(front) + [last / 16], last % 16);
      assert Nibbles(bytes) == Nibbles(front) + [last / 16] + [last % 16];
    }
  }

  lemma DigestText(bytes: seq<byte>)
    requires bytes != []
    ensures SetHexStr(HexText(Nibbles(bytes))) == Some(Value(256, bytes))
  {
    ParseValue(HexText(Nibbles(bytes)), Nibbles(bytes));
    NibblesValue(bytes);
  }
}
