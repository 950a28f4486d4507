/** Bytes, ASCII text, and the decimal rendering that Python's `%d` gives a
    non-negative integer inside a bytes template. */
module Decimal {

  type byte = b: int | 0 <= b < 256

  /** The bytes of a text, one per character. Every text encoded here is an
      ASCII literal of the source (a `b"..."` literal or a header that
      `http.server` encodes as Latin-1), where the byte is the code point;
      the reduction modulo 256 only keeps the function total. */
  function Ascii(s: string): (r: seq<byte>)
    ensures |r| == |s|
    ensures forall i :: 0 <= i < |s| && s[i] as int < 256 ==> r[i] == s[i] as int
  {
    seq(|s|, i requires 0 <= i < |s| => (s[i] as int) % 256)
  }

  /** The ASCII codes of '0' .. '9'. */
  predicate IsDigit(b: byte)
  {
    48 <= b <= 57
  }

  function DigitByte(d: nat): (b: byte)
    requires d < 10
  {
    48 + d
  }

  /** `b"%d" % n`: the shortest decimal rendering of `n`. */
  function Digits(n: nat): (r: seq<byte>)
    ensures |r| > 0
    ensures forall i :: 0 <= i < |r| ==> IsDigit(r[i])
    ensures |r| > 1 ==> r[0] != 48
    decreases n
  {
    if n < 10 then [DigitByte(n)]
    else Digits(n / 10) + [DigitByte(n % 10)]
  }

  /** The value of a sequence of decimal digits, most significant first. */
  function ValueOf(ds: seq<byte>): nat
    requires forall i :: 0 <= i < |ds| ==> IsDigit(ds[i])
  {
    if ds == [] then 0
    else
      assert IsDigit(ds[|ds| - 1]);
      ValueOf(ds[..|ds| - 1]) * 10 + (ds[|ds| - 1] as int - 48)
  }

  /** Reading back the rendering of `n` gives `n`. */
  lemma {:induction false} DigitsRoundTrip(n: nat)
    ensures ValueOf(Digits(n)) == n
    decreases n
  {
    if n >= 10 {
      DigitsRoundTrip(n / 10);
      var ds := Digits(n);
      assert ds[..|ds| - 1] == Digits(n / 10);
    }
  }

  /** The number of leading digit bytes. */
  function DigitRun(bs: seq<byte>): (k: nat)
    ensures k <= |bs|
    ensures forall i :: 0 <= i < k ==> IsDigit(bs[i])
    ensures k < |bs| ==> !IsDigit(bs[k])
  {
    if bs == [] || !IsDigit(bs[0]) then 0
    else
      var k := DigitRun(bs[1..]);
      assert forall i :: 1 <= i < k + 1 ==> bs[i] == bs[1..][i - 1];
      k + 1
  }

  /** A digit run followed by a non-digit is read up to the non-digit. */
  lemma {:induction false} DigitRunStops(ds: seq<byte>, rest: seq<byte>)
    requires forall i :: 0 <= i < |ds| ==> IsDigit(ds[i])
    requires rest != [] && !IsDigit(rest[0])
    ensures DigitRun(ds + rest) == |ds|
    decreases |ds|
  {
    if ds == [] {
      assert ds + rest == rest;
    } else {
      assert (ds + rest)[1..] == ds[1..] + rest;
      DigitRunStops(ds[1..], rest);
    }
  }
}
