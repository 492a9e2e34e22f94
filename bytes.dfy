/**
 * Bytes and byte-oriented text.  Text that the original programs treat as raw
 * bytes (Go strings, C `char` buffers) is modelled as a `string` in which each
 * character stands for one byte: the byte is the character's code modulo 256,
 * which is the code itself for the texts this model is about.
 */
module Bytes {
  /** Byte-oriented text. */
  type Text = string

  /** An unsigned 8-bit value. */
  type Byte = b: int | 0 <= b < 256

  /** The byte values of a text, in order. */
  function BytesOf(s: Text): (r: seq<Byte>)
    ensures |r| == |s|
    ensures forall i :: 0 <= i < |s| ==> r[i] == ByteOf(s[i])
  {
    seq(|s|, i requires 0 <= i < |s| => ByteOf(s[i]))
  }

  /** The byte a character stands for. */
  function ByteOf(c: char): Byte {
    (c as int) % 256
  }

  /** A slice that holds `r + e` holds `r` and then `e`. */
  lemma SplitSlice<T>(c: seq<T>, q: nat, r: seq<T>, e: seq<T>)
    requires q + |r + e| <= |c| && c[q..q + |r + e|] == r + e
    ensures c[q..q + |r|] == r && c[q + |r|..q + |r| + |e|] == e
  {
    assert c[q..q + |r|] == c[q..q + |r + e|][..|r|];
    assert c[q + |r|..q + |r| + |e|] == c[q..q + |r + e|][|r|..];
  }

  /** Moving one element from the front of `s[i..]` to the back of `s[..i]`. */
  lemma StepSlice<T>(s: seq<T>, i: nat)
    requires i < |s|
    ensures s[i..][0] == s[i] && s[i..][1..] == s[i + 1..]
    ensures s[..i + 1] == s[..i] + [s[i]]
  {
  }

  predicate IsPrefix<T(==)>(p: seq<T>, s: seq<T>) {
    |p| <= |s| && s[..|p|] == p
  }

  /** `isdigit` of the C library and `\d` of Go regular expressions. */
  predicate IsDigit(c: char) { '0' <= c <= '9' }

  function DigitValue(c: char): nat
    requires IsDigit(c)
  {
    c as int - '0' as int
  }

  /** The decimal value of a sequence of digits, most significant first. */
  function DigitsValue(s: seq<char>): nat
    requires forall i :: 0 <= i < |s| ==> IsDigit(s[i])
  {
    if |s| == 0 then 0 else 10 * DigitsValue(s[..|s| - 1]) + DigitValue(s[|s| - 1])
  }

  /** One more digit multiplies the value read so far by ten and adds it. */
  lemma DigitsStep(s: seq<char>, i: nat, e: nat)
    requires i <= e < |s| && (forall k :: i <= k < e ==> IsDigit(s[k])) && IsDigit(s[e])
    ensures forall k :: i <= k < e + 1 ==> IsDigit(s[k])
    ensures DigitsValue(s[i..e + 1]) == 10 * DigitsValue(s[i..e]) + DigitValue(s[e])
  {
    assert s[i..e + 1][..e - i] == s[i..e];
  }

  /** The shortest decimal rendering of `n`. */
  function Decimal(n: nat): (r: Text)
    ensures |r| > 0
    ensures forall i :: 0 <= i < |r| ==> IsDigit(r[i])
  {
    if n < 10 then [DigitChar(n)] else Decimal(n / 10) + [DigitChar(n % 10)]
  }

  function DigitChar(d: nat): (c: char)
    requires d < 10
    ensures IsDigit(c) && DigitValue(c) == d
  {
    (('0' as int) + d) as char
  }

  /** Reading back a decimal rendering gives the number. */
  lemma {:induction false} DecimalValue(n: nat)
    ensures DigitsValue(Decimal(n)) == n
  {
    if n >= 10 {
      var s := Decimal(n);
      assert s[..|s| - 1] == Decimal(n / 10);
      DecimalValue(n / 10);
    }
  }

  /** Little-endian 16-bit value of two bytes. */
  function LE16(b0: Byte, b1: Byte): nat { b0 + 256 * b1 }

  /** Little-endian 32-bit value of four bytes. */
  function LE32(b0: Byte, b1: Byte, b2: Byte, b3: Byte): nat {
    b0 + 256 * b1 + 65536 * b2 + 16777216 * b3
  }

  /** Go's `byte(x >> (8*k))`: byte `k` of the two's complement of `x`. */
  function ByteAt(x: int, k: nat): Byte
    requires k < 4
  {
    (x / Pow256(k)) % 256
  }

  function Pow256(k: nat): (r: pos)
    ensures k == 0 ==> r == 1
  {
    if k == 0 then 1 else 256 * Pow256(k - 1)
  }

  type pos = n: int | n > 0 witness 1

  /** The four bytes Go's shifts take from `x` are its value modulo 2^32. */
  lemma LE32OfBytes(x: int)
    ensures LE32(ByteAt(x, 0), ByteAt(x, 1), ByteAt(x, 2), ByteAt(x, 3)) == x % 4294967296
  {
    assert Pow256(1) == 256 && Pow256(2) == 65536 && Pow256(3) == 16777216;
    var q1 := x / 256;
    var q2 := x / 65536;
    var q3 := x / 16777216;
    var q4 := x / 4294967296;
    assert q2 == q1 / 256;
    assert q3 == q2 / 256;
    assert q4 == q3 / 256;
    assert x == 4294967296 * q4 + (x % 256 + 256 * (q1 % 256) + 65536 * (q2 % 256) + 16777216 * (q3 % 256));
  }

  /** The two bytes Go's shifts take from a length are its value modulo 2^16. */
  lemma LE16OfBytes(x: int)
    ensures LE16(ByteAt(x, 0), ByteAt(x, 1)) == x % 65536
  {
    assert Pow256(1) == 256;
    var q1 := x / 256;
    assert q1 / 256 == x / 65536;
  }
}
