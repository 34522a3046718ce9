/** Bytes and big-endian numbers, as encoding/binary writes and reads them. */
module Octets {
  type byte = x: int | 0 <= x < 256
  type Bytes = seq<byte>

  /** The k low-order bytes of n, most significant first. */
  function BigEndian(n: nat, k: nat): (r: Bytes)
    ensures |r| == k
  {
    if k == 0 then [] else BigEndian(n / 256, k - 1) + [n % 256]
  }

  function Value(bs: Bytes): nat {
    if bs == [] then 0 else Value(bs[..|bs| - 1]) * 256 + bs[|bs| - 1]
  }

  function Range(k: nat): (r: nat)
    ensures r > 0
  {
    if k == 0 then 1 else 256 * Range(k - 1)
  }

  lemma Remainder(n: nat, d: nat, a: nat, x: nat)
    requires d > 0 && n == d * a + x && x < d
    ensures n % d == x
  {
    var q, r := n / d, n % d;
    assert d * (q - a) == x - r;
    Small(d, q - a);
  }

  lemma Small(d: int, k: int)
    requires 0 < d && -d < d * k < d
    ensures k == 0
  {
    assert k >= 1 ==> d * k >= d;
    assert k <= -1 ==> d * k <= -d;
  }

  lemma LastByteSplits(n: nat, p: nat)
    requires p > 0
    ensures n % (256 * p) == ((n / 256) % p) * 256 + n % 256
  {
    var q, r := n / 256, n % 256;
    var a, b := q / p, q % p;
    assert q == p * a + b;
    assert 256 * (p * a) == (256 * p) * a;
    Remainder(n, 256 * p, a, 256 * b + r);
  }

  /** Writing k bytes keeps a number modulo 256^k. */
  lemma {:induction false} ValueOfBigEndian(n: nat, k: nat)
    ensures Value(BigEndian(n, k)) == n % Range(k)
  {
    if k > 0 {
      ValueOfBigEndian(n / 256, k - 1);
      assert BigEndian(n, k)[..k - 1] == BigEndian(n / 256, k - 1);
      LastByteSplits(n, Range(k - 1));
    }
  }

  lemma {:induction false} ValueBound(bs: Bytes)
    ensures Value(bs) < Range(|bs|)
  {
    if bs != [] { ValueBound(bs[..|bs| - 1]); }
  }

  /** Reading k bytes and writing them back is the identity. */
  lemma {:induction false} BigEndianOfValue(bs: Bytes)
    ensures BigEndian(Value(bs), |bs|) == bs
  {
    if bs != [] {
      BigEndianOfValue(bs[..|bs| - 1]);
      assert bs == bs[..|bs| - 1] + [bs[|bs| - 1]];
    }
  }

  lemma DivTwice(n: nat, p: nat)
    requires p > 0
    ensures (n / 256) / p == n / (256 * p)
  {
    var q, r := n / 256, n % 256;
    var a, b := q / p, q % p;
    assert 256 * (p * a) == (256 * p) * a;
    var x := 256 * b + r;
    assert n == (256 * p) * a + x && 0 <= x < 256 * p;
    Quotient(n, 256 * p, a, x);
  }

  lemma Quotient(n: nat, d: nat, a: nat, x: nat)
    requires d > 0 && n == d * a + x && x < d
    ensures n / d == a
  {
    Small(d, n / d - a);
  }

  /** Most significant first: byte i is the digit of weight 256^(k - 1 - i). */
  lemma {:induction false} BigEndianDigit(n: nat, k: nat, i: nat)
    requires i < k
    ensures BigEndian(n, k)[i] == n / Range(k - 1 - i) % 256
  {
    if i < k - 1 {
      BigEndianDigit(n / 256, k - 1, i);
      DivTwice(n, Range(k - 2 - i));
    }
  }

  lemma Ranges()
    ensures Range(4) == 0x1_0000_0000 && Range(8) == 0x1_0000_0000_0000_0000
  {
    assert Range(2) == 65536;
    assert Range(4) == 65536 * 65536;
    assert Range(6) == 65536 * Range(4);
    assert Range(8) == 65536 * Range(6);
  }

  /** s with the bytes from position at replaced by as much of src as fits, as Go's copy does. */
  function Splice(s: Bytes, at: nat, src: Bytes): (r: Bytes)
    requires at <= |s|
    ensures |r| == |s|
  {
    var n := if |src| <= |s| - at then |src| else |s| - at;
    s[..at] + src[..n] + s[at + n..]
  }

  /** copy(buf[at:], src). */
  method Copy(buf: array<byte>, at: nat, src: Bytes)
    requires at <= buf.Length
    modifies buf
    ensures buf[..] == Splice(old(buf[..]), at, src)
  {
    var n := if |src| <= buf.Length - at then |src| else buf.Length - at;
    for i := 0 to n
      invariant forall k :: 0 <= k < buf.Length ==>
                  buf[k] == if at <= k < at + i then src[k - at] else old(buf[k])
    {
      buf[at + i] := src[i];
    }
  }
}
