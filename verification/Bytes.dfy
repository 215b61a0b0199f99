/** Octets, big-endian fields, exclusive-or and the lexicographic order on byte strings. */
module Bytes {
  type byte = x: int | 0 <= x < 256
  type Octets = seq<byte>

  datatype Option<+T> = None | Some(value: T)

  /** 256 to the power n: the number of values of an n-byte field. */
  function Pow256(n: nat): (r: nat)
    ensures r >= 1
  {
    if n == 0 then 1 else 256 * Pow256(n - 1)
  }

  /** The n low-order bytes of v, most significant first (DataView.setUintN, little-endian flag false). */
  function ToBigEndian(v: nat, n: nat): (s: Octets)
    ensures |s| == n
  {
    if n == 0 then [] else ToBigEndian(v / 256, n - 1) + [v % 256]
  }

  function FromBigEndian(s: Octets): (v: nat)
  {
    if |s| == 0 then 0 else FromBigEndian(s[..|s| - 1]) * 256 + s[|s| - 1]
  }

  lemma {:induction false} BigEndianBound(s: Octets)
    ensures FromBigEndian(s) < Pow256(|s|)
  {
    if |s| != 0 {
      BigEndianBound(s[..|s| - 1]);
    }
  }

  /** Writing a field truncates modulo its width; reading it back gives the truncated value. */
  lemma {:induction false} ReadAfterWrite(v: nat, n: nat)
    ensures FromBigEndian(ToBigEndian(v, n)) == v % Pow256(n)
  {
    if n != 0 {
      ReadAfterWrite(v / 256, n - 1);
      var s := ToBigEndian(v, n);
      assert s[..n - 1] == ToBigEndian(v / 256, n - 1);
      ModStep(v, Pow256(n - 1));
    }
  }

  lemma {:induction false} WriteAfterRead(s: Octets)
    ensures ToBigEndian(FromBigEndian(s), |s|) == s
  {
    if |s| != 0 {
      WriteAfterRead(s[..|s| - 1]);
      assert s == s[..|s| - 1] + [s[|s| - 1]];
    }
  }

  /** v mod 256p is assembled from the quotient's residue mod p and the low byte. */
  lemma ModStep(v: nat, p: nat)
    requires p >= 1
    ensures v / 256 % p * 256 + v % 256 == v % (256 * p)
  {
    var q, r := v / 256 / p, v / 256 % p;
    var low := r * 256 + v % 256;
    assert v == (q * p + r) * 256 + v % 256;
    assert v == q * (256 * p) + low by {
      assert q * p * 256 == q * (256 * p);
    }
    assert 0 <= low < 256 * p;
    UniqueRemainder(v, 256 * p, q, low);
  }

  lemma UniqueRemainder(v: nat, m: nat, q: nat, r: nat)
    requires m >= 1 && r < m && v == q * m + r
    ensures v % m == r && v / m == q
  {
    var d := q - v / m;
    assert d * m == v % m - r by {
      assert d * m == q * m - v / m * m;
      assert v == v / m * m + v % m;
    }
    if d >= 1 {
      MultipleIsAtLeast(d, m);
    } else if d <= -1 {
      MultipleIsAtLeast(-d, m);
    }
  }

  lemma MultipleIsAtLeast(k: int, m: nat)
    requires k >= 1
    ensures k * m >= m
  {}

  /** Bitwise exclusive-or of two octets, bit by bit from the least significant end. */
  function XorBits(a: nat, b: nat, bits: nat): (r: nat)
  {
    if bits == 0 then 0
    else (if a % 2 == b % 2 then 0 else 1) + 2 * XorBits(a / 2, b / 2, bits - 1)
  }

  function Pow2(n: nat): (r: nat)
    ensures r >= 1
  {
    if n == 0 then 1 else 2 * Pow2(n - 1)
  }

  lemma {:induction false} XorBitsBound(a: nat, b: nat, bits: nat)
    ensures XorBits(a, b, bits) < Pow2(bits)
  {
    if bits != 0 {
      XorBitsBound(a / 2, b / 2, bits - 1);
    }
  }

  function Xor(a: byte, b: byte): (r: byte)
  {
    XorBitsBound(a, b, 8);
    assert Pow2(8) == 256 by { assert Pow2(3) == 8; assert Pow2(6) == 64; }
    XorBits(a, b, 8)
  }

  lemma {:induction false} XorBitsCancels(a: nat, b: nat, bits: nat)
    requires a < Pow2(bits)
    ensures XorBits(XorBits(a, b, bits), b, bits) == a
  {
    if bits != 0 {
      var x := XorBits(a / 2, b / 2, bits - 1);
      var y := XorBits(a, b, bits);
      assert y / 2 == x;
      XorBitsCancels(a / 2, b / 2, bits - 1);
    }
  }

  /** Masking twice with the same octet restores the original. */
  lemma XorCancels(a: byte, m: byte)
    ensures Xor(Xor(a, m), m) == a
  {
    assert Pow2(8) == 256 by { assert Pow2(3) == 8; assert Pow2(6) == 64; }
    XorBitsCancels(a, m, 8);
  }

  /** Lexicographic comparison: negative, zero or positive; a proper prefix is smaller. */
  function Compare(a: Octets, b: Octets): (r: int)
  {
    if |a| == 0 || |b| == 0 then |a| - |b|
    else if a[0] != b[0] then a[0] - b[0]
    else Compare(a[1..], b[1..])
  }

  lemma {:induction false} CompareIsAntisymmetric(a: Octets, b: Octets)
    ensures Compare(a, b) == -Compare(b, a)
    ensures Compare(a, b) == 0 <==> a == b
  {
    if |a| != 0 && |b| != 0 {
      if a[0] == b[0] {
        CompareIsAntisymmetric(a[1..], b[1..]);
        assert a == [a[0]] + a[1..] && b == [b[0]] + b[1..];
      }
    }
  }

  lemma {:induction false} CompareSkipsEqualPrefix(a: Octets, b: Octets, i: nat)
    requires i <= |a| && i <= |b|
    requires a[..i] == b[..i]
    ensures Compare(a, b) == Compare(a[i..], b[i..])
  {
    if i == 0 {
      assert a[0..] == a && b[0..] == b;
    } else {
      assert a[..i][0] == b[..i][0];
      assert a[1..][..i - 1] == a[..i][1..] && b[1..][..i - 1] == b[..i][1..];
      CompareSkipsEqualPrefix(a[1..], b[1..], i - 1);
      assert a[1..][i - 1..] == a[i..] && b[1..][i - 1..] == b[i..];
    }
  }

  /** The comparison loop of the crypto worker computes the lexicographic order. */
  method CompareBytes(a: array<byte>, b: array<byte>) returns (r: int)
    ensures r == Compare(a[..], b[..])
  {
    var len := if a.Length < b.Length then a.Length else b.Length;
    var i := 0;
    while i < len
      invariant 0 <= i <= len
      invariant a[..i] == b[..i]
    {
      if a[i] != b[i] {
        CompareSkipsEqualPrefix(a[..], b[..], i);
        assert a[..][..i] == a[..i] && b[..][..i] == b[..i];
        var x: int, y: int := a[i], b[i];
        return x - y;
      }
      assert a[..i + 1] == a[..i] + [a[i]] && b[..i + 1] == b[..i] + [b[i]];
      i := i + 1;
    }
    assert a[..][..i] == a[..i] && b[..][..i] == b[..i];
    CompareSkipsEqualPrefix(a[..], b[..], i);
    r := a.Length - b.Length;
  }
}
