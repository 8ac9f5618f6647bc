/** Powers of two, exclusive-or on the low bits of naturals, and the key fingerprint. */
module Bits {

  function Pow2(n: nat): (r: nat)
    ensures r >= 1
  {
    if n == 0 then 1 else 2 * Pow2(n - 1)
  }

  /** The low `n` bits of the exclusive-or of `a` and `b`: `(a ^ b) & (2^n - 1)`. */
  function XorLow(a: nat, b: nat, n: nat): (r: nat)
    ensures r < Pow2(n)
  {
    if n == 0 then 0 else (a % 2 + b % 2) % 2 + 2 * XorLow(a / 2, b / 2, n - 1)
  }

  lemma Digits(digit: nat, rest: nat)
    requires digit < 2
    ensures (digit + 2 * rest) / 2 == rest && (digit + 2 * rest) % 2 == digit
  {
  }

  lemma Flip(x: nat, y: nat)
    requires x < 2 && y < 2
    ensures ((x + y) % 2 + y) % 2 == x
  {
  }

  lemma OneDigit(digit: nat, rest: nat, b: nat, n: nat)
    requires digit < 2 && n > 0
    ensures XorLow(digit + 2 * rest, b, n) == (digit + b % 2) % 2 + 2 * XorLow(rest, b / 2, n - 1)
  {
    Digits(digit, rest);
  }

  lemma {:induction false} XorLowInvolution(a: nat, b: nat, n: nat)
    requires a < Pow2(n)
    ensures XorLow(XorLow(a, b, n), b, n) == a
  {
    if n > 0 {
      XorLowInvolution(a / 2, b / 2, n - 1);
      var digit, rest := (a % 2 + b % 2) % 2, XorLow(a / 2, b / 2, n - 1);
      assert XorLow(a, b, n) == digit + 2 * rest;
      hide XorLow;
      OneDigit(digit, rest, b, n);
      Flip(a % 2, b % 2);
    }
  }

  /** Some probe with index below 2^n lands on slot `s`. */
  ghost predicate Probed(seed: nat, n: nat, s: nat) {
    exists i :: 0 <= i < Pow2(n) && XorLow(i, seed, n) == s
  }

  /** The probe order of an insert, slot `(i ^ seed) & (bf - 1)` for i = 0 .. bf - 1, visits
      every one of the `bf = 2^n` slots, whatever the seed, and no slot twice. */
  lemma ProbeIsPermutation(seed: nat, n: nat)
    ensures forall s :: 0 <= s < Pow2(n) ==> Probed(seed, n, s)
    ensures forall i, j :: 0 <= i < j < Pow2(n) ==> XorLow(i, seed, n) != XorLow(j, seed, n)
  {
    forall s | 0 <= s < Pow2(n)
      ensures Probed(seed, n, s)
    {
      XorLowInvolution(s, seed, n);
    }
    forall i, j | 0 <= i < j < Pow2(n)
      ensures XorLow(i, seed, n) != XorLow(j, seed, n)
    {
      XorLowInvolution(i, seed, n);
      XorLowInvolution(j, seed, n);
    }
  }

  /** The exclusive-or of the bytes of a key, the key being the big-endian number they spell. */
  function Fp(key: nat): (fp: nat)
    ensures fp < 256
  {
    if key == 0 then 0 else
      assert Pow2(8) == 256 by { assert Pow2(4) == 16; }
      XorLow(Fp(key / 256), key % 256, 8)
  }

  type Byte = b: nat | b < 256

  function BigEndian(bytes: seq<Byte>): nat {
    if bytes == [] then 0 else 256 * BigEndian(bytes[..|bytes| - 1]) + bytes[|bytes| - 1]
  }

  lemma XorLowZero(n: nat)
    ensures XorLow(0, 0, n) == 0
  {
  }

  /** A 16-bit exclusive-or of two values below 256 stays below 256. */
  lemma XorLowNarrow(a: nat, b: nat)
    requires a < 256 && b < 256
    ensures XorLow(a, b, 16) == XorLow(a, b, 8) < 256
  {
    assert Pow2(8) == 256 by { assert Pow2(4) == 16; }
    XorLowAbove(a, b, 8, 16);
  }

  lemma {:induction false} XorLowAbove(a: nat, b: nat, n: nat, m: nat)
    requires a < Pow2(n) && b < Pow2(n) && n <= m
    ensures XorLow(a, b, m) == XorLow(a, b, n)
  {
    if n == 0 {
      XorLowZero(m);
    } else {
      XorLowAbove(a / 2, b / 2, n - 1, m - 1);
    }
  }

  lemma FpZero()
    ensures Fp(0) == 0
  {
  }

  lemma FpStep(key: nat, byte: Byte)
    ensures Fp(256 * key + byte) == XorLow(Fp(key), byte, 8)
  {
    var whole := 256 * key + byte;
    assert whole / 256 == key && whole % 256 == byte;
    XorLowZero(8);
  }

  /** The fingerprint loop over the bytes of a key, on a 16-bit accumulator whose low twelve
      bits are kept: the result is the fold `Fp`, and the fold never leaves eight bits. */
  method Fingerprint(bytes: seq<Byte>) returns (value: nat)
    ensures value == Fp(BigEndian(bytes))
    ensures value < 256
  {
    hide Fp, XorLow;
    FpZero();
    var hash := 0;
    for i := 0 to |bytes|
      invariant hash < 256 && hash == Fp(BigEndian(bytes[..i]))
    {
      assert bytes[..i + 1][..i] == bytes[..i];
      assert BigEndian(bytes[..i + 1]) == 256 * BigEndian(bytes[..i]) + bytes[i];
      FpStep(BigEndian(bytes[..i]), bytes[i]);
      XorLowNarrow(hash, bytes[i]);
      hash := XorLow(hash, bytes[i], 16);
    }
    assert bytes[..|bytes|] == bytes;
    value := hash % 4096;
  }
}
