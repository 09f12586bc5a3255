/** Integers in network byte order. */
module Wire {
  import opened Bytes

  /** The value of bytes read most significant first. */
  function Value(b: bytes): (v: nat) {
    if b == [] then 0 else Value(b[..|b| - 1]) * 256 + b[|b| - 1] as nat
  }

  function Power(n: nat): (p: nat)
    ensures p > 0
  {
    if n == 0 then 1 else Power(n - 1) * 256
  }

  /** Byte `k` of `v`, counted from the least significant. */
  function Digit(v: nat, k: nat): byte {
    (v / Power(k) % 256) as byte
  }

  lemma {:induction false} ValueBound(b: bytes)
    ensures Value(b) < Power(|b|)
  {
    if b != [] { ValueBound(b[..|b| - 1]); }
  }

  /** Network order: the first byte weighs most. */
  lemma {:induction false} FirstWeighsMost(b: bytes)
    requires b != []
    ensures Value(b) == b[0] as nat * Power(|b| - 1) + Value(b[1..])
  {
    var n := |b| - 1;
    if n == 0 {
      assert b[..0] == [] && b[1..] == [];
    } else {
      FirstWeighsMost(b[..n]);
      assert b[..n][1..] == b[1..][..n - 1] && b[1..][n - 1] == b[n];
      Scaled(b[0] as nat, Power(n - 1), Value(b[..n][1..]));
    }
  }

  lemma Scaled(a: nat, p: nat, v: nat)
    ensures (a * p + v) * 256 == a * (p * 256) + v * 256
  {
  }

  lemma NextPower(v: nat, k: nat)
    ensures v / 256 / Power(k) == v / Power(k + 1)
  {
    var p, q := Power(k), v / 256;
    var d := q / p;
    assert v == q * 256 + v % 256 && q == d * p + q % p;
    assert v == d * (p * 256) + (q % p * 256 + v % 256);
    assert q % p * 256 + v % 256 < p * 256 by {
      assert q % p <= p - 1;
    }
    Quotient(v, p * 256, d, q % p * 256 + v % 256);
  }

  lemma Quotient(v: nat, p: nat, d: nat, r: nat)
    requires p > 0 && r < p && v == d * p + r
    ensures v / p == d
  {
    var e := v / p;
    Apart(p, d, e);
    Apart(p, e, d);
  }

  lemma {:induction false} Apart(p: nat, a: nat, b: nat)
    requires p > 0
    ensures a < b ==> a * p + p <= b * p
  {
    if a < b {
      OneMore(b - 1, p);
      Apart(p, a, b - 1);
    }
  }

  lemma OneMore(a: nat, p: nat)
    ensures (a + 1) * p == a * p + p
  {
  }

  /** `b` holds the low |b| bytes of `v`, most significant first. */
  predicate Digits(b: bytes, v: nat) {
    forall k :: 0 <= k < |b| ==> b[|b| - 1 - k] == Digit(v, k)
  }

  /** Reading back what was written gives the value, for every value that fits. */
  lemma {:induction false} DigitsValue(b: bytes, v: nat)
    requires Digits(b, v) && v < Power(|b|)
    ensures Value(b) == v
  {
    if b != [] {
      var c, q := b[..|b| - 1], v / 256;
      forall k | 0 <= k < |c| ensures c[|c| - 1 - k] == Digit(q, k) {
        NextPower(v, k);
        assert c[|c| - 1 - k] == b[|b| - 1 - (k + 1)] == Digit(v, k + 1);
      }
      DigitsValue(c, q);
      assert b[|b| - 1 - 0] == Digit(v, 0);
    }
  }

  /** Writing back what was read gives the same bytes. */
  lemma {:induction false} ValueDigits(b: bytes)
    ensures Digits(b, Value(b))
  {
    if b != [] {
      var c, v := b[..|b| - 1], Value(b);
      ValueDigits(c);
      assert v / 256 == Value(c) && v % 256 == b[|b| - 1] as nat;
      forall k | 0 <= k < |b| ensures b[|b| - 1 - k] == Digit(v, k) {
        if k > 0 {
          NextPower(v, k - 1);
          assert b[|b| - 1 - k] == c[|c| - 1 - (k - 1)] == Digit(v / 256, k - 1);
        }
      }
    }
  }

  lemma Powers()
    ensures Power(1) == 0x100 && Power(2) == 0x1_0000 && Power(3) == 0x100_0000 && Power(4) == 0x1_0000_0000
    ensures Power(5) == 0x100_0000_0000 && Power(6) == 0x1_0000_0000_0000 && Power(7) == 0x100_0000_0000_0000
    ensures Power(8) == 0x1_0000_0000_0000_0000 && Power(0) == 1
  {
    assert Power(2) == Power(1) * 256 && Power(3) == Power(2) * 256 && Power(4) == Power(3) * 256;
    assert Power(5) == Power(4) * 256 && Power(6) == Power(5) * 256 && Power(7) == Power(6) * 256;
  }

  method PutUint16(buffer: array<byte>, at: nat, v: nat)
    requires v < 0x1_0000 && at + 2 <= buffer.Length
    modifies buffer
    ensures Digits(buffer[at..at + 2], v)
    ensures forall i :: 0 <= i < buffer.Length && !(at <= i < at + 2) ==> buffer[i] == old(buffer[i])
  {
    Powers();
    buffer[at] := (v / 0x100 % 256) as byte;
    buffer[at + 1] := (v % 256) as byte;
  }

  method PutUint32(buffer: array<byte>, at: nat, v: nat)
    requires v < 0x1_0000_0000 && at + 4 <= buffer.Length
    modifies buffer
    ensures Digits(buffer[at..at + 4], v)
    ensures forall i :: 0 <= i < buffer.Length && !(at <= i < at + 4) ==> buffer[i] == old(buffer[i])
  {
    Powers();
    buffer[at] := (v / 0x100_0000 % 256) as byte;
    buffer[at + 1] := (v / 0x1_0000 % 256) as byte;
    buffer[at + 2] := (v / 0x100 % 256) as byte;
    buffer[at + 3] := (v % 256) as byte;
  }

  method PutUint64(buffer: array<byte>, at: nat, v: nat)
    requires v < 0x1_0000_0000_0000_0000 && at + 8 <= buffer.Length
    modifies buffer
    ensures Digits(buffer[at..at + 8], v)
    ensures forall i :: 0 <= i < buffer.Length && !(at <= i < at + 8) ==> buffer[i] == old(buffer[i])
  {
    buffer[at] := (v / 0x100_0000_0000_0000 % 256) as byte;
    buffer[at + 1] := (v / 0x1_0000_0000_0000 % 256) as byte;
    buffer[at + 2] := (v / 0x100_0000_0000 % 256) as byte;
    buffer[at + 3] := (v / 0x1_0000_0000 % 256) as byte;
    buffer[at + 4] := (v / 0x100_0000 % 256) as byte;
    buffer[at + 5] := (v / 0x1_0000 % 256) as byte;
    buffer[at + 6] := (v / 0x100 % 256) as byte;
    buffer[at + 7] := (v % 256) as byte;
    Powers();
    hide Power;
    Eight(buffer[at..at + 8], v);
  }

  lemma Eight(b: bytes, v: nat)
    requires |b| == 8 && b[7] == Digit(v, 0) && b[6] == Digit(v, 1) && b[5] == Digit(v, 2) && b[4] == Digit(v, 3)
    requires b[3] == Digit(v, 4) && b[2] == Digit(v, 5) && b[1] == Digit(v, 6) && b[0] == Digit(v, 7)
    ensures Digits(b, v)
  {
    hide Digit;
  }

  function GetUint16(b: bytes): (v: nat)
    requires |b| == 2
    ensures v == Value(b)
  {
    ValueTail(b, 1);
    b[0] as nat * 0x100 + b[1] as nat
  }

  function GetUint32(b: bytes): (v: nat)
    requires |b| == 4
    ensures v == Value(b)
  {
    ValueTail(b, 3);
    b[0] as nat * 0x100_0000 + b[1] as nat * 0x1_0000 + b[2] as nat * 0x100 + b[3] as nat
  }

  function GetUint64(b: bytes): (v: nat)
    requires |b| == 8
    ensures v == Value(b)
  {
    ValueTail(b, 7);
    b[0] as nat * 0x100_0000_0000_0000 + b[1] as nat * 0x1_0000_0000_0000 + b[2] as nat * 0x100_0000_0000
    + b[3] as nat * 0x1_0000_0000 + b[4] as nat * 0x100_0000 + b[5] as nat * 0x1_0000 + b[6] as nat * 0x100 + b[7] as nat
  }

  /** The value byte by byte: Horner's rule along the prefixes. */
  lemma {:induction false} ValueTail(b: bytes, k: nat)
    requires k < |b|
    ensures Value(b[..1]) == b[0] as nat
    ensures forall i :: 1 <= i <= k ==> Value(b[..i + 1]) == Value(b[..i]) * 256 + b[i] as nat
    ensures b[..|b|] == b
  {
    assert b[..1][..0] == [];
    forall i | 1 <= i <= k ensures Value(b[..i + 1]) == Value(b[..i]) * 256 + b[i] as nat {
      assert b[..i + 1][..i] == b[..i];
    }
  }
}
