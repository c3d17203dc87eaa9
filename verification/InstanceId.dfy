/** `instance_id_for_project`: the FNV-1a loop over the bytes of the instance key, and its eight hexadecimal digits. */
module InstanceId {
  import opened Collections

  const MODULUS := 0x1_0000_0000
  const OFFSET := 2166136261
  const PRIME := 16777619
  const INVERSE := 899433627

  newtype Byte = x: int | 0 <= x < 256

  // ---------- exclusive or ----------

  function PowerOfTwo(n: nat): nat {
    if n == 0 then 1 else 2 * PowerOfTwo(n - 1)
  }

  /** Exclusive or of the lowest `n` bits. */
  function Xor(a: nat, b: nat, n: nat): (r: nat)
    ensures r < PowerOfTwo(n)
  {
    if n == 0 then 0 else 2 * Xor(a / 2, b / 2, n - 1) + (if a % 2 == b % 2 then 0 else 1)
  }

  lemma {:induction false} XorUndoes(a: nat, b: nat, n: nat)
    requires a < PowerOfTwo(n)
    ensures Xor(Xor(a, b, n), b, n) == a
  {
    if n > 0 {
      XorUndoes(a / 2, b / 2, n - 1);
      var x := Xor(a, b, n);
      assert x / 2 == Xor(a / 2, b / 2, n - 1) && (x % 2 == b % 2 <==> a % 2 == 0);
    }
  }

  lemma {:induction false} XorSymmetric(a: nat, b: nat, n: nat)
    ensures Xor(a, b, n) == Xor(b, a, n)
  {
    if n > 0 {
      XorSymmetric(a / 2, b / 2, n - 1);
    }
  }

  lemma {:induction false} EightBits()
    ensures PowerOfTwo(8) == 256
  {
    assert PowerOfTwo(4) == 16 && PowerOfTwo(6) == 64;
  }

  // ---------- one step ----------

  /** `digest ^= byte` changes only the lowest byte. */
  function Mix(digest: nat, b: Byte): (r: nat) {
    digest / 256 * 256 + Xor(digest % 256, b as int, 8)
  }

  lemma {:induction false} MixParts(digest: nat, b: Byte)
    ensures Mix(digest, b) / 256 == digest / 256 && Mix(digest, b) % 256 == Xor(digest % 256, b as int, 8)
    ensures digest < MODULUS ==> Mix(digest, b) < MODULUS
  {
    EightBits();
  }

  lemma {:induction false} MixUndoes(digest: nat, b: Byte)
    ensures Mix(Mix(digest, b), b) == digest
  {
    MixParts(digest, b);
    EightBits();
    XorUndoes(digest % 256, b as int, 8);
  }

  lemma {:induction false} MixDistinguishes(digest: nat, b: Byte, c: Byte)
    requires Mix(digest, b) == Mix(digest, c)
    ensures b == c
  {
    MixParts(digest, b);
    MixParts(digest, c);
    EightBits();
    XorSymmetric(digest % 256, b as int, 8);
    XorSymmetric(digest % 256, c as int, 8);
    XorUndoes(b as int, digest % 256, 8);
    XorUndoes(c as int, digest % 256, 8);
  }

  function Step(digest: nat, b: Byte): (r: nat)
    ensures r < MODULUS
  {
    Mix(digest, b) * PRIME % MODULUS
  }

  function Unstep(digest: nat, b: Byte): nat {
    Mix(digest * INVERSE % MODULUS, b)
  }

  lemma {:induction false} ModIs(a: int, x: int, k: int)
    requires a == x + MODULUS * k && 0 <= x < MODULUS
    ensures a % MODULUS == x
  {
  }

  const QUOTIENT := (PRIME * INVERSE - 1) / MODULUS

  lemma {:induction false} InverseOfPrime()
    ensures PRIME * INVERSE == 1 + MODULUS * QUOTIENT
  {
  }

  /** Multiplying by the prime modulo 2^32 is undone by multiplying by its inverse. */
  lemma {:induction false} UnmultipliesPrime(x: nat)
    requires x < MODULUS
    ensures (x * PRIME % MODULUS) * INVERSE % MODULUS == x
  {
    InverseOfPrime();
    var q := x * PRIME / MODULUS;
    var r := x * PRIME % MODULUS;
    assert r == x * PRIME - MODULUS * q;
    Regroup(x, q, r);
    ModIs(r * INVERSE, x, x * QUOTIENT - q * INVERSE);
  }

  lemma {:induction false} Regroup(x: int, q: int, r: int)
    requires r == x * PRIME - MODULUS * q && PRIME * INVERSE == 1 + MODULUS * QUOTIENT
    ensures r * INVERSE == x + MODULUS * (x * QUOTIENT - q * INVERSE)
  {
  }

  /** Each step is invertible. */
  lemma {:induction false} StepInvertible(digest: nat, b: Byte)
    requires digest < MODULUS
    ensures Unstep(Step(digest, b), b) == digest
  {
    MixParts(digest, b);
    UnmultipliesPrime(Mix(digest, b));
    MixUndoes(digest, b);
  }

  lemma {:induction false} StepDistinguishes(digest: nat, b: Byte, c: Byte)
    requires digest < MODULUS && b != c
    ensures Step(digest, b) != Step(digest, c)
  {
    MixParts(digest, b);
    MixParts(digest, c);
    UnmultipliesPrime(Mix(digest, b));
    UnmultipliesPrime(Mix(digest, c));
    if Step(digest, b) == Step(digest, c) {
      MixDistinguishes(digest, b, c);
    }
  }

  // ---------- the loop ----------

  function Digest(from: nat, key: seq<Byte>): (r: nat)
    ensures from < MODULUS ==> r < MODULUS
  {
    if key == [] then from else Step(Digest(from, key[..|key| - 1]), key[|key| - 1])
  }

  lemma {:induction false} DigestAppend(from: nat, a: seq<Byte>, b: seq<Byte>)
    ensures Digest(from, a + b) == Digest(Digest(from, a), b)
    decreases |b|
  {
    if b == [] {
      assert a + b == a;
    } else {
      assert (a + b)[..|a + b| - 1] == a + b[..|b| - 1];
      DigestAppend(from, a, b[..|b| - 1]);
    }
  }

  /** Different digests stay different over the same bytes. */
  lemma {:induction false} DigestInjective(x: nat, y: nat, key: seq<Byte>)
    requires x < MODULUS && y < MODULUS && x != y
    ensures Digest(x, key) != Digest(y, key)
  {
    if key != [] {
      var front, b := key[..|key| - 1], key[|key| - 1];
      DigestInjective(x, y, front);
      StepInvertible(Digest(x, front), b);
      StepInvertible(Digest(y, front), b);
    }
  }

  // ---------- the id ----------

  function HexDigit(n: nat): char
    requires n < 16
  {
    if n < 10 then '0' + n as char else 'a' + (n - 10) as char
  }

  function HexValue(c: char): nat {
    if '0' <= c <= '9' then c as int - '0' as int else if 'a' <= c <= 'f' then c as int - 'a' as int + 10 else 0
  }

  /** `f"{n:08x}"` for `width` 8; every digest fits. */
  function Hex(n: nat, width: nat): (r: string)
    ensures |r| == width
  {
    if width == 0 then "" else Hex(n / 16, width - 1) + [HexDigit(n % 16)]
  }

  function FromHex(s: string): nat {
    if s == "" then 0 else 16 * FromHex(s[..|s| - 1]) + HexValue(s[|s| - 1])
  }

  function PowerOf16(n: nat): nat {
    if n == 0 then 1 else 16 * PowerOf16(n - 1)
  }

  lemma {:induction false} HexReads(n: nat, width: nat)
    requires n < PowerOf16(width)
    ensures FromHex(Hex(n, width)) == n
  {
    if width > 0 {
      HexReads(n / 16, width - 1);
      var s := Hex(n, width);
      assert s[..|s| - 1] == Hex(n / 16, width - 1);
    }
  }

  lemma {:induction false} EightDigits()
    ensures PowerOf16(8) == MODULUS
  {
    assert PowerOf16(2) == 256 && PowerOf16(4) == 65536 && PowerOf16(6) == 16777216;
  }

  /** `instance_id_for_project`, from the bytes of the normalised key */
  method InstanceIdOf(key: seq<Byte>) returns (id: string)
    ensures id == Hex(Digest(OFFSET, key), 8) && FromHex(id) == Digest(OFFSET, key) < MODULUS
  {
    var digest: nat := OFFSET;
    for i := 0 to |key|
      invariant digest == Digest(OFFSET, key[..i]) < MODULUS
    {
      TakeMore(key, i);
      var front := key[..i];
      assert (front + [key[i]])[..|front|] == front;
      digest := Step(digest, key[i]);
    }
    TakeAll(key);
    EightDigits();
    HexReads(digest, 8);
    id := Hex(digest, 8);
  }

  /** Two keys of equal length that differ in exactly one byte never share an id. */
  lemma {:induction false} OneByteApart(front: seq<Byte>, b: Byte, c: Byte, back: seq<Byte>)
    requires b != c
    ensures Hex(Digest(OFFSET, front + [b] + back), 8) != Hex(Digest(OFFSET, front + [c] + back), 8)
  {
    var x := Digest(OFFSET, front);
    DigestAppend(OFFSET, front, [b]);
    DigestAppend(OFFSET, front, [c]);
    assert [b][..0] == [] && [c][..0] == [];
    StepDistinguishes(x, b, c);
    DigestAppend(OFFSET, front + [b], back);
    DigestAppend(OFFSET, front + [c], back);
    DigestInjective(Step(x, b), Step(x, c), back);
    EightDigits();
    HexReads(Digest(OFFSET, front + [b] + back), 8);
    HexReads(Digest(OFFSET, front + [c] + back), 8);
  }

  // ---------- a known id ----------

  lemma {:induction false} KnownXor()
    ensures Xor(197, 97, 8) == 164
  {
    assert Xor(1, 0, 1) == 1;
    assert Xor(3, 1, 2) == 2;
    assert Xor(6, 3, 3) == 5;
    assert Xor(12, 6, 4) == 10;
    assert Xor(24, 12, 5) == 20;
    assert Xor(49, 24, 6) == 41;
    assert Xor(98, 48, 7) == 82;
  }

  /** The published 32-bit FNV-1a digest of the one-letter key `a`. */
  lemma {:induction false} KnownDigest()
    ensures Digest(OFFSET, [97]) == 0xe40c292c
  {
    KnownXor();
    assert OFFSET % 256 == 197 && Mix(OFFSET, 97) == 2166136228;
    var key: seq<Byte> := [97];
    assert key[..0] == [] && Digest(OFFSET, []) == OFFSET;
    assert Digest(OFFSET, key) == Step(OFFSET, 97);
  }

  /** And the id it gives. */
  lemma {:induction false} KnownId()
    ensures Hex(Digest(OFFSET, [97]), 8) == "e40c292c"
  {
    KnownDigest();
    assert Hex(14, 1) == Hex(0, 0) + [HexDigit(14)];
    assert Hex(228, 2) == Hex(14, 1) + [HexDigit(4)];
    assert Hex(3648, 3) == Hex(228, 2) + [HexDigit(0)];
    assert Hex(58380, 4) == Hex(3648, 3) + [HexDigit(12)];
    assert Hex(934082, 5) == Hex(58380, 4) + [HexDigit(2)];
    assert Hex(14945321, 6) == Hex(934082, 5) + [HexDigit(9)];
    assert Hex(239125138, 7) == Hex(14945321, 6) + [HexDigit(2)];
    assert Hex(3826002220, 8) == Hex(239125138, 7) + [HexDigit(12)];
  }
}
