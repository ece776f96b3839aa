/** 64-bit FNV-1a over bytes, with exclusive-or and multiplication written out on integers. */
module Fnv {
  import opened Options

  const MODULUS := 0x1_0000_0000_0000_0000
  const PRIME := 1_099_511_628_211
  const OFFSET_BASIS := 14_695_981_039_346_656_037

  /** PRIME * INVERSE == 1 + CARRY * MODULUS. */
  const INVERSE := 14_886_173_955_864_302_971
  const CARRY := 887_285_111_055

  type byte = x: int | 0 <= x < 256
  type u64 = x: int | 0 <= x < 0x1_0000_0000_0000_0000

  /******* Exclusive or *******/

  function Xor(a: nat, b: nat): nat
    decreases a + b
  {
    if a == 0 && b == 0 then 0 else (a + b) % 2 + 2 * Xor(a / 2, b / 2)
  }

  function PowerOfTwo(n: nat): nat {
    if n == 0 then 1 else 2 * PowerOfTwo(n - 1)
  }

  lemma {:induction false} XorFits(a: nat, b: nat, bits: nat)
    requires a < PowerOfTwo(bits) && b < PowerOfTwo(bits)
    ensures Xor(a, b) < PowerOfTwo(bits)
    decreases bits
  {
    if bits > 0 {
      XorFits(a / 2, b / 2, bits - 1);
    }
  }

  lemma XorBits(a: nat, b: nat)
    ensures Xor(a, b) / 2 == Xor(a / 2, b / 2) && Xor(a, b) % 2 == (a + b) % 2
  {
  }

  lemma FromBits(a: nat, c: nat)
    requires a / 2 == c / 2 && a % 2 == c % 2
    ensures a == c
  {
  }

  lemma ParityTwice(a: nat, b: nat, x: nat)
    requires x % 2 == (a + b) % 2
    ensures (x + b) % 2 == a % 2
  {
  }

  /** Applying the same bits twice gives the value back. */
  lemma {:induction false} XorUndoesItself(a: nat, b: nat)
    ensures Xor(Xor(a, b), b) == a
    decreases a + b
  {
    var x := Xor(a, b);
    XorBits(a, b);
    XorBits(x, b);
    ParityTwice(a, b, x);
    if a != 0 || b != 0 {
      XorUndoesItself(a / 2, b / 2);
      FromBits(Xor(x, b), a);
    }
  }

  lemma {:induction false} XorCommutes(a: nat, b: nat)
    ensures Xor(a, b) == Xor(b, a)
    decreases a + b
  {
    if a != 0 || b != 0 {
      XorCommutes(a / 2, b / 2);
    }
  }

  lemma {:induction false} PowersAdd(m: nat, n: nat)
    ensures PowerOfTwo(m + n) == PowerOfTwo(m) * PowerOfTwo(n)
    decreases m
  {
    if m > 0 {
      PowersAdd(m - 1, n);
    }
  }

  lemma SixtyFourBits()
    ensures PowerOfTwo(64) == MODULUS
  {
    assert PowerOfTwo(4) == 16;
    PowersAdd(4, 4);
    PowersAdd(8, 8);
    PowersAdd(16, 16);
    PowersAdd(32, 32);
  }

  lemma XorIsU64(a: u64, b: u64)
    ensures Xor(a, b) < MODULUS
  {
    SixtyFourBits();
    XorFits(a, b, 64);
  }

  /******* One byte *******/

  function Step(hash: u64, b: byte): u64 {
    Xor(hash, b) * PRIME % MODULUS
  }

  /** The hash before byte `b` was added. */
  function Unstep(hash: u64, b: byte): u64 {
    XorIsU64(hash * INVERSE % MODULUS, b);
    Xor(hash * INVERSE % MODULUS, b)
  }

  lemma Remainder(x: u64, y: int, k: int)
    requires y == x + MODULUS * k
    ensures y % MODULUS == x
  {
  }

  /** Multiplication by the prime and by its inverse undo each other. */
  lemma MultiplyInverts(x: u64)
    ensures (x * PRIME % MODULUS) * INVERSE % MODULUS == x
    ensures (x * INVERSE % MODULUS) * PRIME % MODULUS == x
  {
    assert PRIME * INVERSE == 1 + CARRY * MODULUS;
    var p, q := x * PRIME / MODULUS, x * INVERSE / MODULUS;
    Remainder(x, (x * PRIME % MODULUS) * INVERSE, x * CARRY - p * INVERSE);
    Remainder(x, (x * INVERSE % MODULUS) * PRIME, x * CARRY - q * PRIME);
  }

  lemma StepInverts(hash: u64, b: byte)
    ensures Unstep(Step(hash, b), b) == hash
    ensures Step(Unstep(hash, b), b) == hash
  {
    XorIsU64(hash, b);
    MultiplyInverts(Xor(hash, b));
    XorUndoesItself(hash, b);
    MultiplyInverts(hash);
    XorUndoesItself(hash * INVERSE % MODULUS, b);
  }

  lemma StepSeparatesBytes(hash: u64, x: byte, y: byte)
    requires Step(hash, x) == Step(hash, y)
    ensures x == y
  {
    XorIsU64(hash, x);
    XorIsU64(hash, y);
    MultiplyInverts(Xor(hash, x));
    MultiplyInverts(Xor(hash, y));
    XorCommutes(hash, x);
    XorCommutes(hash, y);
    XorUndoesItself(x, hash);
    XorUndoesItself(y, hash);
  }

  /******* Whole inputs *******/

  function Fold(hash: u64, data: seq<byte>): u64
    decreases |data|
  {
    if data == [] then hash else Fold(Step(hash, data[0]), data[1..])
  }

  /** The hash before `data` was added. */
  function Unfold(hash: u64, data: seq<byte>): u64
    decreases |data|
  {
    if data == [] then hash else Unstep(Unfold(hash, data[1..]), data[0])
  }

  /** Hashing a concatenation continues from the hash of its prefix. */
  lemma {:induction false} FoldAppends(hash: u64, a: seq<byte>, b: seq<byte>)
    ensures Fold(hash, a + b) == Fold(Fold(hash, a), b)
    decreases |a|
  {
    if a == [] {
      assert a + b == b;
    } else {
      assert (a + b)[1..] == a[1..] + b;
      FoldAppends(Step(hash, a[0]), a[1..], b);
    }
  }

  /** For any input, adding it is a bijection on hashes. */
  lemma {:induction false} FoldInverts(hash: u64, data: seq<byte>)
    ensures Unfold(Fold(hash, data), data) == hash
    ensures Fold(Unfold(hash, data), data) == hash
    decreases |data|
  {
    if data != [] {
      FoldInverts(Step(hash, data[0]), data[1..]);
      StepInverts(hash, data[0]);
      FoldInverts(hash, data[1..]);
      StepInverts(Unfold(hash, data[1..]), data[0]);
    }
  }

  /** Two inputs of one length that differ in exactly one byte have different hashes. */
  lemma OneByteChangesTheHash(a: seq<byte>, b: seq<byte>, i: nat)
    requires |a| == |b| && i < |a| && a[i] != b[i]
    requires forall k | 0 <= k < |a| && k != i :: a[k] == b[k]
    ensures Fold(OFFSET_BASIS, a) != Fold(OFFSET_BASIS, b)
  {
    var prefix, suffix := a[..i], a[i + 1..];
    assert a == prefix + ([a[i]] + suffix) && b == prefix + ([b[i]] + suffix);
    FoldAppends(OFFSET_BASIS, prefix, [a[i]] + suffix);
    FoldAppends(OFFSET_BASIS, prefix, [b[i]] + suffix);
    var h := Fold(OFFSET_BASIS, prefix);
    assert ([a[i]] + suffix)[1..] == suffix && ([b[i]] + suffix)[1..] == suffix;
    FoldInverts(Step(h, a[i]), suffix);
    FoldInverts(Step(h, b[i]), suffix);
    if Step(h, a[i]) == Step(h, b[i]) {
      StepSeparatesBytes(h, a[i], b[i]);
    }
  }

  /******* Published values *******/

  lemma {:induction false} XorZero(a: nat)
    ensures Xor(a, 0) == a
    decreases a
  {
    if a != 0 {
      XorZero(a / 2);
    }
  }

  /** One bit of an exclusive or. */
  lemma XorStep(a: nat, b: nat, x: nat)
    requires Xor(a / 2, b / 2) == x
    ensures Xor(a, b) == (a + b) % 2 + 2 * x
  {
  }

  lemma FirstXor()
    ensures Xor(OFFSET_BASIS, 0x61) == 0xcbf2_9ce4_8422_2344
  {
    hide Xor;
    XorZero(0x197e539c9084446);
    XorStep(0x32fca739210888c, 0x1, 0x197e539c9084446);
    XorStep(0x65f94e724211119, 0x3, 0x32fca739210888d);
    XorStep(0xcbf29ce48422232, 0x6, 0x65f94e72421111a);
    XorStep(0x197e539c90844464, 0xc, 0xcbf29ce48422234);
    XorStep(0x32fca739210888c9, 0x18, 0x197e539c90844468);
    XorStep(0x65f94e7242111192, 0x30, 0x32fca739210888d1);
    XorStep(0xcbf29ce484222325, 0x61, 0x65f94e72421111a2);
  }

  lemma FoldOne(hash: u64, b: byte)
    ensures Fold(hash, [b]) == Step(hash, b)
  {
    assert [b][1..] == [];
  }

  /** The published hashes of the empty input and of "a". */
  lemma PublishedHashes(data: seq<byte>)
    ensures data == [] ==> Fold(OFFSET_BASIS, data) == 0xcbf2_9ce4_8422_2325
    ensures data == [0x61] ==> Fold(OFFSET_BASIS, data) == 0xaf63_dc4c_8601_ec8c
  {
    if data == [0x61] {
      FoldOne(OFFSET_BASIS, data[0]);
      StepOfA(OFFSET_BASIS, data[0]);
    }
  }

  lemma StepOfA(hash: u64, b: byte)
    requires hash == OFFSET_BASIS && b == 0x61
    ensures Step(hash, b) == 0xaf63_dc4c_8601_ec8c
  {
    FirstXor();
    hide Xor;
    assert 0xcbf2_9ce4_8422_2344 * PRIME % MODULUS == 0xaf63_dc4c_8601_ec8c;
  }

  /** A null pointer is None. */
  method Fnv1a64(data: Option<seq<byte>>) returns (hash: u64)
    ensures hash == if data.Some? then Fold(OFFSET_BASIS, data.value) else OFFSET_BASIS
  {
    if data.None? || |data.value| == 0 {
      return OFFSET_BASIS;
    }
    var bytes := data.value;
    hash := OFFSET_BASIS;
    for i := 0 to |bytes|
      invariant Fold(hash, bytes[i..]) == Fold(OFFSET_BASIS, bytes)
    {
      assert bytes[i..][1..] == bytes[i + 1..];
      XorIsU64(hash, bytes[i]);
      hash := Xor(hash, bytes[i]);
      hash := hash * PRIME % MODULUS;
    }
  }
}