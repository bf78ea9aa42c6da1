/**
 * `createShortId`: a 32-bit FNV-1a style hash of a string's UTF-16 code
 * units, written out as lowercase hexadecimal.
 *
 * The source keeps the state in a JavaScript number. `^=` and `<<` first
 * convert their left operand to a signed 32-bit integer (ToInt32) and yield
 * one, the shift sum is added exactly (every value stays far below 2^53), and
 * `>>> 0` reads the final value as unsigned (ToUint32). The method below does
 * the same on unbounded integers. The specification is the textbook round
 * `h := ((h xor unit) * 16777619) mod 2^32` on the unsigned state.
 */
module ChatUtils {
  import opened Common
  import opened Utf16

  const TWO32 := 0x1_0000_0000
  const TWO31 := 0x8000_0000
  const OFFSET_BASIS := 2166136261
  const PRIME := 16777619

  type Uint32 = n: int | 0 <= n < TWO32

  /** ECMAScript ToUint32 on an integral number. */
  function ToUint32(n: int): Uint32
  {
    n % TWO32
  }

  /** ECMAScript ToInt32 on an integral number. */
  function ToInt32(n: int): (r: int)
    ensures -TWO31 <= r < TWO31
  {
    var u := n % TWO32;
    if u >= TWO31 then u - TWO32 else u
  }

  /** Bitwise exclusive or of two non-negative integers, least significant bit first. */
  function BitXor(a: nat, b: nat): nat
    decreases a + b
  {
    if a == 0 && b == 0 then 0
    else 2 * BitXor(a / 2, b / 2) + (if a % 2 == b % 2 then 0 else 1)
  }

  /** Exclusive or does not set bits above the operands' width. */
  lemma {:induction false} BitXorBelow(a: nat, b: nat, k: nat)
    requires a < Pow2(k) && b < Pow2(k)
    ensures BitXor(a, b) < Pow2(k)
    decreases k
  {
    if k > 0 && !(a == 0 && b == 0) {
      BitXorBelow(a / 2, b / 2, k - 1);
    }
  }

  lemma Pow2Of32()
    ensures Pow2(32) == TWO32 && Pow2(16) == 0x10000
  {
    assert Pow2(8) == 256;
    assert Pow2(16) == 0x10000 by { assert Pow2(12) == 4096; }
    assert Pow2(24) == 0x100_0000 by { assert Pow2(20) == 0x10_0000; }
    assert Pow2(32) == TWO32 by { assert Pow2(28) == 0x1000_0000; }
  }

  lemma Pow2Monotone(j: nat, k: nat)
    requires j <= k
    ensures Pow2(j) <= Pow2(k)
  {
  }

  /** `a ^ u` on the 32-bit pattern of `a` and a code unit, read as unsigned. */
  function Xor(a: Uint32, u: CodeUnit): Uint32
  {
    Pow2Of32();
    Pow2Monotone(16, 32);
    BitXorBelow(a, u, 32);
    BitXor(a, u)
  }

  function Pow2(k: nat): nat
  {
    if k == 0 then 1 else 2 * Pow2(k - 1)
  }

  /** `x << k` for an int32 operand and 0 <= k < 32: the low 32 bits of x * 2^k, as a signed value. */
  function Shl(x: int, k: nat): int
    requires k < 32
  {
    ToInt32(ToUint32(x) * Pow2(k))
  }

  lemma ToInt32RoundTrip(v: Uint32)
    ensures ToUint32(ToInt32(v)) == v
  {
  }

  /** One round of the specification: mix in a code unit, multiply by the prime modulo 2^32. */
  function Step(h: Uint32, u: CodeUnit): Uint32
  {
    (Xor(h, u) * PRIME) % TWO32
  }

  /** The state after hashing a sequence of code units, from the offset basis. */
  function Hash(units: seq<CodeUnit>): Uint32
  {
    if units == [] then OFFSET_BASIS
    else Step(Hash(units[..|units| - 1]), units[|units| - 1])
  }

  /** The identifier of a string: its hash in lowercase hexadecimal. */
  function ShortId(s: string): string
  {
    ToRadix(Hash(Encode(s)), 16)
  }

  // Congruence modulo 2^32, the facts the shift sum needs.

  predicate Cong(a: int, b: int)
  {
    (a - b) % TWO32 == 0
  }

  lemma ToInt32Cong(n: int)
    ensures Cong(ToInt32(n), n)
  {
  }

  lemma ToUint32Cong(n: int)
    ensures Cong(ToUint32(n), n)
  {
  }

  lemma CongMul(a: int, b: int, c: int)
    requires Cong(a, b)
    ensures Cong(a * c, b * c)
  {
    var q := (a - b) / TWO32;
    assert a - b == q * TWO32;
    assert a * c - b * c == (q * c) * TWO32;
  }

  lemma CongTrans(a: int, b: int, c: int)
    requires Cong(a, b) && Cong(b, c)
    ensures Cong(a, c)
  {
  }

  lemma CongAdd(a: int, b: int, c: int, d: int)
    requires Cong(a, b) && Cong(c, d)
    ensures Cong(a + c, b + d)
  {
  }

  lemma CongMod(a: int, b: int)
    requires Cong(a, b)
    ensures a % TWO32 == b % TWO32
  {
  }

  /** `x << k` agrees with x * 2^k modulo 2^32. */
  lemma ShlCong(x: int, k: nat)
    requires k < 32
    ensures Cong(Shl(x, k), x * Pow2(k))
  {
    var u := ToUint32(x);
    ToInt32Cong(u * Pow2(k));
    ToUint32Cong(x);
    CongMul(u, x, Pow2(k));
    CongTrans(Shl(x, k), u * Pow2(k), x * Pow2(k));
  }

  lemma Pow2Values()
    ensures Pow2(1) == 2 && Pow2(4) == 16 && Pow2(7) == 128 && Pow2(8) == 256 && Pow2(24) == 16777216
  {
    assert Pow2(8) == 256;
    assert Pow2(16) == 65536 by { assert Pow2(12) == 4096; }
    assert Pow2(24) == 16777216 by { assert Pow2(20) == 1048576; }
  }

  /** The shift sum is congruent to x times the prime. */
  lemma ShiftSumCong(x: int)
    ensures Cong(x + (Shl(x, 1) + Shl(x, 4) + Shl(x, 7) + Shl(x, 8) + Shl(x, 24)), x * PRIME)
  {
    Pow2Values();
    ShlCong(x, 1);
    ShlCong(x, 4);
    ShlCong(x, 7);
    ShlCong(x, 8);
    ShlCong(x, 24);
    var s1 := x + Shl(x, 1);
    CongAdd(x, x, Shl(x, 1), x * 2);
    var s2 := s1 + Shl(x, 4);
    CongAdd(s1, x * 3, Shl(x, 4), x * 16);
    var s3 := s2 + Shl(x, 7);
    CongAdd(s2, x * 19, Shl(x, 7), x * 128);
    var s4 := s3 + Shl(x, 8);
    CongAdd(s3, x * 147, Shl(x, 8), x * 256);
    CongAdd(s4, x * 403, Shl(x, 24), x * 16777216);
    assert x + (Shl(x, 1) + Shl(x, 4) + Shl(x, 7) + Shl(x, 8) + Shl(x, 24)) == s4 + Shl(x, 24);
  }

  /**
   * The source's update `h += (h<<1) + (h<<4) + (h<<7) + (h<<8) + (h<<24)`
   * multiplies by the prime modulo 2^32: 1 + 2 + 16 + 128 + 256 + 2^24 = 16777619.
   */
  lemma ShiftSumIsPrime(x: int)
    ensures ToUint32(x + (Shl(x, 1) + Shl(x, 4) + Shl(x, 7) + Shl(x, 8) + Shl(x, 24)))
         == (ToUint32(x) * PRIME) % TWO32
  {
    ShiftSumCong(x);
    CongMod(x + (Shl(x, 1) + Shl(x, 4) + Shl(x, 7) + Shl(x, 8) + Shl(x, 24)), x * PRIME);
    ToUint32Cong(x);
    CongMul(ToUint32(x), x, PRIME);
    CongMod(ToUint32(x) * PRIME, x * PRIME);
  }

  lemma HashExtend(units: seq<CodeUnit>, i: nat)
    requires i < |units|
    ensures Hash(units[..i + 1]) == Step(Hash(units[..i]), units[i])
  {
    assert units[..i + 1][..i] == units[..i];
  }

  /** One pass of the source's loop body performs one round of the specification on the unsigned state. */
  lemma RoundMatchesStep(hash: int, u: CodeUnit)
    ensures var x := ToInt32(Xor(ToUint32(hash), u));
      ToUint32(x + (Shl(x, 1) + Shl(x, 4) + Shl(x, 7) + Shl(x, 8) + Shl(x, 24))) == Step(ToUint32(hash), u)
  {
    var x := ToInt32(Xor(ToUint32(hash), u));
    ToInt32RoundTrip(Xor(ToUint32(hash), u));
    ShiftSumIsPrime(x);
  }

  /** `createShortId`, with the loop of the source over the code units. */
  method CreateShortId(s: string) returns (id: string)
    ensures id == ShortId(s)
  {
    var units := Encode(s);
    var hash: int := OFFSET_BASIS;
    var i := 0;
    while i < |units|
      invariant 0 <= i <= |units|
      invariant ToUint32(hash) == Hash(units[..i])
    {
      HashExtend(units, i);
      RoundMatchesStep(hash, units[i]);
      // hash ^= code unit
      hash := ToInt32(Xor(ToUint32(hash), units[i]));
      // hash += (hash << 1) + (hash << 4) + (hash << 7) + (hash << 8) + (hash << 24)
      hash := hash + (Shl(hash, 1) + Shl(hash, 4) + Shl(hash, 7) + Shl(hash, 8) + Shl(hash, 24));
      i := i + 1;
    }
    assert units[..i] == units;
    id := ToRadix(ToUint32(hash), 16);
  }

  /** The empty string hashes to the offset basis, "811c9dc5". */
  lemma EmptyShortId()
    ensures ShortId("") == "811c9dc5"
  {
    assert Encode("") == [];
    OffsetBasisHex();
  }

  lemma OffsetBasisHex()
    ensures ToRadix(OFFSET_BASIS, 16) == "811c9dc5"
  {
    OffsetBasisHexMiddle();
    HexStep(135383516, 8461469, 12);
    assert ToRadix(135383516, 16) == "811c9dc";
    HexStep(2166136261, 135383516, 5);
  }

  /** The first six hex digits of the offset basis. */
  lemma OffsetBasisHexMiddle()
    ensures ToRadix(8461469, 16) == "811c9d"
  {
    OffsetBasisHexHigh();
    HexStep(528841, 33052, 9);
    assert ToRadix(528841, 16) == "811c9";
    HexStep(8461469, 528841, 13);
  }

  /** The first four hex digits of the offset basis. */
  lemma OffsetBasisHexHigh()
    ensures ToRadix(33052, 16) == "811c"
  {
    assert ToRadix(8, 16) == "8";
    HexStep(129, 8, 1);
    assert ToRadix(129, 16) == "81";
    HexStep(2065, 129, 1);
    assert ToRadix(2065, 16) == "811";
    HexStep(33052, 2065, 12);
  }

  /** The hex text of q * 16 + d is the text of q followed by the digit d. */
  lemma HexStep(n: nat, q: nat, d: nat)
    requires 1 <= q && d < 16 && n == q * 16 + d
    ensures ToRadix(n, 16) == ToRadix(q, 16) + [RADIX_DIGITS[d]]
  {
    assert n >= 16 && n / 16 == q && n % 16 == d;
    assert ToRadix(n, 16) == ToRadix(n / 16, 16) + [DigitChar(n % 16)];
  }

  /** An identifier is 1 to 8 lowercase hex digits without a leading zero. */
  lemma ShortIdShape(s: string)
    ensures 1 <= |ShortId(s)| <= 8
    ensures forall i :: 0 <= i < |ShortId(s)| ==> DigitValue(ShortId(s)[i]) < 16
    ensures |ShortId(s)| > 1 ==> ShortId(s)[0] != '0'
  {
    var h := Hash(Encode(s));
    assert Pow(16, 8) == 0x1_0000_0000 by {
      assert Pow(16, 4) == 65536;
      assert Pow(16, 8) == 16 * 16 * 16 * 16 * Pow(16, 4);
    }
    ToRadixLength(h, 16, 8);
    if ShortId(s)[0] == '0' {
      assert h == 0;
    }
  }

  /** Reading an identifier as hex gives back the final 32-bit state. */
  lemma ShortIdRoundTrip(s: string)
    ensures ParseRadix(ShortId(s), 16) == Hash(Encode(s)) < TWO32
  {
    ToRadixRoundTrip(Hash(Encode(s)), 16);
  }
}
