/** 32-bit words and the sequences of their bits, the most significant first, as the standard numbers them from 1.
    Operations on words are named functions, so that proofs about sequences of bits need nothing about bit vectors
    but the lemmas here. */
module DesBits {
  type Bits = seq<bool>

  predicate Single(m: bv32) {
    m != 0 && m & (m - 1) == 0
  }

  /** The mask of a bit by its number: 1 << (32 - n). */
  function Mask(n: nat): (m: bv32)
    requires 1 <= n <= 32
    ensures Single(m) && (n > 1 ==> m & 0x8000_0000 == 0)
  {
    match n
    case 1 => 0x80000000 case 2 => 0x40000000 case 3 => 0x20000000 case 4 => 0x10000000
    case 5 => 0x08000000 case 6 => 0x04000000 case 7 => 0x02000000 case 8 => 0x01000000
    case 9 => 0x00800000 case 10 => 0x00400000 case 11 => 0x00200000 case 12 => 0x00100000
    case 13 => 0x00080000 case 14 => 0x00040000 case 15 => 0x00020000 case 16 => 0x00010000
    case 17 => 0x00008000 case 18 => 0x00004000 case 19 => 0x00002000 case 20 => 0x00001000
    case 21 => 0x00000800 case 22 => 0x00000400 case 23 => 0x00000200 case 24 => 0x00000100
    case 25 => 0x00000080 case 26 => 0x00000040 case 27 => 0x00000020 case 28 => 0x00000010
    case 29 => 0x00000008 case 30 => 0x00000004 case 31 => 0x00000002 case _ => 0x00000001
  }

  function And(a: bv32, b: bv32): bv32 {
    a & b
  }

  function XorWord(a: bv32, b: bv32): bv32 {
    a ^ b
  }

  function Double(a: bv32): bv32 {
    a << 1
  }

  predicate Test(w: bv32, m: bv32) {
    And(w, m) != 0
  }

  predicate TestBit(w: bv32, n: nat)
    requires 1 <= n <= 32
  {
    Test(w, Mask(n))
  }

  function Bits32(w: bv32): (r: Bits)
    ensures |r| == 32
  {
    seq(32, i requires 0 <= i < 32 => TestBit(w, i + 1))
  }

  function Xor(a: Bits, b: Bits): (r: Bits)
    requires |a| == |b|
    ensures |r| == |a|
  {
    seq(|a|, i requires 0 <= i < |a| => a[i] != b[i])
  }

  function Not(a: Bits): (r: Bits)
    ensures |r| == |a|
  {
    seq(|a|, i requires 0 <= i < |a| => !a[i])
  }

  function BitWord(b: bool): bv32 {
    if b then 1 else 0
  }

  function ShiftIn(acc: bv32, b: bool): bv32 {
    (acc << 1) | BitWord(b)
  }

  lemma MaskNextHigh(n: nat)
    requires 1 <= n < 16
    ensures Mask(n) == Double(Mask(n + 1))
  {
    hide Single;
  }

  lemma MaskNextLow(n: nat)
    requires 16 <= n < 32
    ensures Mask(n) == Double(Mask(n + 1))
  {
    hide Single;
  }

  lemma MaskNext(n: nat)
    requires 1 <= n < 32
    ensures Mask(n) == Double(Mask(n + 1))
  {
    hide Mask, Single, Double;
    if n < 16 {
      MaskNextHigh(n);
    } else {
      MaskNextLow(n);
    }
  }

  lemma ShiftsOver(acc: bv32, m: bv32)
    ensures ((acc << 1) | 1) & (m << 1) == (acc & m) << 1
    ensures ((acc << 1) | 0) & (m << 1) == (acc & m) << 1
  {
  }

  lemma ShiftedAnd(acc: bv32, b: bool, m: bv32)
    ensures And(ShiftIn(acc, b), Double(m)) == Double(And(acc, m))
  {
    ShiftsOver(acc, m);
  }

  lemma DoubleZero(acc: bv32, m: bv32)
    requires m & 0x8000_0000 == 0
    ensures Double(And(acc, m)) == 0 <==> And(acc, m) == 0
  {
  }

  lemma ShiftedTest(acc: bv32, b: bool, m: bv32)
    requires m & 0x8000_0000 == 0
    ensures Test(ShiftIn(acc, b), Double(m)) == Test(acc, m)
  {
    hide And, ShiftIn, Double;
    ShiftedAnd(acc, b, m);
    DoubleZero(acc, m);
  }

  lemma LowestTest(acc: bv32, b: bool)
    ensures Test(ShiftIn(acc, b), 1) == b
  {
  }

  lemma ShiftInBit(acc: bv32, b: bool, n: nat)
    requires 1 <= n <= 32
    ensures TestBit(ShiftIn(acc, b), n) == if n < 32 then TestBit(acc, n + 1) else b
  {
    hide Mask, Test, ShiftIn, Single, Double;
    if n < 32 {
      MaskNext(n);
      ShiftedTest(acc, b, Mask(n + 1));
    } else {
      LastMask();
      LowestTest(acc, b);
    }
  }

  lemma LastMask()
    ensures Mask(32) == 1
  {
  }

  lemma ShiftInBits(acc: bv32, b: bool)
    ensures Bits32(ShiftIn(acc, b)) == Bits32(acc)[1..] + [b]
  {
    hide TestBit, ShiftIn;
    forall i | 0 <= i < 32 ensures Bits32(ShiftIn(acc, b))[i] == (Bits32(acc)[1..] + [b])[i] {
      ShiftInBit(acc, b, i + 1);
    }
  }

  lemma SingleAnd(w: bv32, m: bv32)
    requires Single(m)
    ensures And(w, m) == 0 || And(w, m) == m
  {
  }

  lemma AndOver(a: bv32, b: bv32, m: bv32)
    ensures (a ^ b) & m == (a & m) ^ (b & m)
  {
  }

  lemma XorAnd(a: bv32, b: bv32, m: bv32)
    ensures And(XorWord(a, b), m) == XorWord(And(a, m), And(b, m))
  {
    AndOver(a, b, m);
  }

  lemma XorZero(x: bv32)
    ensures XorWord(x, x) == 0 && XorWord(x, 0) == x && XorWord(0, x) == x
  {
  }

  lemma XorTest(a: bv32, b: bv32, m: bv32)
    requires Single(m)
    ensures Test(XorWord(a, b), m) == (Test(a, m) != Test(b, m))
  {
    hide And, XorWord;
    SingleAnd(a, m);
    SingleAnd(b, m);
    XorAnd(a, b, m);
    XorZero(m);
    XorZero(0);
  }

  lemma XorBit(a: bv32, b: bv32, n: nat)
    requires 1 <= n <= 32
    ensures TestBit(XorWord(a, b), n) == (TestBit(a, n) != TestBit(b, n))
  {
    hide Mask, Single, Test, XorWord;
    XorTest(a, b, Mask(n));
  }

  lemma XorBits(a: bv32, b: bv32)
    ensures Bits32(XorWord(a, b)) == Xor(Bits32(a), Bits32(b))
  {
    hide TestBit, XorWord;
    forall i | 0 <= i < 32 ensures Bits32(XorWord(a, b))[i] == Xor(Bits32(a), Bits32(b))[i] {
      XorBit(a, b, i + 1);
    }
  }
}
