/** The DES code itself, against the cipher on bits. Words are built bit by bit, by testing the bits of other words with
    the masks of the tables: the choices of the key schedule, its rotations, the permutations and the S-boxes. A word
    holds bits when they are its last ones and zeros come before them; every loop keeps its word holding the bits taken
    so far. */
module UDes {
  import opened DesBits
  import opened DesTables
  import opened DesCipher
  import opened DesKeys

  /** A subkey: 24 bits in each word. */
  datatype SubKeyWords = SubKeyWords(high: bv32, low: bv32)

  function Falses(n: nat): (r: Bits)
    ensures |r| == n
  {
    seq(n, _ => false)
  }

  /** A word that holds bits at its low end, under zeros. */
  predicate Holds(w: bv32, bits: Bits) {
    |bits| <= 32 && Bits32(w) == Falses(32 - |bits|) + bits
  }

  predicate HoldsKey(k: SubKeyWords, key: Bits) {
    |key| == 48 && Holds(k.high, key[..24]) && Holds(k.low, key[24..])
  }

  predicate HoldsKeys(words: seq<SubKeyWords>, keys: seq<Bits>) {
    |words| == |keys| && forall i :: 0 <= i < |words| ==> HoldsKey(words[i], keys[i])
  }

  lemma ZeroHolds()
    ensures Holds(0, [])
  {
    forall n: nat | 1 <= n <= 32 ensures !TestBit(0, n) {
      ZeroTest(Mask(n));
    }
    assert Bits32(0) == Falses(32);
    assert Falses(32) + [] == Falses(32);
  }

  lemma ZeroTest(m: bv32)
    ensures !Test(0, m)
  {
  }

  lemma HoldsMore(w: bv32, bits: Bits, b: bool)
    requires Holds(w, bits) && |bits| < 32
    ensures Holds(ShiftIn(w, b), bits + [b])
  {
    hide ShiftIn, Bits32;
    ShiftInBits(w, b);
    var n := 32 - |bits|;
    assert (Falses(n) + bits)[1..] + [b] == Falses(n - 1) + (bits + [b]);
  }

  lemma HoldsWhole(w: bv32, bits: Bits)
    requires |bits| == 32
    ensures Holds(w, bits) <==> Bits32(w) == bits
  {
    hide Bits32;
    assert Falses(0) + bits == bits;
  }

  /** A bit of two words, by its number from 1 to 64: the mask is that of the word it is in. */
  lemma PairBit(high: bv32, low: bv32, n: nat)
    requires 1 <= n <= 64
    ensures (Bits32(high) + Bits32(low))[n - 1] == if n <= 32 then TestBit(high, n) else TestBit(low, n - 32)
  {
    hide TestBit;
  }

  function Pair(high: bv32, low: bv32): (b: Bits)
    ensures |b| == 64
  {
    Bits32(high) + Bits32(low)
  }

  // ---- the loops over the masks ------------------------------------------------------------------

  lemma KeyBitTaken(high: bv32, low: bv32, j: nat)
    requires j < 56
    ensures (FirstHalf(Pair(high, low)) + SecondHalf(Pair(high, low)))[j]
         == if PC1Which(j) then TestBit(high, PC1(j)) else TestBit(low, PC1(j) - 32)
  {
    hide PC1, PC1Which, TestBit, Bits32;
    PairBit(high, low, PC1(j));
  }

  /** Permuted choice 1, one half: the table says which word each bit is in. */
  method ChooseKeyBits(high: bv32, low: bv32, from: nat) returns (r: bv32)
    requires from == 0 || from == 28
    ensures Holds(r, if from == 0 then FirstHalf(Pair(high, low)) else SecondHalf(Pair(high, low)))
  {
    hide Holds, TestBit, ShiftIn, Bits32, PC1, PC1Which, FirstHalf, SecondHalf;
    ghost var all := if from == 0 then FirstHalf(Pair(high, low)) else SecondHalf(Pair(high, low));
    ZeroHolds();
    r := 0;
    for i := 0 to 28
      invariant Holds(r, all[..i])
    {
      KeyBitTaken(high, low, i + from);
      var n := PC1(i + from);
      var bit := if PC1Which(i + from) then TestBit(high, n) else TestBit(low, n - 32);
      HoldsMore(r, all[..i], bit);
      TakeNext(all, i, bit);
      r := ShiftIn(r, bit);
    }
    assert all[..28] == all;
  }

  lemma TakeNext(all: Bits, i: nat, bit: bool)
    requires i < |all| && all[i] == bit
    ensures all[..i + 1] == all[..i] + [bit]
  {
  }

  lemma SubKeyBitTaken(half: bv32, c: Bits, d: Bits, j: nat)
    requires |c| == |d| == 28 && j < 48 && Holds(half, if j < 24 then c else d)
    ensures SubKey(c, d)[j] == TestBit(half, (if j < 24 then PC2(j) else PC2(j) - 28) + 4)
  {
    hide PC2, TestBit, Holds;
    HeldBit(half, if j < 24 then c else d, (if j < 24 then PC2(j) else PC2(j) - 28) + 4);
  }

  /** Permuted choice 2, one word of a subkey: 24 bits of one half. */
  method ChooseSubKeyBits(half: bv32, ghost c: Bits, ghost d: Bits, from: nat) returns (r: bv32)
    requires |c| == |d| == 28 && (from == 0 || from == 24)
    requires Holds(half, if from == 0 then c else d)
    ensures Holds(r, SubKey(c, d)[from..from + 24])
  {
    hide Holds, TestBit, ShiftIn, PC2, SubKey;
    ghost var all := SubKey(c, d)[from..from + 24];
    ZeroHolds();
    r := 0;
    for i := 0 to 24
      invariant Holds(r, all[..i])
    {
      SubKeyBitTaken(half, c, d, i + from);
      var n := if from == 0 then PC2(i + from) else PC2(i + from) - 28;
      var bit := TestBit(half, n + 4);
      HoldsMore(r, all[..i], bit);
      TakeNext(all, i, bit);
      r := ShiftIn(r, bit);
    }
    assert all[..24] == all;
  }

  lemma HeldBit(w: bv32, bits: Bits, n: nat)
    requires Holds(w, bits) && 32 - |bits| < n <= 32
    ensures TestBit(w, n) == bits[n - 1 - (32 - |bits|)]
  {
    hide TestBit;
    assert Bits32(w)[n - 1] == (Falses(32 - |bits|) + bits)[n - 1];
  }

  lemma InitialTakes(high: bv32, low: bv32, j: nat)
    requires j < 64
    ensures if j % 8 >= 4 then 1 <= IP(j) <= 32 else 32 < IP(j) <= 64
    ensures (Initial(Pair(high, low)).left + Initial(Pair(high, low)).right)[j]
         == if j % 8 >= 4 then TestBit(high, IP(j)) else TestBit(low, IP(j) - 32)
  {
    hide IP, TestBit, Bits32;
    InitialBit(Pair(high, low), j);
    PairBit(high, low, IP(j));
  }

  lemma FinalTakes(left: bv32, right: bv32, j: nat)
    requires j < 64
    ensures if j % 2 == 1 then 1 <= IPInverse(j) <= 32 else 32 < IPInverse(j) <= 64
    ensures Final(Halves(Bits32(left), Bits32(right)))[j]
         == if j % 2 == 1 then TestBit(right, IPInverse(j)) else TestBit(left, IPInverse(j) - 32)
  {
    hide IPInverse, TestBit, Bits32;
    PairBit(right, left, IPInverse(j));
  }

  lemma SelectTakes(w: bv32, j: nat)
    requires j < 48
    ensures Expand(Bits32(w))[j] == TestBit(w, ESel(j))
  {
    hide ESel, TestBit;
  }

  /** The initial permutation, one word: four bits of the low word, four of the high one, and so on. */
  method PermuteInitially(high: bv32, low: bv32, from: nat) returns (r: bv32)
    requires from == 0 || from == 32
    ensures Bits32(r) == if from == 0 then Initial(Pair(high, low)).left else Initial(Pair(high, low)).right
  {
    hide Holds, TestBit, ShiftIn, Bits32, IP, Initial;
    ghost var all := if from == 0 then Initial(Pair(high, low)).left else Initial(Pair(high, low)).right;
    ZeroHolds();
    r := 0;
    for i := 0 to 32
      invariant Holds(r, all[..i])
    {
      var n := IP(i + from);
      InitialTakes(high, low, i + from);
      var bit := if (i + from) % 8 >= 4 then TestBit(high, n) else TestBit(low, n - 32);
      HoldsMore(r, all[..i], bit);
      TakeNext(all, i, bit);
      r := ShiftIn(r, bit);
    }
    assert all[..32] == all;
    HoldsWhole(r, all);
  }

  /** The inverse initial permutation, one word: bits of the left and of the right half in turn. */
  method PermuteFinally(left: bv32, right: bv32, from: nat) returns (r: bv32)
    requires from == 0 || from == 32
    ensures Bits32(r) == Final(Halves(Bits32(left), Bits32(right)))[from..from + 32]
  {
    hide Holds, TestBit, ShiftIn, Bits32, IPInverse, Final;
    ghost var all := Final(Halves(Bits32(left), Bits32(right)))[from..from + 32];
    ZeroHolds();
    r := 0;
    for i := 0 to 32
      invariant Holds(r, all[..i])
    {
      var n := IPInverse(i + from);
      FinalTakes(left, right, i + from);
      var bit := if (i + from) % 2 == 1 then TestBit(right, n) else TestBit(left, n - 32);
      HoldsMore(r, all[..i], bit);
      TakeNext(all, i, bit);
      r := ShiftIn(r, bit);
    }
    assert all[..32] == all;
    HoldsWhole(r, all);
  }

  /** The bit selection, one word of 24 bits. */
  method SelectBits(w: bv32, from: nat) returns (r: bv32)
    requires from == 0 || from == 24
    ensures Holds(r, Expand(Bits32(w))[from..from + 24])
  {
    hide Holds, TestBit, ShiftIn, Bits32, ESel, Expand;
    ghost var all := Expand(Bits32(w))[from..from + 24];
    ZeroHolds();
    r := 0;
    for i := 0 to 24
      invariant Holds(r, all[..i])
    {
      SelectTakes(w, i + from);
      var bit := TestBit(w, ESel(i + from));
      HoldsMore(r, all[..i], bit);
      TakeNext(all, i, bit);
      r := ShiftIn(r, bit);
    }
    assert all[..24] == all;
  }

  method PermuteBits(w: bv32) returns (r: bv32)
    ensures Bits32(r) == Permuted(Bits32(w))
  {
    hide Holds, TestBit, ShiftIn, Perm;
    ghost var all := Permuted(Bits32(w));
    ZeroHolds();
    r := 0;
    for i := 0 to 32
      invariant Holds(r, all[..i])
    {
      var bit := TestBit(w, Perm(i));
      HoldsMore(r, all[..i], bit);
      TakeNext(all, i, bit);
      r := ShiftIn(r, bit);
    }
    assert all[..32] == all;
    HoldsWhole(r, all);
  }

  // ---- the key schedule --------------------------------------------------------------------------

  function RotateOnce(w: bv32): bv32 {
    ((w << 1) & 0x0FFF_FFFF) | (w >> 27)
  }

  function RotateTwo(w: bv32): bv32 {
    ((w << 2) & 0x0FFF_FFFF) | (w >> 26)
  }

  function ClearTop(w: bv32): bv32 {
    w & 0x0FFF_FFFF
  }

  lemma TopSet(w: bv32)
    requires w & 0xF000_0000 == 0 && w & 0x0800_0000 != 0
    ensures ((w << 1) & 0x0FFF_FFFF) | (w >> 27) == ((w << 1) | 1) & 0x0FFF_FFFF
  {
  }

  lemma TopUnset(w: bv32)
    requires w & 0xF000_0000 == 0 && w & 0x0800_0000 == 0
    ensures ((w << 1) & 0x0FFF_FFFF) | (w >> 27) == ((w << 1) | 0) & 0x0FFF_FFFF
  {
  }

  lemma TwiceOne(w: bv32)
    requires w & 0xF000_0000 == 0
    ensures (((((w << 1) & 0x0FFF_FFFF) | (w >> 27)) << 1) & 0x0FFF_FFFF) | ((((w << 1) & 0x0FFF_FFFF) | (w >> 27)) >> 27)
         == ((w << 2) & 0x0FFF_FFFF) | (w >> 26)
    ensures (((w << 1) & 0x0FFF_FFFF) | (w >> 27)) & 0xF000_0000 == 0
  {
  }

  lemma ShiftInIs(w: bv32)
    ensures ShiftIn(w, true) == (w << 1) | 1 && ShiftIn(w, false) == (w << 1) | 0
  {
  }

  /** A rotation of the 28 bits shifts the top one in at the bottom. */
  lemma RotateOnceIs(w: bv32)
    requires w & 0xF000_0000 == 0
    ensures RotateOnce(w) == ClearTop(ShiftIn(w, w & 0x0800_0000 != 0))
  {
    hide ShiftIn;
    ShiftInIs(w);
    if w & 0x0800_0000 != 0 {
      TopSet(w);
    } else {
      TopUnset(w);
    }
  }

  lemma RotateTwoIs(w: bv32)
    requires w & 0xF000_0000 == 0
    ensures RotateTwo(w) == RotateOnce(RotateOnce(w)) && RotateOnce(w) & 0xF000_0000 == 0
  {
    TwiceOne(w);
  }

  lemma TopMasks(n: nat)
    requires 1 <= n <= 32
    ensures And(Mask(n), 0x0FFF_FFFF) == if n <= 4 then 0 else Mask(n)
  {
    hide Single;
  }

  lemma AndTwice(x: bv32, m: bv32)
    ensures And(ClearTop(x), m) == And(x, And(m, 0x0FFF_FFFF)) && And(x, 0) == 0
  {
  }

  lemma ClearTopBit(x: bv32, n: nat)
    requires 1 <= n <= 32
    ensures TestBit(ClearTop(x), n) == (n > 4 && TestBit(x, n))
  {
    hide Mask, And, Single, ClearTop;
    TopMasks(n);
    AndTwice(x, Mask(n));
  }

  lemma ClearTopBits(x: bv32)
    ensures Bits32(ClearTop(x)) == Falses(4) + Bits32(x)[4..]
  {
    hide TestBit, ClearTop;
    forall n: nat | 1 <= n <= 32 ensures TestBit(ClearTop(x), n) == (n > 4 && TestBit(x, n)) {
      ClearTopBit(x, n);
    }
  }

  lemma FirstMasks()
    ensures Mask(1) == 0x8000_0000 && Mask(2) == 0x4000_0000 && Mask(3) == 0x2000_0000 && Mask(4) == 0x1000_0000
    ensures Mask(5) == 0x0800_0000
  {
    hide Single;
  }

  lemma TopIsClear(w: bv32)
    requires !Test(w, 0x8000_0000) && !Test(w, 0x4000_0000) && !Test(w, 0x2000_0000) && !Test(w, 0x1000_0000)
    ensures w & 0xF000_0000 == 0
  {
  }

  lemma TestIs(w: bv32, m: bv32)
    ensures Test(w, m) == (w & m != 0)
  {
  }

  lemma TopOfHalf(w: bv32, c: Bits)
    requires Holds(w, c) && |c| == 28
    ensures w & 0xF000_0000 == 0 && (w & 0x0800_0000 != 0) == c[0]
  {
    hide Mask, Test;
    FirstMasks();
    assert Bits32(w)[0] == Bits32(w)[1] == Bits32(w)[2] == Bits32(w)[3] == false && Bits32(w)[4] == c[0];
    TopIsClear(w);
    TestIs(w, 0x0800_0000);
  }

  lemma RotateOnceHolds(w: bv32, c: Bits)
    requires Holds(w, c) && |c| == 28
    ensures Holds(RotateOnce(w), Rotate(c, 1))
  {
    hide RotateOnce, ClearTop, ShiftIn, Bits32;
    TopOfHalf(w, c);
    RotateOnceIs(w);
    ShiftInBits(w, c[0]);
    ClearTopBits(ShiftIn(w, c[0]));
    assert ((Falses(4) + c)[1..] + [c[0]])[4..] == c[1..] + [c[0]] == Rotate(c, 1);
  }

  lemma RotateHolds(w: bv32, c: Bits)
    requires Holds(w, c) && |c| == 28
    ensures Holds(RotateOnce(w), Rotate(c, 1)) && Holds(RotateTwo(w), Rotate(c, 2))
  {
    hide RotateOnce, RotateTwo, Holds;
    TopOfHalf(w, c);
    RotateTwoIs(w);
    RotateOnceHolds(w, c);
    RotateOnceHolds(RotateOnce(w), Rotate(c, 1));
    RotateTwice(c, 1, 1);
  }

  method RotateHalf(w: bv32, two: bool, ghost c: Bits, ghost j: nat) returns (r: bv32)
    requires |c| == 28 && Holds(w, HalfAt(c, j)) && RotationCount(j) == if two then 2 else 1
    ensures Holds(r, HalfAt(c, j + 1))
  {
    hide Holds, RotateOnce, RotateTwo, Rotate, RotationCount;
    RotateHolds(w, HalfAt(c, j));
    r := if two then RotateTwo(w) else RotateOnce(w);
  }

  /** The sixteen subkeys of a key. */
  method KeySchedule(high: bv32, low: bv32) returns (keys: seq<SubKeyWords>)
    ensures HoldsKeys(keys, SubKeysOf(Pair(high, low)))
  {
    hide Holds, SubKey, HalfAt, Pair, FirstHalf, SecondHalf, RotationsLeft, HoldsKey;
    var ci := ChooseKeyBits(high, low, 0);
    var di := ChooseKeyBits(high, low, 28);
    ghost var c, d := FirstHalf(Pair(high, low)), SecondHalf(Pair(high, low));
    RotationStart();
    HalvesStart(c, d);
    var rotations: bv16 := 0x7EFC;
    keys := [];
    for j := 0 to 16
      invariant Holds(ci, HalfAt(c, j)) && Holds(di, HalfAt(d, j)) && rotations == RotationsLeft(j)
      invariant HoldsKeys(keys, Schedule(c, d, j))
    {
      ci := RotateHalf(ci, rotations & 1 != 0, c, j);
      di := RotateHalf(di, rotations & 1 != 0, d, j);
      RotationNext(j);
      rotations := rotations >> 1;
      var first := ChooseSubKeyBits(ci, HalfAt(c, j + 1), HalfAt(d, j + 1), 0);
      var second := ChooseSubKeyBits(di, HalfAt(c, j + 1), HalfAt(d, j + 1), 24);
      SubKeyHeld(SubKeyWords(first, second), SubKey(HalfAt(c, j + 1), HalfAt(d, j + 1)));
      keys := keys + [SubKeyWords(first, second)];
    }
  }

  lemma HalvesStart(c: Bits, d: Bits)
    requires |c| == |d| == 28
    ensures HalfAt(c, 0) == c && HalfAt(d, 0) == d
  {
  }

  lemma RotationNext(j: nat)
    ensures RotationsLeft(j + 1) == RotationsLeft(j) >> 1
  {
  }

  lemma SubKeyHeld(words: SubKeyWords, key: Bits)
    requires |key| == 48 && Holds(words.high, key[0..24]) && Holds(words.low, key[24..48])
    ensures HoldsKey(words, key)
  {
    hide Holds;
    assert key[0..24] == key[..24];
    assert key[24..48] == key[24..];
  }

  method NewtonKeySchedule(high: bv32, low: bv32) returns (keys: seq<SubKeyWords>)
    ensures HoldsKeys(keys, NewtonSubKeysOf(Pair(high, low)))
  {
    hide HoldsKeys, SubKeysOf, NewtonKey, Pair;
    NewtonWords(high, low);
    keys := KeySchedule(high << 1, low << 1);
  }

  lemma NewtonWords(high: bv32, low: bv32)
    ensures Pair(high << 1, low << 1) == NewtonKey(Pair(high, low))
  {
    hide Bits32, ShiftIn;
    ShiftsFalse(high);
    ShiftsFalse(low);
    ShiftInBits(high, false);
    ShiftInBits(low, false);
  }

  lemma ShiftsFalse(w: bv32)
    ensures ShiftIn(w, false) == w << 1
  {
  }

  // ---- the rounds ------------------------------------------------------------------------------------

  lemma XorHolds(a: bv32, x: Bits, b: bv32, y: Bits)
    requires Holds(a, x) && Holds(b, y) && |x| == |y|
    ensures Holds(XorWord(a, b), Xor(x, y))
  {
    hide Bits32, XorWord;
    XorBits(a, b);
    XorJoined(Falses(32 - |x|), x, y);
  }

  lemma XorJoined(f: Bits, x: Bits, y: Bits)
    requires |x| == |y| && forall i :: 0 <= i < |f| ==> !f[i]
    ensures Xor(f + x, f + y) == f + Xor(x, y)
  {
  }

  /** Six bits of a 24-bit word, the first at the top. */
  function BlockAt(e: bv32, j: nat): bv8
    requires j < 4
  {
    match j
    case 0 => ((e >> 18) & 0xFF) as bv8
    case 1 => ((e >> 12) & 0x3F) as bv8
    case 2 => ((e >> 6) & 0x3F) as bv8
    case _ => (e & 0x3F) as bv8
  }

  function BlockBits(x: bv8): (r: Bits)
    ensures |r| == 6
  {
    [x & 0x20 != 0, x & 0x10 != 0, x & 0x08 != 0, x & 0x04 != 0, x & 0x02 != 0, x & 0x01 != 0]
  }

  lemma TopBlock(e: bv32)
    requires e & 0xFF00_0000 == 0
    ensures ((e >> 18) & 0xFF) as bv8 < 64
    ensures ((e >> 18) & 0xFF) as bv8 & 0x20 != 0 <==> e & 0x0080_0000 != 0
    ensures ((e >> 18) & 0xFF) as bv8 & 0x10 != 0 <==> e & 0x0040_0000 != 0
    ensures ((e >> 18) & 0xFF) as bv8 & 0x08 != 0 <==> e & 0x0020_0000 != 0
    ensures ((e >> 18) & 0xFF) as bv8 & 0x04 != 0 <==> e & 0x0010_0000 != 0
    ensures ((e >> 18) & 0xFF) as bv8 & 0x02 != 0 <==> e & 0x0008_0000 != 0
    ensures ((e >> 18) & 0xFF) as bv8 & 0x01 != 0 <==> e & 0x0004_0000 != 0
  {
  }

  lemma SecondBlock(e: bv32)
    ensures ((e >> 12) & 0x3F) as bv8 < 64
    ensures ((e >> 12) & 0x3F) as bv8 & 0x20 != 0 <==> e & 0x0002_0000 != 0
    ensures ((e >> 12) & 0x3F) as bv8 & 0x10 != 0 <==> e & 0x0001_0000 != 0
    ensures ((e >> 12) & 0x3F) as bv8 & 0x08 != 0 <==> e & 0x0000_8000 != 0
    ensures ((e >> 12) & 0x3F) as bv8 & 0x04 != 0 <==> e & 0x0000_4000 != 0
    ensures ((e >> 12) & 0x3F) as bv8 & 0x02 != 0 <==> e & 0x0000_2000 != 0
    ensures ((e >> 12) & 0x3F) as bv8 & 0x01 != 0 <==> e & 0x0000_1000 != 0
  {
  }

  lemma ThirdBlock(e: bv32)
    ensures ((e >> 6) & 0x3F) as bv8 < 64
    ensures ((e >> 6) & 0x3F) as bv8 & 0x20 != 0 <==> e & 0x0000_0800 != 0
    ensures ((e >> 6) & 0x3F) as bv8 & 0x10 != 0 <==> e & 0x0000_0400 != 0
    ensures ((e >> 6) & 0x3F) as bv8 & 0x08 != 0 <==> e & 0x0000_0200 != 0
    ensures ((e >> 6) & 0x3F) as bv8 & 0x04 != 0 <==> e & 0x0000_0100 != 0
    ensures ((e >> 6) & 0x3F) as bv8 & 0x02 != 0 <==> e & 0x0000_0080 != 0
    ensures ((e >> 6) & 0x3F) as bv8 & 0x01 != 0 <==> e & 0x0000_0040 != 0
  {
  }

  lemma LastBlock(e: bv32)
    ensures (e & 0x3F) as bv8 < 64
    ensures (e & 0x3F) as bv8 & 0x20 != 0 <==> e & 0x0000_0020 != 0
    ensures (e & 0x3F) as bv8 & 0x10 != 0 <==> e & 0x0000_0010 != 0
    ensures (e & 0x3F) as bv8 & 0x08 != 0 <==> e & 0x0000_0008 != 0
    ensures (e & 0x3F) as bv8 & 0x04 != 0 <==> e & 0x0000_0004 != 0
    ensures (e & 0x3F) as bv8 & 0x02 != 0 <==> e & 0x0000_0002 != 0
    ensures (e & 0x3F) as bv8 & 0x01 != 0 <==> e & 0x0000_0001 != 0
  {
  }

  lemma TopBlockMasks()
    ensures Mask(9) == 0x0080_0000 && Mask(10) == 0x0040_0000 && Mask(11) == 0x0020_0000
    ensures Mask(12) == 0x0010_0000 && Mask(13) == 0x0008_0000 && Mask(14) == 0x0004_0000
  {
    hide Single;
  }

  lemma SecondBlockMasks()
    ensures Mask(15) == 0x0002_0000 && Mask(16) == 0x0001_0000 && Mask(17) == 0x0000_8000
    ensures Mask(18) == 0x0000_4000 && Mask(19) == 0x0000_2000 && Mask(20) == 0x0000_1000
  {
    hide Single;
  }

  lemma ThirdBlockMasks()
    ensures Mask(21) == 0x0000_0800 && Mask(22) == 0x0000_0400 && Mask(23) == 0x0000_0200
    ensures Mask(24) == 0x0000_0100 && Mask(25) == 0x0000_0080 && Mask(26) == 0x0000_0040
  {
    hide Single;
  }

  lemma LastBlockMasks()
    ensures Mask(27) == 0x0000_0020 && Mask(28) == 0x0000_0010 && Mask(29) == 0x0000_0008
    ensures Mask(30) == 0x0000_0004 && Mask(31) == 0x0000_0002 && Mask(32) == 0x0000_0001
  {
    hide Single;
  }

  /** The bits of a block, tested in the word. */
  function TestedAt(e: bv32, j: nat): (r: Bits)
    requires j < 4
    ensures |r| == 6
  {
    var n := 9 + 6 * j;
    [TestBit(e, n), TestBit(e, n + 1), TestBit(e, n + 2), TestBit(e, n + 3), TestBit(e, n + 4), TestBit(e, n + 5)]
  }

  lemma TopBlockTested(e: bv32)
    requires e & 0xFF00_0000 == 0
    ensures BlockAt(e, 0) < 64 && BlockBits(BlockAt(e, 0)) == TestedAt(e, 0)
  {
    hide Mask, Single;
    TopBlockMasks();
    TopBlock(e);
  }

  lemma SecondBlockTested(e: bv32)
    ensures BlockAt(e, 1) < 64 && BlockBits(BlockAt(e, 1)) == TestedAt(e, 1)
  {
    hide Mask, Single;
    SecondBlockMasks();
    SecondBlock(e);
  }

  lemma ThirdBlockTested(e: bv32)
    ensures BlockAt(e, 2) < 64 && BlockBits(BlockAt(e, 2)) == TestedAt(e, 2)
  {
    hide Mask, Single;
    ThirdBlockMasks();
    ThirdBlock(e);
  }

  lemma LastBlockTested(e: bv32)
    ensures BlockAt(e, 3) < 64 && BlockBits(BlockAt(e, 3)) == TestedAt(e, 3)
  {
    hide Mask, Single;
    LastBlockMasks();
    LastBlock(e);
  }

  lemma BlockTested(e: bv32, j: nat)
    requires j < 4 && e & 0xFF00_0000 == 0
    ensures BlockAt(e, j) < 64 && BlockBits(BlockAt(e, j)) == TestedAt(e, j)
  {
    hide BlockAt, BlockBits, TestedAt;
    match j
    case 0 => TopBlockTested(e);
    case 1 => SecondBlockTested(e);
    case 2 => ThirdBlockTested(e);
    case _ => LastBlockTested(e);
  }

  lemma BlockHeld(e: bv32, half: Bits, j: nat)
    requires Holds(e, half) && |half| == 24 && j < 4
    ensures TestedAt(e, j) == half[6 * j..6 * j + 6]
  {
    hide TestBit;
    var n := 9 + 6 * j;
    HeldBit(e, half, n);
    HeldBit(e, half, n + 1);
    HeldBit(e, half, n + 2);
    HeldBit(e, half, n + 3);
    HeldBit(e, half, n + 4);
    HeldBit(e, half, n + 5);
  }

  lemma TopByteMasks()
    ensures Mask(5) == 0x0800_0000 && Mask(6) == 0x0400_0000 && Mask(7) == 0x0200_0000 && Mask(8) == 0x0100_0000
  {
    hide Single;
  }

  lemma TopByteIsClear(w: bv32)
    requires !Test(w, 0x8000_0000) && !Test(w, 0x4000_0000) && !Test(w, 0x2000_0000) && !Test(w, 0x1000_0000)
    requires !Test(w, 0x0800_0000) && !Test(w, 0x0400_0000) && !Test(w, 0x0200_0000) && !Test(w, 0x0100_0000)
    ensures w & 0xFF00_0000 == 0
  {
  }

  lemma TopByteOfHeld(w: bv32, half: Bits)
    requires Holds(w, half) && |half| == 24
    ensures w & 0xFF00_0000 == 0
  {
    hide Mask, Test;
    FirstMasks();
    TopByteMasks();
    assert !Bits32(w)[0] && !Bits32(w)[1] && !Bits32(w)[2] && !Bits32(w)[3];
    assert !Bits32(w)[4] && !Bits32(w)[5] && !Bits32(w)[6] && !Bits32(w)[7];
    TopByteIsClear(w);
  }

  function RowIndex(temp: bv8): bv8 {
    (temp & 1) | (if temp & 0x20 != 0 then 2 else 0)
  }

  function ColumnIndex(temp: bv8): bv8 {
    (if temp & 0x20 != 0 then temp & 0x1F else temp) >> 1
  }

  lemma IndicesAre(temp: bv8)
    requires temp < 64
    ensures RowIndex(temp) == RowOf(BlockBits(temp)) && RowIndex(temp) < 4
    ensures ColumnIndex(temp) == ColumnOf(BlockBits(temp)) && ColumnIndex(temp) < 16
  {
  }

  function AppendTwo(m: bv32, w: bv32): bv32 {
    (m << 2) | w
  }

  function AppendThree(m: bv32, w: bv32): bv32 {
    (m << 3) | w
  }

  function AppendFour(m: bv32, w: bv32): bv32 {
    (m << 4) | w
  }

  lemma OneAndOne(m: bv32, x: bv32, y: bv32)
    ensures (((m << 1) | x) << 1) | y == (m << 2) | ((((0 << 1) | x) << 1) | y)
  {
  }

  lemma FirstTwo(m: bv32, a: bool, b: bool)
    ensures ShiftIn(ShiftIn(m, a), b) == AppendTwo(m, ShiftIn(ShiftIn(0, a), b))
  {
    hide BitWord;
    OneAndOne(m, BitWord(a), BitWord(b));
  }

  lemma TwoAndOne(m: bv32, w: bv32, x: bv32)
    ensures (((m << 2) | w) << 1) | x == (m << 3) | ((w << 1) | x)
  {
  }

  lemma ThreeAndOne(m: bv32, w: bv32, x: bv32)
    ensures (((m << 3) | w) << 1) | x == (m << 4) | ((w << 1) | x)
  {
  }

  lemma AppendTwoMore(m: bv32, w: bv32, b: bool)
    ensures ShiftIn(AppendTwo(m, w), b) == AppendThree(m, ShiftIn(w, b))
  {
    hide BitWord;
    TwoAndOne(m, w, BitWord(b));
  }

  lemma AppendThreeMore(m: bv32, w: bv32, b: bool)
    ensures ShiftIn(AppendThree(m, w), b) == AppendFour(m, ShiftIn(w, b))
  {
    hide BitWord;
    ThreeAndOne(m, w, BitWord(b));
  }

  function FourBits(a: bool, b: bool, c: bool, d: bool): bv32 {
    ShiftIn(ShiftIn(ShiftIn(ShiftIn(0, a), b), c), d)
  }

  /** Appending four bits is shifting each of them in. */
  lemma AppendShifts(m: bv32, a: bool, b: bool, c: bool, d: bool)
    ensures AppendFour(m, FourBits(a, b, c, d)) == ShiftIn(ShiftIn(ShiftIn(ShiftIn(m, a), b), c), d)
  {
    hide ShiftIn, AppendTwo, AppendThree, AppendFour;
    var w := ShiftIn(ShiftIn(0, a), b);
    FirstTwo(m, a, b);
    AppendTwoMore(m, w, c);
    AppendThreeMore(m, ShiftIn(w, c), d);
  }

  lemma NibbleIs(v: bv8)
    requires v < 16
    ensures (v as bv32) == FourBits(v & 8 != 0, v & 4 != 0, v & 2 != 0, v & 1 != 0)
  {
    hide FourBits;
    FourBitsAre(v & 8 != 0, v & 4 != 0, v & 2 != 0, v & 1 != 0);
    NibbleSum(v);
  }

  lemma FourBitsAre(a: bool, b: bool, c: bool, d: bool)
    ensures FourBits(a, b, c, d)
         == (if a then 8 else 0) | (if b then 4 else 0) | (if c then 2 else 0) | (if d then 1 else 0)
  {
  }

  lemma NibbleSum(v: bv8)
    requires v < 16
    ensures (v as bv32) == (if v & 8 != 0 then 8 else 0) | (if v & 4 != 0 then 4 else 0)
                           | (if v & 2 != 0 then 2 else 0) | (if v & 1 != 0 then 1 else 0)
  {
  }

  lemma NibbleHolds(m: bv32, bits: Bits, v: bv8)
    requires Holds(m, bits) && |bits| <= 28 && v < 16
    ensures Holds(AppendFour(m, v as bv32), bits + NibbleBits(v))
  {
    hide Holds, ShiftIn, AppendFour, FourBits;
    var a, b, c, d := v & 8 != 0, v & 4 != 0, v & 2 != 0, v & 1 != 0;
    NibbleIs(v);
    AppendShifts(m, a, b, c, d);
    HoldsMore(m, bits, a);
    HoldsMore(ShiftIn(m, a), bits + [a], b);
    HoldsMore(ShiftIn(ShiftIn(m, a), b), bits + [a] + [b], c);
    HoldsMore(ShiftIn(ShiftIn(ShiftIn(m, a), b), c), bits + [a] + [b] + [c], d);
    assert bits + [a] + [b] + [c] + [d] == bits + NibbleBits(v);
  }

  /** The S-boxes over the eight blocks of two words. */
  method Substitute(high: bv32, low: bv32, ghost e: Bits) returns (merged: bv32)
    requires |e| == 48 && Holds(high, e[..24]) && Holds(low, e[24..])
    ensures Holds(merged, Substituted(e, 8))
  {
    hide Holds, BlockAt, TestedAt, SBox, BlockBits, RowIndex, ColumnIndex, RowOf, ColumnOf, NibbleBits, AppendFour;
    TopByteOfHeld(high, e[..24]);
    TopByteOfHeld(low, e[24..]);
    ZeroHolds();
    merged := 0;
    for j := 0 to 8
      invariant Holds(merged, Substituted(e, j))
    {
      var word := if j < 4 then high else low;
      var temp := BlockAt(word, j % 4);
      BlockTested(word, j % 4);
      BlockHeld(word, if j < 4 then e[..24] else e[24..], j % 4);
      IndicesAre(temp);
      var v := SBox(j, RowIndex(temp), ColumnIndex(temp));
      SixAt(e, j);
      NibbleHolds(merged, Substituted(e, j), v);
      merged := AppendFour(merged, v as bv32);
    }
  }

  lemma SixAt(e: Bits, j: nat)
    requires |e| == 48 && j < 8
    ensures Six(e, j) == (if j < 4 then e[..24] else e[24..])[6 * (j % 4)..6 * (j % 4) + 6]
  {
    if j < 4 {
      assert e[..24][6 * j..6 * j + 6] == e[6 * j..6 * j + 6];
    } else {
      var k := j - 4;
      assert j % 4 == k;
      assert e[24..][6 * k..6 * k + 6] == e[24 + 6 * k..24 + 6 * k + 6];
    }
  }

  // ---- blocks ------------------------------------------------------------------------------------------

  /** What a round adds to the left half. */
  method Mix(right: bv32, key: SubKeyWords, ghost k: Bits) returns (m: bv32)
    requires HoldsKey(key, k)
    ensures Bits32(m) == Mixed(Bits32(right), k)
  {
    hide Holds, Expand, Substituted, Permuted, Bits32;
    ghost var e := Expand(Bits32(right));
    var high := SelectBits(right, 0);
    var low := SelectBits(right, 24);
    HalvesOfKey(e, k);
    XorHolds(high, e[..24], key.high, k[..24]);
    XorHolds(low, e[24..], key.low, k[24..]);
    var merged := Substitute(XorWord(high, key.high), XorWord(low, key.low), Xor(e, k));
    HoldsWhole(merged, Substituted(Xor(e, k), 8));
    m := PermuteBits(merged);
  }

  lemma HalvesOfKey(e: Bits, k: Bits)
    requires |e| == |k| == 48
    ensures Xor(e, k)[..24] == Xor(e[..24], k[..24]) && Xor(e, k)[24..] == Xor(e[24..], k[24..])
    ensures e[0..24] == e[..24] && e[24..48] == e[24..]
  {
  }

  function HalvesOf(left: bv32, right: bv32): (h: Halves)
    ensures Wide(h)
  {
    Halves(Bits32(left), Bits32(right))
  }

  /** One round: the halves change places, and the new right one is mixed. */
  method RoundWords(left: bv32, right: bv32, key: SubKeyWords, ghost k: Bits) returns (l: bv32, r: bv32)
    requires HoldsKey(key, k)
    ensures HalvesOf(l, r) == Round(HalvesOf(left, right), k)
  {
    hide HoldsKey, Mixed, Bits32, XorWord;
    var mixed := Mix(right, key, k);
    XorBits(left, mixed);
    l, r := right, XorWord(left, mixed);
  }

  method Permute(high: bv32, low: bv32) returns (left: bv32, right: bv32)
    ensures HalvesOf(left, right) == Initial(Pair(high, low))
  {
    hide Initial, Bits32;
    left := PermuteInitially(high, low, 0);
    right := PermuteInitially(high, low, 32);
  }

  method Unpermute(left: bv32, right: bv32) returns (high: bv32, low: bv32)
    ensures Pair(high, low) == Final(HalvesOf(left, right))
  {
    hide Final, Bits32;
    high := PermuteFinally(left, right, 0);
    low := PermuteFinally(left, right, 32);
    ghost var b := Final(HalvesOf(left, right));
    assert b[0..32] + b[32..64] == b;
  }

  lemma RoundsNext(h: Halves, keys: seq<Bits>, i: nat)
    requires Wide(h) && SubKeys(keys) && i < |keys|
    ensures SubKeys(keys[..i]) && SubKeys(keys[..i + 1]) && |keys[i]| == 48
    ensures Rounds(h, keys[..i + 1]) == Round(Rounds(h, keys[..i]), keys[i])
  {
    hide Round;
    assert forall k <- keys[..i + 1] :: k in keys;
    assert keys[..i + 1][..i] == keys[..i] && keys[i] in keys;
  }

  lemma RoundsNone(h: Halves, keys: seq<Bits>)
    requires Wide(h) && SubKeys(keys)
    ensures SubKeys(keys[..0]) && Rounds(h, keys[..0]) == h && keys[..|keys|] == keys
  {
  }

  method EncodeBlock(words: seq<SubKeyWords>, ghost keys: seq<Bits>, high: bv32, low: bv32) returns (h: bv32, l: bv32)
    requires |words| == 16 && SubKeys(keys) && HoldsKeys(words, keys)
    ensures Pair(h, l) == Encoded(keys, Pair(high, low))
  {
    hide HoldsKey, Round, Rounds, Initial, Final, HalvesOf, Pair, SubKeys;
    var left, right := Permute(high, low);
    ghost var start := Initial(Pair(high, low));
    RoundsNone(start, keys);
    for i := 0 to 16
      invariant SubKeys(keys[..i]) && HalvesOf(left, right) == Rounds(start, keys[..i])
    {
      RoundsNext(start, keys, i);
      left, right := RoundWords(left, right, words[i], keys[i]);
    }
    h, l := Unpermute(left, right);
  }

  lemma {:induction false} ReversedAt(keys: seq<Bits>, i: nat)
    requires i < |keys|
    ensures Reversed(keys)[|keys| - 1 - i] == keys[i]
  {
    if i < |keys| - 1 {
      ReversedAt(keys[..|keys| - 1], i);
    }
  }

  method DecodeBlock(words: seq<SubKeyWords>, ghost keys: seq<Bits>, high: bv32, low: bv32) returns (h: bv32, l: bv32)
    requires |words| == 16 && SubKeys(keys) && HoldsKeys(words, keys)
    ensures Pair(h, l) == Decoded(keys, Pair(high, low))
  {
    hide HoldsKey, Round, Rounds, Initial, Final, HalvesOf, Pair, SubKeys, Reversed;
    var left, right := Permute(high, low);
    ghost var start, back := Initial(Pair(high, low)), Reversed(keys);
    RoundsNone(start, back);
    for i := 16 downto 0
      invariant SubKeys(back[..16 - i]) && HalvesOf(left, right) == Rounds(start, back[..16 - i])
    {
      ReversedAt(keys, i);
      RoundsNext(start, back, 15 - i);
      left, right := RoundWords(left, right, words[i], keys[i]);
    }
    h, l := Unpermute(left, right);
  }

  // ---- with a key ------------------------------------------------------------------------------------------

  lemma SecondByteIsClear(w: bv32)
    requires !Test(w, 0x0080_0000) && !Test(w, 0x0040_0000) && !Test(w, 0x0020_0000) && !Test(w, 0x0010_0000)
    requires !Test(w, 0x0008_0000) && !Test(w, 0x0004_0000) && !Test(w, 0x0002_0000) && !Test(w, 0x0001_0000)
    ensures w & 0x00FF_0000 == 0
  {
  }

  lemma ThirdByteIsClear(w: bv32)
    requires !Test(w, 0x0000_8000) && !Test(w, 0x0000_4000) && !Test(w, 0x0000_2000) && !Test(w, 0x0000_1000)
    requires !Test(w, 0x0000_0800) && !Test(w, 0x0000_0400) && !Test(w, 0x0000_0200) && !Test(w, 0x0000_0100)
    ensures w & 0x0000_FF00 == 0
  {
  }

  lemma LastByteIsClear(w: bv32)
    requires !Test(w, 0x0000_0080) && !Test(w, 0x0000_0040) && !Test(w, 0x0000_0020) && !Test(w, 0x0000_0010)
    requires !Test(w, 0x0000_0008) && !Test(w, 0x0000_0004) && !Test(w, 0x0000_0002) && !Test(w, 0x0000_0001)
    ensures w & 0x0000_00FF == 0
  {
  }

  lemma FourBytes(w: bv32)
    requires w & 0xFF00_0000 == 0 && w & 0x00FF_0000 == 0 && w & 0x0000_FF00 == 0 && w & 0x0000_00FF == 0
    ensures w == 0
  {
  }

  lemma NoBits(w: bv32)
    requires forall n: nat :: 1 <= n <= 32 ==> !TestBit(w, n)
    ensures w == 0
  {
    hide Mask, Test, Single;
    FirstMasks();
    TopByteMasks();
    TopBlockMasks();
    SecondBlockMasks();
    ThirdBlockMasks();
    LastBlockMasks();
    TestedFalse(w);
    TopByteIsClear(w);
    SecondByteIsClear(w);
    ThirdByteIsClear(w);
    LastByteIsClear(w);
    FourBytes(w);
  }

  lemma TestedFalse(w: bv32)
    requires forall n: nat :: 1 <= n <= 32 ==> !TestBit(w, n)
    ensures !TestBit(w, 1) && !TestBit(w, 2) && !TestBit(w, 3) && !TestBit(w, 4) && !TestBit(w, 5) && !TestBit(w, 6)
    ensures !TestBit(w, 7) && !TestBit(w, 8) && !TestBit(w, 9) && !TestBit(w, 10) && !TestBit(w, 11) && !TestBit(w, 12)
    ensures !TestBit(w, 13) && !TestBit(w, 14) && !TestBit(w, 15) && !TestBit(w, 16) && !TestBit(w, 17) && !TestBit(w, 18)
    ensures !TestBit(w, 19) && !TestBit(w, 20) && !TestBit(w, 21) && !TestBit(w, 22) && !TestBit(w, 23) && !TestBit(w, 24)
    ensures !TestBit(w, 25) && !TestBit(w, 26) && !TestBit(w, 27) && !TestBit(w, 28) && !TestBit(w, 29) && !TestBit(w, 30)
    ensures !TestBit(w, 31) && !TestBit(w, 32)
  {
    hide TestBit;
  }

  lemma XorCancels(a: bv32, b: bv32)
    requires XorWord(a, b) == 0
    ensures a == b
  {
  }

  lemma WordFromBits(a: bv32, b: bv32)
    ensures Bits32(a) == Bits32(b) <==> a == b
  {
    hide TestBit, XorWord;
    if Bits32(a) == Bits32(b) {
      forall n: nat | 1 <= n <= 32 ensures !TestBit(XorWord(a, b), n) {
        assert Bits32(a)[n - 1] == Bits32(b)[n - 1];
        XorBit(a, b, n);
      }
      NoBits(XorWord(a, b));
      XorCancels(a, b);
    }
  }

  /** The words of a block are determined by its bits. */
  lemma PairDetermines(a: bv32, b: bv32, c: bv32, d: bv32)
    ensures Pair(a, b) == Pair(c, d) <==> a == c && b == d
  {
    hide Bits32;
    WordFromBits(a, c);
    WordFromBits(b, d);
    if Pair(a, b) == Pair(c, d) {
      assert Bits32(a) == Pair(a, b)[..32] && Bits32(c) == Pair(c, d)[..32];
      assert Bits32(b) == Pair(a, b)[32..] && Bits32(d) == Pair(c, d)[32..];
    }
  }

  function KeyBits(newton: bool, keyHigh: bv32, keyLow: bv32): (keys: seq<Bits>)
    ensures |keys| == 16 && SubKeys(keys)
  {
    if newton then NewtonSubKeysOf(Pair(keyHigh, keyLow)) else SubKeysOf(Pair(keyHigh, keyLow))
  }

  method Encode(newton: bool, keyHigh: bv32, keyLow: bv32, high: bv32, low: bv32) returns (h: bv32, l: bv32)
    ensures Pair(h, l) == Encoded(KeyBits(newton, keyHigh, keyLow), Pair(high, low))
  {
    hide HoldsKeys, SubKeysOf, NewtonSubKeysOf, Encoded, Pair, SubKeys;
    var words: seq<SubKeyWords>;
    if newton {
      words := NewtonKeySchedule(keyHigh, keyLow);
    } else {
      words := KeySchedule(keyHigh, keyLow);
    }
    SixteenWords(words, KeyBits(newton, keyHigh, keyLow));
    h, l := EncodeBlock(words, KeyBits(newton, keyHigh, keyLow), high, low);
  }

  method Decode(newton: bool, keyHigh: bv32, keyLow: bv32, high: bv32, low: bv32) returns (h: bv32, l: bv32)
    ensures Pair(h, l) == Decoded(KeyBits(newton, keyHigh, keyLow), Pair(high, low))
  {
    hide HoldsKeys, SubKeysOf, NewtonSubKeysOf, Decoded, Pair, SubKeys;
    var words: seq<SubKeyWords>;
    if newton {
      words := NewtonKeySchedule(keyHigh, keyLow);
    } else {
      words := KeySchedule(keyHigh, keyLow);
    }
    SixteenWords(words, KeyBits(newton, keyHigh, keyLow));
    h, l := DecodeBlock(words, KeyBits(newton, keyHigh, keyLow), high, low);
  }

  lemma SixteenWords(words: seq<SubKeyWords>, keys: seq<Bits>)
    requires HoldsKeys(words, keys)
    ensures |words| == |keys|
  {
  }

  /** In words: decoding what was encoded under the same subkeys gives the words back, and the other way around. */
  lemma WordsRestored(keys: seq<Bits>, high: bv32, low: bv32, h1: bv32, l1: bv32, h2: bv32, l2: bv32)
    requires SubKeys(keys)
    ensures Pair(h1, l1) == Encoded(keys, Pair(high, low)) && Pair(h2, l2) == Decoded(keys, Pair(h1, l1)) ==>
              h2 == high && l2 == low
    ensures Pair(h1, l1) == Decoded(keys, Pair(high, low)) && Pair(h2, l2) == Encoded(keys, Pair(h1, l1)) ==>
              h2 == high && l2 == low
  {
    hide Encoded, Decoded, Pair;
    DecodedEncoded(keys, Pair(high, low));
    EncodedDecoded(keys, Pair(high, low));
    PairDetermines(h2, l2, high, low);
  }
}
