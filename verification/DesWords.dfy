/** DES on words, as functions that can be computed: the rounds, the final permutation and the key schedule, with the
    masks of the tables written out. For every word they are what the cipher and its schedule say of the bits.

    The selection takes six bits for an S-box, overlapping by two: turning the word brings those of each box to its
    end. The permutations and choices pick bits by their masks, four at a time. */
module DesWords {
  import opened DesBits
  import opened DesTables
  import opened DesCipher
  import opened DesKeys
  import opened UDes

  // ---- on words -----------------------------------------------------------------------------------

  function Joined(a: bv32, b: bv32, c: bv32, d: bv32, e: bv32, f: bv32, g: bv32, h: bv32): bv32 {
    (((((((((((((a << 4) | b) << 4) | c) << 4) | d) << 4) | e) << 4) | f) << 4) | g) << 4) | h
  }

  /** The S-boxes over turned words and the two words of a subkey. */
  function BoxesOf(u0: bv32, u1: bv32, u2: bv32, u3: bv32, u4: bv32, u5: bv32, u6: bv32, u7: bv32,
                   h: bv32, l: bv32): bv32 {
    var x0 := u0 ^ (h >> 18);
    var x1 := u1 ^ (h >> 12);
    var x2 := u2 ^ (h >> 6);
    var x3 := u3 ^ h;
    var x4 := u4 ^ (l >> 18);
    var x5 := u5 ^ (l >> 12);
    var x6 := u6 ^ (l >> 6);
    var x7 := u7 ^ l;
    Joined(S1((((x0 >> 4) & 2) | (x0 & 1)) as bv8, ((x0 >> 1) & 0xF) as bv8) as bv32,
           S2((((x1 >> 4) & 2) | (x1 & 1)) as bv8, ((x1 >> 1) & 0xF) as bv8) as bv32,
           S3((((x2 >> 4) & 2) | (x2 & 1)) as bv8, ((x2 >> 1) & 0xF) as bv8) as bv32,
           S4((((x3 >> 4) & 2) | (x3 & 1)) as bv8, ((x3 >> 1) & 0xF) as bv8) as bv32,
           S5((((x4 >> 4) & 2) | (x4 & 1)) as bv8, ((x4 >> 1) & 0xF) as bv8) as bv32,
           S6((((x5 >> 4) & 2) | (x5 & 1)) as bv8, ((x5 >> 1) & 0xF) as bv8) as bv32,
           S7((((x6 >> 4) & 2) | (x6 & 1)) as bv8, ((x6 >> 1) & 0xF) as bv8) as bv32,
           S8((((x7 >> 4) & 2) | (x7 & 1)) as bv8, ((x7 >> 1) & 0xF) as bv8) as bv32)
  }

  /** The S-boxes over a word and the two words of a subkey. */
  function Boxes(w: bv32, h: bv32, l: bv32): bv32 {
    BoxesOf((w << 5) | (w >> 27), (w << 9) | (w >> 23), (w << 13) | (w >> 19), (w << 17) | (w >> 15),
            (w << 21) | (w >> 11), (w << 25) | (w >> 7), (w << 29) | (w >> 3), (w << 1) | (w >> 31), h, l)
  }

  function BitIf(b: bool, v: bv32): bv32 {
    if b then v else 0
  }

  function Four(a: bool, b: bool, c: bool, d: bool): bv32 {
    BitIf(a, 8) | BitIf(b, 4) | BitIf(c, 2) | BitIf(d, 1)
  }

  function NextFour(w: bv32, a: bool, b: bool, c: bool, d: bool): bv32 {
    AppendFour(w, Four(a, b, c, d))
  }

  function Chosen(m: bv32, a: bv32, v: bv32): bv32 {
    if m & a != 0 then v else 0
  }

  function PickFour(w: bv32, m: bv32, a: bv32, b: bv32, c: bv32, d: bv32): bv32 {
    AppendFour(w, Chosen(m, a, 8) | Chosen(m, b, 4) | Chosen(m, c, 2) | Chosen(m, d, 1))
  }

  function PermutedWord(m: bv32): bv32 {
    var w0 := PickFour(0, m, 0x0001_0000, 0x0200_0000, 0x0000_1000, 0x0000_0800);
    var w1 := PickFour(w0, m, 0x0000_0008, 0x0010_0000, 0x0000_0010, 0x0000_8000);
    var w2 := PickFour(w1, m, 0x8000_0000, 0x0002_0000, 0x0000_0200, 0x0000_0040);
    var w3 := PickFour(w2, m, 0x0800_0000, 0x0000_4000, 0x0000_0002, 0x0040_0000);
    var w4 := PickFour(w3, m, 0x4000_0000, 0x0100_0000, 0x0000_0100, 0x0004_0000);
    var w5 := PickFour(w4, m, 0x0000_0001, 0x0000_0020, 0x2000_0000, 0x0080_0000);
    var w6 := PickFour(w5, m, 0x0000_2000, 0x0008_0000, 0x0000_0004, 0x0400_0000);
    PickFour(w6, m, 0x0000_0400, 0x0020_0000, 0x1000_0000, 0x0000_0080)
  }

  function Next(left: bv32, right: bv32, key: SubKeyWords): bv32 {
    XorWord(left, PermutedWord(Boxes(right, key.high, key.low)))
  }

  /** Bits of two words in turn. */
  function PickPairs(w: bv32, l: bv32, r: bv32, a: bv32, b: bv32): bv32 {
    AppendFour(w, Chosen(l, a, 8) | Chosen(r, a, 4) | Chosen(l, b, 2) | Chosen(r, b, 1))
  }

  function FinalHigh(l: bv32, r: bv32): bv32 {
    var w0 := PickPairs(0, l, r, 0x0100_0000, 0x0001_0000);
    var w1 := PickPairs(w0, l, r, 0x0000_0100, 0x0000_0001);
    var w2 := PickPairs(w1, l, r, 0x0200_0000, 0x0002_0000);
    var w3 := PickPairs(w2, l, r, 0x0000_0200, 0x0000_0002);
    var w4 := PickPairs(w3, l, r, 0x0400_0000, 0x0004_0000);
    var w5 := PickPairs(w4, l, r, 0x0000_0400, 0x0000_0004);
    var w6 := PickPairs(w5, l, r, 0x0800_0000, 0x0008_0000);
    PickPairs(w6, l, r, 0x0000_0800, 0x0000_0008)
  }

  function FinalLow(l: bv32, r: bv32): bv32 {
    var w0 := PickPairs(0, l, r, 0x1000_0000, 0x0010_0000);
    var w1 := PickPairs(w0, l, r, 0x0000_1000, 0x0000_0010);
    var w2 := PickPairs(w1, l, r, 0x2000_0000, 0x0020_0000);
    var w3 := PickPairs(w2, l, r, 0x0000_2000, 0x0000_0020);
    var w4 := PickPairs(w3, l, r, 0x4000_0000, 0x0040_0000);
    var w5 := PickPairs(w4, l, r, 0x0000_4000, 0x0000_0040);
    var w6 := PickPairs(w5, l, r, 0x8000_0000, 0x0080_0000);
    PickPairs(w6, l, r, 0x0000_8000, 0x0000_0080)
  }

  /** Permuted choice 1: the two halves of a key, 28 bits each. */
  function FirstWord(high: bv32, low: bv32): bv32 {
    var w0 := PickFour(0, low, 0x0000_0080, 0x0000_8000, 0x0080_0000, 0x8000_0000);
    var w1 := PickFour(w0, high, 0x0000_0080, 0x0000_8000, 0x0080_0000, 0x8000_0000);
    var w2 := PickFour(w1, low, 0x0000_0040, 0x0000_4000, 0x0040_0000, 0x4000_0000);
    var w3 := PickFour(w2, high, 0x0000_0040, 0x0000_4000, 0x0040_0000, 0x4000_0000);
    var w4 := PickFour(w3, low, 0x0000_0020, 0x0000_2000, 0x0020_0000, 0x2000_0000);
    var w5 := PickFour(w4, high, 0x0000_0020, 0x0000_2000, 0x0020_0000, 0x2000_0000);
    PickFour(w5, low, 0x0000_0010, 0x0000_1000, 0x0010_0000, 0x1000_0000)
  }

  function SecondWord(high: bv32, low: bv32): bv32 {
    var w0 := PickFour(0, low, 0x0000_0002, 0x0000_0200, 0x0002_0000, 0x0200_0000);
    var w1 := PickFour(w0, high, 0x0000_0002, 0x0000_0200, 0x0002_0000, 0x0200_0000);
    var w2 := PickFour(w1, low, 0x0000_0004, 0x0000_0400, 0x0004_0000, 0x0400_0000);
    var w3 := PickFour(w2, high, 0x0000_0004, 0x0000_0400, 0x0004_0000, 0x0400_0000);
    var w4 := PickFour(w3, low, 0x0000_0008, 0x0000_0800, 0x0008_0000, 0x0800_0000);
    var w5 := PickFour(w4, high, 0x0000_0008, 0x0000_0800, 0x0008_0000, 0x0800_0000);
    PickFour(w5, high, 0x0000_0010, 0x0000_1000, 0x0010_0000, 0x1000_0000)
  }

  /** Permuted choice 2: the two words of a subkey. */
  function HighOfHalf(half: bv32): bv32 {
    var w0 := PickFour(0, half, 0x0000_4000, 0x0000_0800, 0x0002_0000, 0x0000_0010);
    var w1 := PickFour(w0, half, 0x0800_0000, 0x0080_0000, 0x0200_0000, 0x0000_0001);
    var w2 := PickFour(w1, half, 0x0000_2000, 0x0040_0000, 0x0000_0080, 0x0004_0000);
    var w3 := PickFour(w2, half, 0x0000_0020, 0x0000_0200, 0x0001_0000, 0x0100_0000);
    var w4 := PickFour(w3, half, 0x0000_0004, 0x0010_0000, 0x0000_1000, 0x0020_0000);
    PickFour(w4, half, 0x0000_0002, 0x0000_0100, 0x0000_8000, 0x0400_0000)
  }

  function LowOfHalf(half: bv32): bv32 {
    var w0 := PickFour(0, half, 0x0000_8000, 0x0000_0010, 0x0200_0000, 0x0008_0000);
    var w1 := PickFour(w0, half, 0x0000_0200, 0x0000_0002, 0x0400_0000, 0x0001_0000);
    var w2 := PickFour(w1, half, 0x0000_0020, 0x0000_0800, 0x0080_0000, 0x0000_0100);
    var w3 := PickFour(w2, half, 0x0000_1000, 0x0000_0080, 0x0002_0000, 0x0000_0001);
    var w4 := PickFour(w3, half, 0x0040_0000, 0x0000_0008, 0x0000_0400, 0x0000_4000);
    PickFour(w4, half, 0x0000_0040, 0x0010_0000, 0x0800_0000, 0x0100_0000)
  }

  // ---- turning a word --------------------------------------------------------------------------------

  function TurnOne(w: bv32): bv32 {
    (w << 1) | (w >> 31)
  }

  function TurnFour(w: bv32): bv32 {
    (w << 4) | (w >> 28)
  }

  lemma TopBit(w: bv32)
    ensures w & 0x8000_0000 != 0 ==> w >> 31 == 1
    ensures w & 0x8000_0000 == 0 ==> w >> 31 == 0
  {
  }

  lemma TurnedOnce(w: bv32)
    ensures TurnOne(w) == ShiftIn(w, w & 0x8000_0000 != 0)
  {
    TopBit(w);
  }

  lemma TurnedFour(w: bv32)
    ensures TurnFour(w) == TurnOne(TurnOne(TurnOne(TurnOne(w))))
  {
  }

  /** Bits turned to the left by some places. */
  function Turn(b: Bits, n: nat): (r: Bits)
    requires |b| == 32
    ensures |r| == 32
  {
    seq(32, i requires 0 <= i < 32 => b[(i + n) % 32])
  }

  ghost predicate TurnedBy(w: bv32, u: bv32, n: nat) {
    Bits32(u) == Turn(Bits32(w), n)
  }

  lemma TurnNext(b: Bits, n: nat)
    requires |b| == 32
    ensures Turn(b, n)[1..] + [Turn(b, n)[0]] == Turn(b, n + 1)
  {
    assert (31 + n + 1) % 32 == n % 32;
  }

  lemma TurnOneMore(w: bv32, u: bv32, n: nat)
    requires TurnedBy(w, u, n)
    ensures TurnedBy(w, TurnOne(u), n + 1)
  {
    hide Bits32, ShiftIn, TurnOne, Turn;
    TurnedOnce(u);
    TestedFirst(u);
    ShiftInBits(u, u & 0x8000_0000 != 0);
    TurnNext(Bits32(w), n);
  }

  lemma TestedFirst(w: bv32)
    ensures Bits32(w)[0] == (w & 0x8000_0000 != 0)
  {
    hide Mask, Single;
    FirstMasks();
  }

  lemma TurnFourMore(w: bv32, u: bv32, n: nat)
    requires TurnedBy(w, u, n)
    ensures TurnedBy(w, TurnFour(u), n + 4)
  {
    hide TurnedBy, TurnOne, TurnFour;
    var u1 := TurnOne(u);
    var u2 := TurnOne(u1);
    TurnOneMore(w, u, n);
    TurnOneMore(w, u1, n + 1);
    TurnOneMore(w, u2, n + 2);
    TurnOneMore(w, TurnOne(u2), n + 3);
    TurnedFour(u);
  }

  // ---- the S-boxes ---------------------------------------------------------------------------------------

  /** The S-box of the last six bits of a word. */
  function Box(j: nat, x: bv32): (v: bv8)
    requires j < 8
    ensures v < 16
  {
    SBox(j, (((x >> 4) & 2) | (x & 1)) as bv8, ((x >> 1) & 0xF) as bv8)
  }

  lemma SelectedPlace(j: nat, k: nat)
    requires j < 8 && k < 6
    ensures ESel(6 * j + k) - 1 == (26 + k + (5 + 4 * j)) % 32
  {
    hide ESel;
    assert (6 * j + k) / 6 == j && (6 * j + k) % 6 == k;
  }

  lemma SelectedBit(w: bv32, i: nat)
    requires i < 48
    ensures Expand(Bits32(w))[i] == Bits32(w)[ESel(i) - 1]
  {
    hide ESel, Bits32;
  }

  lemma SixTurned(w: bv32, u: bv32, j: nat)
    requires j < 8 && TurnedBy(w, u, 5 + 4 * j)
    ensures TestedAt(u, 3) == Six(Expand(Bits32(w)), j)
  {
    hide TestBit, ESel, Expand, Bits32;
    forall k | 0 <= k < 6 ensures TestedAt(u, 3)[k] == Six(Expand(Bits32(w)), j)[k] {
      SelectedBit(w, 6 * j + k);
      SelectedPlace(j, k);
      LastSixTested(u, k);
    }
  }

  lemma LastSixTested(u: bv32, k: nat)
    requires k < 6
    ensures TestedAt(u, 3)[k] == Bits32(u)[26 + k]
  {
    hide TestBit;
  }

  lemma LastSix(u: bv32)
    ensures (((u >> 4) & 2) | (u & 1)) as bv8 == RowIndex((u & 0x3F) as bv8)
    ensures ((u >> 1) & 0xF) as bv8 == ColumnIndex((u & 0x3F) as bv8)
  {
  }

  lemma BoxIs(j: nat, u: bv32)
    requires j < 8
    ensures NibbleBits(Box(j, u)) == Nibble(j, TestedAt(u, 3))
  {
    hide SBox, RowIndex, ColumnIndex, TestedAt, BlockBits, RowOf, ColumnOf, NibbleBits;
    LastSix(u);
    LastBlockTested(u);
    IndicesAre(BlockAt(u, 3));
  }

  /** The bits of a block of a subkey word, moved to its end. */
  function Shifted(k: bv32, j: nat): bv32
    requires j < 4
  {
    match j
    case 0 => k >> 18 case 1 => k >> 12 case 2 => k >> 6 case _ => k
  }

  lemma FirstShifted(k: bv32)
    ensures And(k >> 18, 0x20) != 0 <==> And(k, 0x0080_0000) != 0
    ensures And(k >> 18, 0x10) != 0 <==> And(k, 0x0040_0000) != 0
    ensures And(k >> 18, 0x08) != 0 <==> And(k, 0x0020_0000) != 0
    ensures And(k >> 18, 0x04) != 0 <==> And(k, 0x0010_0000) != 0
    ensures And(k >> 18, 0x02) != 0 <==> And(k, 0x0008_0000) != 0
    ensures And(k >> 18, 0x01) != 0 <==> And(k, 0x0004_0000) != 0
  {
  }

  lemma SecondShifted(k: bv32)
    ensures And(k >> 12, 0x20) != 0 <==> And(k, 0x0002_0000) != 0
    ensures And(k >> 12, 0x10) != 0 <==> And(k, 0x0001_0000) != 0
    ensures And(k >> 12, 0x08) != 0 <==> And(k, 0x0000_8000) != 0
    ensures And(k >> 12, 0x04) != 0 <==> And(k, 0x0000_4000) != 0
    ensures And(k >> 12, 0x02) != 0 <==> And(k, 0x0000_2000) != 0
    ensures And(k >> 12, 0x01) != 0 <==> And(k, 0x0000_1000) != 0
  {
  }

  lemma ThirdShifted(k: bv32)
    ensures And(k >> 6, 0x20) != 0 <==> And(k, 0x0000_0800) != 0
    ensures And(k >> 6, 0x10) != 0 <==> And(k, 0x0000_0400) != 0
    ensures And(k >> 6, 0x08) != 0 <==> And(k, 0x0000_0200) != 0
    ensures And(k >> 6, 0x04) != 0 <==> And(k, 0x0000_0100) != 0
    ensures And(k >> 6, 0x02) != 0 <==> And(k, 0x0000_0080) != 0
    ensures And(k >> 6, 0x01) != 0 <==> And(k, 0x0000_0040) != 0
  {
  }

  lemma FirstShiftedTested(k: bv32)
    ensures TestedAt(Shifted(k, 0), 3) == TestedAt(k, 0)
  {
    hide Mask, Single, And;
    TopBlockMasks();
    LastBlockMasks();
    FirstShifted(k);
  }

  lemma SecondShiftedTested(k: bv32)
    ensures TestedAt(Shifted(k, 1), 3) == TestedAt(k, 1)
  {
    hide Mask, Single, And;
    SecondBlockMasks();
    LastBlockMasks();
    SecondShifted(k);
  }

  lemma ThirdShiftedTested(k: bv32)
    ensures TestedAt(Shifted(k, 2), 3) == TestedAt(k, 2)
  {
    hide Mask, Single, And;
    ThirdBlockMasks();
    LastBlockMasks();
    ThirdShifted(k);
  }

  lemma ShiftedTested(k: bv32, j: nat)
    requires j < 4
    ensures TestedAt(Shifted(k, j), 3) == TestedAt(k, j)
  {
    hide TestedAt;
    match j
    case 0 => FirstShiftedTested(k);
    case 1 => SecondShiftedTested(k);
    case 2 => ThirdShiftedTested(k);
    case _ =>
  }

  /** The words of a subkey, six bits for each S-box. */
  lemma KeySix(k: SubKeyWords, key: Bits, j: nat)
    requires |key| == 48 && HoldsKey(k, key) && j < 8
    ensures TestedAt(Shifted(if j < 4 then k.high else k.low, j % 4), 3) == Six(key, j)
  {
    hide Holds, TestedAt, Shifted, Six;
    var word, half := if j < 4 then k.high else k.low, if j < 4 then key[..24] else key[24..];
    ShiftedTested(word, j % 4);
    BlockHeld(word, half, j % 4);
    SixAt(key, j);
  }

  lemma XorTested(a: bv32, b: bv32)
    ensures TestedAt(XorWord(a, b), 3) == Xor(TestedAt(a, 3), TestedAt(b, 3))
  {
    hide TestedAt, XorWord, Bits32;
    XorBits(a, b);
    forall k | 0 <= k < 6 ensures TestedAt(XorWord(a, b), 3)[k] == Xor(TestedAt(a, 3), TestedAt(b, 3))[k] {
      LastSixTested(XorWord(a, b), k);
      LastSixTested(a, k);
      LastSixTested(b, k);
    }
  }

  lemma SixOfXor(e: Bits, key: Bits, j: nat)
    requires |e| == |key| == 48 && j < 8
    ensures Six(Xor(e, key), j) == Xor(Six(e, j), Six(key, j))
  {
  }

  lemma BoxStep(w: bv32, key: Bits, u: bv32, k: bv32, m: bv32, j: nat)
    requires |key| == 48 && j < 8 && TurnedBy(w, u, 5 + 4 * j) && TestedAt(Shifted(k, j % 4), 3) == Six(key, j)
    requires Holds(m, Substituted(Xor(Expand(Bits32(w)), key), j))
    ensures Holds(AppendFour(m, KeyedBox(u, k, j) as bv32), Substituted(Xor(Expand(Bits32(w)), key), j + 1))
    ensures TurnedBy(w, TurnFour(u), 5 + 4 * (j + 1))
  {
    hide TurnedBy, Holds, Expand, Box, AppendFour, TurnFour, Nibble, TestedAt, Six, NibbleBits, Xor, XorWord, Bits32, Shifted;
    var e, x := Expand(Bits32(w)), Shifted(k, j % 4);
    SixTurned(w, u, j);
    XorTested(u, x);
    SixOfXor(e, key, j);
    BoxIs(j, XorWord(u, x));
    NibbleHolds(m, Substituted(Xor(e, key), j), KeyedBox(u, k, j));
    TurnFourMore(w, u, 5 + 4 * j);
  }

  /** Four S-boxes, from the first or from the fifth on. */
  function BoxFour(m: bv32, u: bv32, k: bv32, j: nat): bv32
    requires j == 0 || j == 4
  {
    var u1 := TurnFour(u);
    var u2 := TurnFour(u1);
    var m1 := AppendFour(m, KeyedBox(u, k, j) as bv32);
    var m2 := AppendFour(m1, KeyedBox(u1, k, j + 1) as bv32);
    var m3 := AppendFour(m2, KeyedBox(u2, k, j + 2) as bv32);
    AppendFour(m3, KeyedBox(TurnFour(u2), k, j + 3) as bv32)
  }

  lemma BoxFourStep(w: bv32, k: SubKeyWords, key: Bits, u: bv32, m: bv32, j: nat)
    requires |key| == 48 && HoldsKey(k, key) && (j == 0 || j == 4) && TurnedBy(w, u, 5 + 4 * j)
    requires Holds(m, Substituted(Xor(Expand(Bits32(w)), key), j))
    ensures Holds(BoxFour(m, u, if j == 0 then k.high else k.low, j), Substituted(Xor(Expand(Bits32(w)), key), j + 4))
    ensures TurnedBy(w, TurnFour(TurnFour(TurnFour(TurnFour(u)))), 5 + 4 * (j + 4))
  {
    hide TurnedBy, Holds, Expand, KeyedBox, AppendFour, TurnFour, Substituted, Shifted, TestedAt, Six, Xor, Bits32, HoldsKey;
    var word := if j == 0 then k.high else k.low;
    var u1 := TurnFour(u);
    var u2 := TurnFour(u1);
    var m1 := AppendFour(m, KeyedBox(u, word, j) as bv32);
    var m2 := AppendFour(m1, KeyedBox(u1, word, j + 1) as bv32);
    var m3 := AppendFour(m2, KeyedBox(u2, word, j + 2) as bv32);
    KeySix(k, key, j);
    KeySix(k, key, j + 1);
    KeySix(k, key, j + 2);
    KeySix(k, key, j + 3);
    BoxStep(w, key, u, word, m, j);
    BoxStep(w, key, u1, word, m1, j + 1);
    BoxStep(w, key, u2, word, m2, j + 2);
    BoxStep(w, key, TurnFour(u2), word, m3, j + 3);
  }

  lemma FirstTurns(w: bv32)
    ensures TurnFour(TurnOne(w)) == (w << 5) | (w >> 27)
    ensures TurnFour((w << 5) | (w >> 27)) == (w << 9) | (w >> 23)
    ensures TurnFour((w << 9) | (w >> 23)) == (w << 13) | (w >> 19)
    ensures TurnFour((w << 13) | (w >> 19)) == (w << 17) | (w >> 15)
  {
  }

  lemma LastTurns(w: bv32)
    ensures TurnFour((w << 17) | (w >> 15)) == (w << 21) | (w >> 11)
    ensures TurnFour((w << 21) | (w >> 11)) == (w << 25) | (w >> 7)
    ensures TurnFour((w << 25) | (w >> 7)) == (w << 29) | (w >> 3)
    ensures TurnFour((w << 29) | (w >> 3)) == (w << 1) | (w >> 31)
  {
  }

  /** The S-box of the last six bits of a word and those of a block of a subkey word. */
  function KeyedBox(u: bv32, k: bv32, j: nat): (v: bv8)
    requires j < 8
    ensures v < 16
  {
    Box(j, XorWord(u, Shifted(k, j % 4)))
  }

  lemma Boxes12(a: bv32, b: bv32, k: bv32)
    ensures S1(((((a ^ (k >> 18)) >> 4) & 2) | ((a ^ (k >> 18)) & 1)) as bv8, (((a ^ (k >> 18)) >> 1) & 0xF) as bv8)
         == KeyedBox(a, k, 0)
    ensures S2(((((b ^ (k >> 12)) >> 4) & 2) | ((b ^ (k >> 12)) & 1)) as bv8, (((b ^ (k >> 12)) >> 1) & 0xF) as bv8)
         == KeyedBox(b, k, 1)
  {
    hide S1, S2, S3, S4, S5, S6, S7, S8;
  }

  lemma Boxes34(a: bv32, b: bv32, k: bv32)
    ensures S3(((((a ^ (k >> 6)) >> 4) & 2) | ((a ^ (k >> 6)) & 1)) as bv8, (((a ^ (k >> 6)) >> 1) & 0xF) as bv8)
         == KeyedBox(a, k, 2)
    ensures S4(((((b ^ k) >> 4) & 2) | ((b ^ k) & 1)) as bv8, (((b ^ k) >> 1) & 0xF) as bv8)
         == KeyedBox(b, k, 3)
  {
    hide S1, S2, S3, S4, S5, S6, S7, S8;
  }

  lemma Boxes56(a: bv32, b: bv32, k: bv32)
    ensures S5(((((a ^ (k >> 18)) >> 4) & 2) | ((a ^ (k >> 18)) & 1)) as bv8, (((a ^ (k >> 18)) >> 1) & 0xF) as bv8)
         == KeyedBox(a, k, 4)
    ensures S6(((((b ^ (k >> 12)) >> 4) & 2) | ((b ^ (k >> 12)) & 1)) as bv8, (((b ^ (k >> 12)) >> 1) & 0xF) as bv8)
         == KeyedBox(b, k, 5)
  {
    hide S1, S2, S3, S4, S5, S6, S7, S8;
  }

  lemma Boxes78(a: bv32, b: bv32, k: bv32)
    ensures S7(((((a ^ (k >> 6)) >> 4) & 2) | ((a ^ (k >> 6)) & 1)) as bv8, (((a ^ (k >> 6)) >> 1) & 0xF) as bv8)
         == KeyedBox(a, k, 6)
    ensures S8(((((b ^ k) >> 4) & 2) | ((b ^ k) & 1)) as bv8, (((b ^ k) >> 1) & 0xF) as bv8)
         == KeyedBox(b, k, 7)
  {
    hide S1, S2, S3, S4, S5, S6, S7, S8;
  }

  lemma JoinedIs(a: bv32, b: bv32, c: bv32, d: bv32, e: bv32, f: bv32, g: bv32, h: bv32)
    ensures Joined(a, b, c, d, e, f, g, h)
         == AppendFour(AppendFour(AppendFour(AppendFour(AppendFour(AppendFour(AppendFour(AppendFour(0, a), b), c), d), e), f), g), h)
  {
  }

  lemma BoxesJoined(u0: bv32, u1: bv32, u2: bv32, u3: bv32, u4: bv32, u5: bv32, u6: bv32, u7: bv32, h: bv32, l: bv32)
    ensures BoxesOf(u0, u1, u2, u3, u4, u5, u6, u7, h, l)
         == Joined(KeyedBox(u0, h, 0) as bv32, KeyedBox(u1, h, 1) as bv32, KeyedBox(u2, h, 2) as bv32, KeyedBox(u3, h, 3) as bv32,
                   KeyedBox(u4, l, 4) as bv32, KeyedBox(u5, l, 5) as bv32, KeyedBox(u6, l, 6) as bv32, KeyedBox(u7, l, 7) as bv32)
  {
    hide S1, S2, S3, S4, S5, S6, S7, S8, KeyedBox, Joined;
    Boxes12(u0, u1, h);
    Boxes34(u2, u3, h);
    Boxes56(u4, u5, l);
    Boxes78(u6, u7, l);
  }

  lemma BoxesInFours(u: bv32, h: bv32, l: bv32)
    ensures var u1 := TurnFour(u);
            var u2 := TurnFour(u1);
            var u3 := TurnFour(u2);
            var u4 := TurnFour(u3);
            var u5 := TurnFour(u4);
            var u6 := TurnFour(u5);
            BoxesOf(u, u1, u2, u3, u4, u5, u6, TurnFour(u6), h, l) == BoxFour(BoxFour(0, u, h, 0), u4, l, 4)
  {
    hide BoxesOf, KeyedBox, TurnFour, Joined, AppendFour;
    var u1 := TurnFour(u);
    var u2 := TurnFour(u1);
    var u3 := TurnFour(u2);
    var u4 := TurnFour(u3);
    var u5 := TurnFour(u4);
    var u6 := TurnFour(u5);
    var u7 := TurnFour(u6);
    BoxesJoined(u, u1, u2, u3, u4, u5, u6, u7, h, l);
    JoinedIs(KeyedBox(u, h, 0) as bv32, KeyedBox(u1, h, 1) as bv32, KeyedBox(u2, h, 2) as bv32, KeyedBox(u3, h, 3) as bv32,
             KeyedBox(u4, l, 4) as bv32, KeyedBox(u5, l, 5) as bv32, KeyedBox(u6, l, 6) as bv32, KeyedBox(u7, l, 7) as bv32);
  }

  lemma BoxesTurned(w: bv32, h: bv32, l: bv32)
    ensures var u := TurnFour(TurnOne(w));
            Boxes(w, h, l) == BoxFour(BoxFour(0, u, h, 0), TurnFour(TurnFour(TurnFour(TurnFour(u)))), l, 4)
  {
    hide BoxesOf, BoxFour, TurnFour, TurnOne;
    FirstTurns(w);
    LastTurns(w);
    BoxesInFours(TurnFour(TurnOne(w)), h, l);
  }

  lemma BoxesAre(w: bv32, k: SubKeyWords, key: Bits)
    requires |key| == 48 && HoldsKey(k, key)
    ensures Bits32(Boxes(w, k.high, k.low)) == Substituted(Xor(Expand(Bits32(w)), key), 8)
  {
    hide TurnedBy, Holds, Expand, BoxFour, Boxes, TurnFour, TurnOne, Bits32, Substituted, HoldsKey, Xor;
    TurnedNone(w);
    NothingSubstituted(Xor(Expand(Bits32(w)), key));
    TurnOneMore(w, w, 0);
    TurnFourMore(w, TurnOne(w), 1);
    ZeroHolds();
    var u := TurnFour(TurnOne(w));
    BoxFourStep(w, k, key, u, 0, 0);
    BoxFourStep(w, k, key, TurnFour(TurnFour(TurnFour(TurnFour(u)))), BoxFour(0, u, k.high, 0), 4);
    BoxesTurned(w, k.high, k.low);
    HoldsWhole(Boxes(w, k.high, k.low), Substituted(Xor(Expand(Bits32(w)), key), 8));
  }

  lemma NothingSubstituted(e: Bits)
    requires |e| == 48
    ensures Substituted(e, 0) == []
  {
  }

  lemma TurnedNone(w: bv32)
    ensures TurnedBy(w, w, 0)
  {
    hide Bits32;
  }

  // ---- picking bits -----------------------------------------------------------------------------------------

  lemma FourAre(a: bool, b: bool, c: bool, d: bool)
    ensures Four(a, b, c, d) == FourBits(a, b, c, d)
  {
  }

  lemma ChosenIs(m: bv32, a: bv32, v: bv32)
    ensures Chosen(m, a, v) == BitIf(Test(m, a), v)
  {
  }

  lemma ChosenFour(k: bv32, l: bv32, m: bv32, n: bv32, a: bv32, b: bv32, c: bv32, d: bv32)
    ensures Chosen(k, a, 8) | Chosen(l, b, 4) | Chosen(m, c, 2) | Chosen(n, d, 1)
         == Four(Test(k, a), Test(l, b), Test(m, c), Test(n, d))
  {
    hide Chosen, BitIf, Test;
    ChosenIs(k, a, 8);
    ChosenIs(l, b, 4);
    ChosenIs(m, c, 2);
    ChosenIs(n, d, 1);
  }

  lemma PicksAre(w: bv32, l: bv32, r: bv32, a: bv32, b: bv32, c: bv32, d: bv32)
    ensures PickFour(w, l, a, b, c, d) == NextFour(w, Test(l, a), Test(l, b), Test(l, c), Test(l, d))
    ensures PickPairs(w, l, r, a, b) == NextFour(w, Test(l, a), Test(r, a), Test(l, b), Test(r, b))
  {
    hide AppendFour, Chosen, Four, Test;
    ChosenFour(l, l, l, l, a, b, c, d);
    ChosenFour(l, r, l, r, a, a, b, b);
  }

  lemma NextFourHolds(w: bv32, bits: Bits, a: bool, b: bool, c: bool, d: bool)
    requires Holds(w, bits) && |bits| <= 28
    ensures Holds(NextFour(w, a, b, c, d), bits + [a, b, c, d])
  {
    hide Holds, ShiftIn, AppendFour, Four, FourBits;
    FourAre(a, b, c, d);
    AppendShifts(w, a, b, c, d);
    HoldsMore(w, bits, a);
    HoldsMore(ShiftIn(w, a), bits + [a], b);
    HoldsMore(ShiftIn(ShiftIn(w, a), b), bits + [a] + [b], c);
    HoldsMore(ShiftIn(ShiftIn(ShiftIn(w, a), b), c), bits + [a] + [b] + [c], d);
    assert bits + [a] + [b] + [c] + [d] == bits + [a, b, c, d];
  }

  lemma TakeFour(all: Bits, i: nat, a: bool, b: bool, c: bool, d: bool)
    requires i + 4 <= |all| && all[i] == a && all[i + 1] == b && all[i + 2] == c && all[i + 3] == d
    ensures all[..i + 4] == all[..i] + [a, b, c, d]
  {
  }

  /** Four bits more of a list of bits, tested in a word. */
  lemma PickStep(all: Bits, w: bv32, m: bv32, i: nat, a: bv32, b: bv32, c: bv32, d: bv32)
    requires i + 4 <= |all| <= 32 && Holds(w, all[..i])
    requires all[i] == Test(m, a) && all[i + 1] == Test(m, b) && all[i + 2] == Test(m, c) && all[i + 3] == Test(m, d)
    ensures Holds(PickFour(w, m, a, b, c, d), all[..i + 4])
  {
    hide Holds, NextFour, PickFour, PickPairs, Test;
    PicksAre(w, m, m, a, b, c, d);
    TakeFour(all, i, Test(m, a), Test(m, b), Test(m, c), Test(m, d));
    NextFourHolds(w, all[..i], Test(m, a), Test(m, b), Test(m, c), Test(m, d));
  }

  lemma PermutedBit(m: bv32, i: nat)
    requires i < 32
    ensures Permuted(Bits32(m))[i] == Test(m, Mask(Perm(i)))
  {
    hide Perm, Mask, Test;
  }

  lemma PermuteFour(w: bv32, m: bv32, i: nat, a: bv32, b: bv32, c: bv32, d: bv32)
    requires i <= 28 && Holds(w, Permuted(Bits32(m))[..i])
    requires a == Mask(Perm(i)) && b == Mask(Perm(i + 1)) && c == Mask(Perm(i + 2)) && d == Mask(Perm(i + 3))
    ensures Holds(PickFour(w, m, a, b, c, d), Permuted(Bits32(m))[..i + 4])
  {
    hide Holds, Permuted, Mask, Perm, PickFour, Test, Single;
    PermutedBit(m, i);
    PermutedBit(m, i + 1);
    PermutedBit(m, i + 2);
    PermutedBit(m, i + 3);
    PickStep(Permuted(Bits32(m)), w, m, i, a, b, c, d);
  }

  lemma PermutedHolds(m: bv32)
    ensures Holds(PermutedWord(m), Permuted(Bits32(m)))
  {
    hide Holds, Permuted, Perm, Mask, Single, PickFour;
    ghost var p := Permuted(Bits32(m));
    AllMasks();
    FirstPerms();
    MiddlePerms();
    LastPerms();
    ZeroHolds();
    assert p[..0] == [] && p[..32] == p;
    PermuteFour(0, m, 0, 0x0001_0000, 0x0200_0000, 0x0000_1000, 0x0000_0800);
    var w0 := PickFour(0, m, 0x0001_0000, 0x0200_0000, 0x0000_1000, 0x0000_0800);
    PermuteFour(w0, m, 4, 0x0000_0008, 0x0010_0000, 0x0000_0010, 0x0000_8000);
    var w1 := PickFour(w0, m, 0x0000_0008, 0x0010_0000, 0x0000_0010, 0x0000_8000);
    PermuteFour(w1, m, 8, 0x8000_0000, 0x0002_0000, 0x0000_0200, 0x0000_0040);
    var w2 := PickFour(w1, m, 0x8000_0000, 0x0002_0000, 0x0000_0200, 0x0000_0040);
    PermuteFour(w2, m, 12, 0x0800_0000, 0x0000_4000, 0x0000_0002, 0x0040_0000);
    var w3 := PickFour(w2, m, 0x0800_0000, 0x0000_4000, 0x0000_0002, 0x0040_0000);
    PermuteFour(w3, m, 16, 0x4000_0000, 0x0100_0000, 0x0000_0100, 0x0004_0000);
    var w4 := PickFour(w3, m, 0x4000_0000, 0x0100_0000, 0x0000_0100, 0x0004_0000);
    PermuteFour(w4, m, 20, 0x0000_0001, 0x0000_0020, 0x2000_0000, 0x0080_0000);
    var w5 := PickFour(w4, m, 0x0000_0001, 0x0000_0020, 0x2000_0000, 0x0080_0000);
    PermuteFour(w5, m, 24, 0x0000_2000, 0x0008_0000, 0x0000_0004, 0x0400_0000);
    var w6 := PickFour(w5, m, 0x0000_2000, 0x0008_0000, 0x0000_0004, 0x0400_0000);
    PermuteFour(w6, m, 28, 0x0000_0400, 0x0020_0000, 0x1000_0000, 0x0000_0080);
  }

  lemma FirstPerms()
    ensures Perm(0) == 16 && Perm(1) == 7 && Perm(2) == 20 && Perm(3) == 21
    ensures Perm(4) == 29 && Perm(5) == 12 && Perm(6) == 28 && Perm(7) == 17
    ensures Perm(8) == 1 && Perm(9) == 15 && Perm(10) == 23 && Perm(11) == 26
  {
  }

  lemma MiddlePerms()
    ensures Perm(12) == 5 && Perm(13) == 18 && Perm(14) == 31 && Perm(15) == 10
    ensures Perm(16) == 2 && Perm(17) == 8 && Perm(18) == 24 && Perm(19) == 14
    ensures Perm(20) == 32 && Perm(21) == 27 && Perm(22) == 3 && Perm(23) == 9
  {
  }

  lemma LastPerms()
    ensures Perm(24) == 19 && Perm(25) == 13 && Perm(26) == 30 && Perm(27) == 6
    ensures Perm(28) == 22 && Perm(29) == 11 && Perm(30) == 4 && Perm(31) == 25
  {
  }

  lemma AllMasks()
    ensures Mask(1) == 0x8000_0000 && Mask(2) == 0x4000_0000 && Mask(3) == 0x2000_0000 && Mask(4) == 0x1000_0000
    ensures Mask(5) == 0x0800_0000 && Mask(6) == 0x0400_0000 && Mask(7) == 0x0200_0000 && Mask(8) == 0x0100_0000
    ensures Mask(9) == 0x0080_0000 && Mask(10) == 0x0040_0000 && Mask(11) == 0x0020_0000 && Mask(12) == 0x0010_0000
    ensures Mask(13) == 0x0008_0000 && Mask(14) == 0x0004_0000 && Mask(15) == 0x0002_0000 && Mask(16) == 0x0001_0000
    ensures Mask(17) == 0x0000_8000 && Mask(18) == 0x0000_4000 && Mask(19) == 0x0000_2000 && Mask(20) == 0x0000_1000
    ensures Mask(21) == 0x0000_0800 && Mask(22) == 0x0000_0400 && Mask(23) == 0x0000_0200 && Mask(24) == 0x0000_0100
    ensures Mask(25) == 0x0000_0080 && Mask(26) == 0x0000_0040 && Mask(27) == 0x0000_0020 && Mask(28) == 0x0000_0010
    ensures Mask(29) == 0x0000_0008 && Mask(30) == 0x0000_0004 && Mask(31) == 0x0000_0002 && Mask(32) == 0x0000_0001
  {
    hide Mask, Single;
    FirstMasks();
    TopByteMasks();
    TopBlockMasks();
    SecondBlockMasks();
    ThirdBlockMasks();
    LastBlockMasks();
  }

  /** A round on words is the round of the cipher. */
  lemma NextIsRound(l: bv32, r: bv32, k: SubKeyWords, key: Bits)
    requires |key| == 48 && HoldsKey(k, key)
    ensures Round(HalvesOf(l, r), key) == HalvesOf(r, Next(l, r, k))
  {
    hide Boxes, PermutedWord, Substituted, Permuted, Bits32, XorWord, HoldsKey, Expand, Xor;
    BoxesAre(r, k, key);
    var m := Boxes(r, k.high, k.low);
    PermutedHolds(m);
    HoldsWhole(PermutedWord(m), Permuted(Bits32(m)));
    XorBits(l, PermutedWord(m));
  }

  // ---- the final permutation ------------------------------------------------------------------------

  lemma FinalPlaces(k: nat, a: nat)
    requires k < 8 && a < 4
    ensures IPInverse(8 * k + 2 * a) == 40 + 8 * a - k && IPInverse(8 * k + 2 * a + 1) == 8 + 8 * a - k
  {
    hide IPInverse;
    var i := 8 * k + 2 * a;
    assert i / 8 == k && i % 8 == 2 * a && (i + 1) / 8 == k && (i + 1) % 8 == 2 * a + 1;
  }

  lemma FinalBits(l: bv32, r: bv32, k: nat, a: nat, m: bv32)
    requires k < 8 && a < 4 && m == Mask(8 + 8 * a - k)
    ensures Final(HalvesOf(l, r))[8 * k + 2 * a] == Test(l, m) && Final(HalvesOf(l, r))[8 * k + 2 * a + 1] == Test(r, m)
  {
    hide IPInverse, Mask, Test, Final, Single;
    FinalPlaces(k, a);
    FinalTakes(l, r, 8 * k + 2 * a);
    FinalTakes(l, r, 8 * k + 2 * a + 1);
  }

  /** Two pairs of bits more of the final permutation. */
  lemma PairStep(w: bv32, l: bv32, r: bv32, from: nat, i: nat, k: nat, a: nat, m: bv32, n: bv32)
    requires from <= 32 && i <= 28 && k < 8 && a < 3 && from + i == 8 * k + 2 * a
    requires m == Mask(8 + 8 * a - k) && n == Mask(16 + 8 * a - k)
    requires Holds(w, Final(HalvesOf(l, r))[from..from + 32][..i])
    ensures Holds(PickPairs(w, l, r, m, n), Final(HalvesOf(l, r))[from..from + 32][..i + 4])
  {
    hide Holds, Final, Mask, NextFour, PickFour, PickPairs, Test, Single, HalvesOf;
    PicksAre(w, l, r, m, n, m, n);
    var all := Final(HalvesOf(l, r))[from..from + 32];
    FinalBits(l, r, k, a, m);
    FinalBits(l, r, k, a + 1, n);
    TakeFour(all, i, Test(l, m), Test(r, m), Test(l, n), Test(r, n));
    NextFourHolds(w, all[..i], Test(l, m), Test(r, m), Test(l, n), Test(r, n));
  }

  lemma FinalHighIs(l: bv32, r: bv32)
    ensures Holds(FinalHigh(l, r), Final(HalvesOf(l, r))[0..32])
  {
    hide Holds, Final, Mask, Single, PickPairs, HalvesOf;
    AllMasks();
    ZeroHolds();
    var all := Final(HalvesOf(l, r))[0..32];
    assert all[..0] == [] && all[..32] == all;
    PairStep(0, l, r, 0, 0, 0, 0, 0x0100_0000, 0x0001_0000);
    var w0 := PickPairs(0, l, r, 0x0100_0000, 0x0001_0000);
    PairStep(w0, l, r, 0, 4, 0, 2, 0x0000_0100, 0x0000_0001);
    var w1 := PickPairs(w0, l, r, 0x0000_0100, 0x0000_0001);
    PairStep(w1, l, r, 0, 8, 1, 0, 0x0200_0000, 0x0002_0000);
    var w2 := PickPairs(w1, l, r, 0x0200_0000, 0x0002_0000);
    PairStep(w2, l, r, 0, 12, 1, 2, 0x0000_0200, 0x0000_0002);
    var w3 := PickPairs(w2, l, r, 0x0000_0200, 0x0000_0002);
    PairStep(w3, l, r, 0, 16, 2, 0, 0x0400_0000, 0x0004_0000);
    var w4 := PickPairs(w3, l, r, 0x0400_0000, 0x0004_0000);
    PairStep(w4, l, r, 0, 20, 2, 2, 0x0000_0400, 0x0000_0004);
    var w5 := PickPairs(w4, l, r, 0x0000_0400, 0x0000_0004);
    PairStep(w5, l, r, 0, 24, 3, 0, 0x0800_0000, 0x0008_0000);
    var w6 := PickPairs(w5, l, r, 0x0800_0000, 0x0008_0000);
    PairStep(w6, l, r, 0, 28, 3, 2, 0x0000_0800, 0x0000_0008);
  }

  lemma FinalLowIs(l: bv32, r: bv32)
    ensures Holds(FinalLow(l, r), Final(HalvesOf(l, r))[32..64])
  {
    hide Holds, Final, Mask, Single, PickPairs, HalvesOf;
    AllMasks();
    ZeroHolds();
    var all := Final(HalvesOf(l, r))[32..64];
    assert all[..0] == [] && all[..32] == all;
    PairStep(0, l, r, 32, 0, 4, 0, 0x1000_0000, 0x0010_0000);
    var w0 := PickPairs(0, l, r, 0x1000_0000, 0x0010_0000);
    PairStep(w0, l, r, 32, 4, 4, 2, 0x0000_1000, 0x0000_0010);
    var w1 := PickPairs(w0, l, r, 0x0000_1000, 0x0000_0010);
    PairStep(w1, l, r, 32, 8, 5, 0, 0x2000_0000, 0x0020_0000);
    var w2 := PickPairs(w1, l, r, 0x2000_0000, 0x0020_0000);
    PairStep(w2, l, r, 32, 12, 5, 2, 0x0000_2000, 0x0000_0020);
    var w3 := PickPairs(w2, l, r, 0x0000_2000, 0x0000_0020);
    PairStep(w3, l, r, 32, 16, 6, 0, 0x4000_0000, 0x0040_0000);
    var w4 := PickPairs(w3, l, r, 0x4000_0000, 0x0040_0000);
    PairStep(w4, l, r, 32, 20, 6, 2, 0x0000_4000, 0x0000_0040);
    var w5 := PickPairs(w4, l, r, 0x0000_4000, 0x0000_0040);
    PairStep(w5, l, r, 32, 24, 7, 0, 0x8000_0000, 0x0080_0000);
    var w6 := PickPairs(w5, l, r, 0x8000_0000, 0x0080_0000);
    PairStep(w6, l, r, 32, 28, 7, 2, 0x0000_8000, 0x0000_0080);
  }

  lemma FinalWords(l: bv32, r: bv32)
    ensures Final(HalvesOf(l, r)) == Pair(FinalHigh(l, r), FinalLow(l, r))
  {
    hide Holds, Final, HalvesOf, FinalHigh, FinalLow, Bits32;
    var b := Final(HalvesOf(l, r));
    FinalHighIs(l, r);
    FinalLowIs(l, r);
    HoldsWhole(FinalHigh(l, r), b[0..32]);
    HoldsWhole(FinalLow(l, r), b[32..64]);
    assert b[0..32] + b[32..64] == b;
  }

  // ---- the key schedule ----------------------------------------------------------------------------------------

  /** The number of a bit of the key in its word. */
  function KeyPlace(j: nat): (n: nat)
    requires j < 56
    ensures 1 <= n <= 32
  {
    if PC1Which(j) then PC1(j) else PC1(j) - 32
  }

  lemma KeyFour(high: bv32, low: bv32, from: nat, w: bv32, src: bv32, i: nat, a: bv32, b: bv32, c: bv32, d: bv32)
    requires (from == 0 || from == 28) && i <= 24
    requires var j := from + i;
             && PC1Which(j) == PC1Which(j + 1) == PC1Which(j + 2) == PC1Which(j + 3)
             && src == (if PC1Which(j) then high else low)
             && a == Mask(KeyPlace(j)) && b == Mask(KeyPlace(j + 1)) && c == Mask(KeyPlace(j + 2)) && d == Mask(KeyPlace(j + 3))
    requires Holds(w, KeyHalf(high, low, from)[..i])
    ensures Holds(PickFour(w, src, a, b, c, d), KeyHalf(high, low, from)[..i + 4])
  {
    hide Holds, Mask, PickFour, Single, FirstHalf, SecondHalf, Pair, PC1, PC1Which, Test;
    var j := from + i;
    KeyBitTaken(high, low, j);
    KeyBitTaken(high, low, j + 1);
    KeyBitTaken(high, low, j + 2);
    KeyBitTaken(high, low, j + 3);
    PickStep(KeyHalf(high, low, from), w, src, i, a, b, c, d);
  }

  function KeyHalf(high: bv32, low: bv32, from: nat): (r: Bits)
    requires from == 0 || from == 28
    ensures |r| == 28
  {
    if from == 0 then FirstHalf(Pair(high, low)) else SecondHalf(Pair(high, low))
  }

  lemma FirstWordIs(high: bv32, low: bv32)
    ensures Holds(FirstWord(high, low), KeyHalf(high, low, 0))
  {
    hide Holds, KeyHalf, KeyPlace, PC1, PC1Which, Mask, Single, PickFour;
    ghost var all := KeyHalf(high, low, 0);
    AllMasks();
    KeyPlaces1();
    KeyPlaces2();
    KeyPlaces3();
    ZeroHolds();
    assert all[..0] == [] && all[..28] == all;
    KeyFour(high, low, 0, 0, low, 0, 0x0000_0080, 0x0000_8000, 0x0080_0000, 0x8000_0000);
    var w0 := PickFour(0, low, 0x0000_0080, 0x0000_8000, 0x0080_0000, 0x8000_0000);
    KeyFour(high, low, 0, w0, high, 4, 0x0000_0080, 0x0000_8000, 0x0080_0000, 0x8000_0000);
    var w1 := PickFour(w0, high, 0x0000_0080, 0x0000_8000, 0x0080_0000, 0x8000_0000);
    KeyFour(high, low, 0, w1, low, 8, 0x0000_0040, 0x0000_4000, 0x0040_0000, 0x4000_0000);
    var w2 := PickFour(w1, low, 0x0000_0040, 0x0000_4000, 0x0040_0000, 0x4000_0000);
    KeyFour(high, low, 0, w2, high, 12, 0x0000_0040, 0x0000_4000, 0x0040_0000, 0x4000_0000);
    var w3 := PickFour(w2, high, 0x0000_0040, 0x0000_4000, 0x0040_0000, 0x4000_0000);
    KeyFour(high, low, 0, w3, low, 16, 0x0000_0020, 0x0000_2000, 0x0020_0000, 0x2000_0000);
    var w4 := PickFour(w3, low, 0x0000_0020, 0x0000_2000, 0x0020_0000, 0x2000_0000);
    KeyFour(high, low, 0, w4, high, 20, 0x0000_0020, 0x0000_2000, 0x0020_0000, 0x2000_0000);
    var w5 := PickFour(w4, high, 0x0000_0020, 0x0000_2000, 0x0020_0000, 0x2000_0000);
    KeyFour(high, low, 0, w5, low, 24, 0x0000_0010, 0x0000_1000, 0x0010_0000, 0x1000_0000);
  }

  lemma SecondWordIs(high: bv32, low: bv32)
    ensures Holds(SecondWord(high, low), KeyHalf(high, low, 28))
  {
    hide Holds, KeyHalf, KeyPlace, PC1, PC1Which, Mask, Single, PickFour;
    ghost var all := KeyHalf(high, low, 28);
    AllMasks();
    KeyPlaces4();
    KeyPlaces5();
    KeyPlaces6();
    KeyPlaces7();
    KeyPlaces8();
    ZeroHolds();
    assert all[..0] == [] && all[..28] == all;
    KeyFour(high, low, 28, 0, low, 0, 0x0000_0002, 0x0000_0200, 0x0002_0000, 0x0200_0000);
    var w0 := PickFour(0, low, 0x0000_0002, 0x0000_0200, 0x0002_0000, 0x0200_0000);
    KeyFour(high, low, 28, w0, high, 4, 0x0000_0002, 0x0000_0200, 0x0002_0000, 0x0200_0000);
    var w1 := PickFour(w0, high, 0x0000_0002, 0x0000_0200, 0x0002_0000, 0x0200_0000);
    KeyFour(high, low, 28, w1, low, 8, 0x0000_0004, 0x0000_0400, 0x0004_0000, 0x0400_0000);
    var w2 := PickFour(w1, low, 0x0000_0004, 0x0000_0400, 0x0004_0000, 0x0400_0000);
    KeyFour(high, low, 28, w2, high, 12, 0x0000_0004, 0x0000_0400, 0x0004_0000, 0x0400_0000);
    var w3 := PickFour(w2, high, 0x0000_0004, 0x0000_0400, 0x0004_0000, 0x0400_0000);
    KeyFour(high, low, 28, w3, low, 16, 0x0000_0008, 0x0000_0800, 0x0008_0000, 0x0800_0000);
    var w4 := PickFour(w3, low, 0x0000_0008, 0x0000_0800, 0x0008_0000, 0x0800_0000);
    KeyFour(high, low, 28, w4, high, 20, 0x0000_0008, 0x0000_0800, 0x0008_0000, 0x0800_0000);
    var w5 := PickFour(w4, high, 0x0000_0008, 0x0000_0800, 0x0008_0000, 0x0800_0000);
    KeyFour(high, low, 28, w5, high, 24, 0x0000_0010, 0x0000_1000, 0x0010_0000, 0x1000_0000);
  }

  lemma KeyPlaces1()
    ensures !PC1Which(0) && !PC1Which(1) && !PC1Which(2) && !PC1Which(3)
    ensures KeyPlace(0) == 25 && KeyPlace(1) == 17 && KeyPlace(2) == 9 && KeyPlace(3) == 1
    ensures PC1Which(4) && PC1Which(5) && PC1Which(6) && PC1Which(7)
    ensures KeyPlace(4) == 25 && KeyPlace(5) == 17 && KeyPlace(6) == 9 && KeyPlace(7) == 1
    ensures !PC1Which(8) && !PC1Which(9) && !PC1Which(10) && !PC1Which(11)
    ensures KeyPlace(8) == 26 && KeyPlace(9) == 18 && KeyPlace(10) == 10 && KeyPlace(11) == 2
  {
    hide PC1;
    PC1Is(0);
    PC1Is(1);
    PC1Is(2);
    PC1Is(3);
    PC1Is(4);
    PC1Is(5);
    PC1Is(6);
    PC1Is(7);
    PC1Is(8);
    PC1Is(9);
    PC1Is(10);
    PC1Is(11);
  }

  lemma KeyPlaces2()
    ensures PC1Which(12) && PC1Which(13) && PC1Which(14) && PC1Which(15)
    ensures KeyPlace(12) == 26 && KeyPlace(13) == 18 && KeyPlace(14) == 10 && KeyPlace(15) == 2
    ensures !PC1Which(16) && !PC1Which(17) && !PC1Which(18) && !PC1Which(19)
    ensures KeyPlace(16) == 27 && KeyPlace(17) == 19 && KeyPlace(18) == 11 && KeyPlace(19) == 3
  {
    hide PC1;
    PC1Is(12);
    PC1Is(13);
    PC1Is(14);
    PC1Is(15);
    PC1Is(16);
    PC1Is(17);
    PC1Is(18);
    PC1Is(19);
  }

  lemma KeyPlaces3()
    ensures PC1Which(20) && PC1Which(21) && PC1Which(22) && PC1Which(23)
    ensures KeyPlace(20) == 27 && KeyPlace(21) == 19 && KeyPlace(22) == 11 && KeyPlace(23) == 3
    ensures !PC1Which(24) && !PC1Which(25) && !PC1Which(26) && !PC1Which(27)
    ensures KeyPlace(24) == 28 && KeyPlace(25) == 20 && KeyPlace(26) == 12 && KeyPlace(27) == 4
  {
    hide PC1;
    PC1Is(20);
    PC1Is(21);
    PC1Is(22);
    PC1Is(23);
    PC1Is(24);
    PC1Is(25);
    PC1Is(26);
    PC1Is(27);
  }

  lemma KeyPlaces4()
    ensures !PC1Which(28) && !PC1Which(29) && !PC1Which(30) && !PC1Which(31)
    ensures KeyPlace(28) == 31 && KeyPlace(29) == 23 && KeyPlace(30) == 15 && KeyPlace(31) == 7
    ensures PC1Which(32) && PC1Which(33) && PC1Which(34) && PC1Which(35)
    ensures KeyPlace(32) == 31 && KeyPlace(33) == 23 && KeyPlace(34) == 15 && KeyPlace(35) == 7
  {
    hide PC1;
    PC1Is(28);
    PC1Is(29);
    PC1Is(30);
    PC1Is(31);
    PC1Is(32);
    PC1Is(33);
    PC1Is(34);
    PC1Is(35);
  }

  lemma KeyPlaces5()
    ensures !PC1Which(36) && !PC1Which(37) && !PC1Which(38) && !PC1Which(39)
    ensures KeyPlace(36) == 30 && KeyPlace(37) == 22 && KeyPlace(38) == 14 && KeyPlace(39) == 6
    ensures PC1Which(40) && PC1Which(41) && PC1Which(42) && PC1Which(43)
    ensures KeyPlace(40) == 30 && KeyPlace(41) == 22 && KeyPlace(42) == 14 && KeyPlace(43) == 6
  {
    hide PC1;
    PC1Is(36);
    PC1Is(37);
    PC1Is(38);
    PC1Is(39);
    PC1Is(40);
    PC1Is(41);
    PC1Is(42);
    PC1Is(43);
  }

  lemma KeyPlaces6()
    ensures !PC1Which(44) && !PC1Which(45) && !PC1Which(46) && !PC1Which(47)
    ensures KeyPlace(44) == 29 && KeyPlace(45) == 21 && KeyPlace(46) == 13 && KeyPlace(47) == 5
  {
    hide PC1;
    PC1Is(44);
    PC1Is(45);
    PC1Is(46);
    PC1Is(47);
  }

  lemma KeyPlaces7()
    ensures PC1Which(48) && PC1Which(49) && PC1Which(50) && PC1Which(51)
    ensures KeyPlace(48) == 29 && KeyPlace(49) == 21 && KeyPlace(50) == 13 && KeyPlace(51) == 5
  {
    hide PC1;
    PC1Is(48);
    PC1Is(49);
    PC1Is(50);
    PC1Is(51);
  }

  lemma KeyPlaces8()
    ensures PC1Which(52) && PC1Which(53) && PC1Which(54) && PC1Which(55)
    ensures KeyPlace(52) == 28 && KeyPlace(53) == 20 && KeyPlace(54) == 12 && KeyPlace(55) == 4
  {
    hide PC1;
    PC1Is(52);
    PC1Is(53);
    PC1Is(54);
    PC1Is(55);
  }

  /** The number of a bit of a subkey in the word of its half. */
  function SubKeyPlace(j: nat): (n: nat)
    requires j < 48
    ensures 5 <= n <= 32
  {
    (if j < 24 then PC2(j) else PC2(j) - 28) + 4
  }

  lemma SubKeyFour(half: bv32, x: Bits, y: Bits, from: nat, w: bv32, i: nat, a: bv32, b: bv32, c: bv32, d: bv32)
    requires |x| == |y| == 28 && (from == 0 || from == 24) && i <= 20 && Holds(half, if from == 0 then x else y)
    requires a == Mask(SubKeyPlace(from + i)) && b == Mask(SubKeyPlace(from + i + 1))
    requires c == Mask(SubKeyPlace(from + i + 2)) && d == Mask(SubKeyPlace(from + i + 3))
    requires Holds(w, SubKey(x, y)[from..from + 24][..i])
    ensures Holds(PickFour(w, half, a, b, c, d), SubKey(x, y)[from..from + 24][..i + 4])
  {
    hide Holds, Mask, PickFour, Single, SubKey, PC2, Test;
    var j := from + i;
    SubKeyBitTaken(half, x, y, j);
    SubKeyBitTaken(half, x, y, j + 1);
    SubKeyBitTaken(half, x, y, j + 2);
    SubKeyBitTaken(half, x, y, j + 3);
    PickStep(SubKey(x, y)[from..from + 24], w, half, i, a, b, c, d);
  }

  lemma HighOfHalfIs(half: bv32, x: Bits, y: Bits)
    requires |x| == |y| == 28 && Holds(half, x)
    ensures Holds(HighOfHalf(half), SubKey(x, y)[0..24])
  {
    hide Holds, SubKey, PC2, Mask, Single, PickFour;
    ghost var all := SubKey(x, y)[0..24];
    AllMasks();
    FirstHighPlaces();
    MiddleHighPlaces();
    LastHighPlaces();
    ZeroHolds();
    assert all[..0] == [] && all[..24] == all;
    SubKeyFour(half, x, y, 0, 0, 0, 0x0000_4000, 0x0000_0800, 0x0002_0000, 0x0000_0010);
    var w0 := PickFour(0, half, 0x0000_4000, 0x0000_0800, 0x0002_0000, 0x0000_0010);
    SubKeyFour(half, x, y, 0, w0, 4, 0x0800_0000, 0x0080_0000, 0x0200_0000, 0x0000_0001);
    var w1 := PickFour(w0, half, 0x0800_0000, 0x0080_0000, 0x0200_0000, 0x0000_0001);
    SubKeyFour(half, x, y, 0, w1, 8, 0x0000_2000, 0x0040_0000, 0x0000_0080, 0x0004_0000);
    var w2 := PickFour(w1, half, 0x0000_2000, 0x0040_0000, 0x0000_0080, 0x0004_0000);
    SubKeyFour(half, x, y, 0, w2, 12, 0x0000_0020, 0x0000_0200, 0x0001_0000, 0x0100_0000);
    var w3 := PickFour(w2, half, 0x0000_0020, 0x0000_0200, 0x0001_0000, 0x0100_0000);
    SubKeyFour(half, x, y, 0, w3, 16, 0x0000_0004, 0x0010_0000, 0x0000_1000, 0x0020_0000);
    var w4 := PickFour(w3, half, 0x0000_0004, 0x0010_0000, 0x0000_1000, 0x0020_0000);
    SubKeyFour(half, x, y, 0, w4, 20, 0x0000_0002, 0x0000_0100, 0x0000_8000, 0x0400_0000);
  }

  lemma FirstHighPlaces()
    ensures SubKeyPlace(0) == 18 && SubKeyPlace(1) == 21 && SubKeyPlace(2) == 15 && SubKeyPlace(3) == 28
    ensures SubKeyPlace(4) == 5 && SubKeyPlace(5) == 9 && SubKeyPlace(6) == 7 && SubKeyPlace(7) == 32
  {
  }

  lemma MiddleHighPlaces()
    ensures SubKeyPlace(8) == 19 && SubKeyPlace(9) == 10 && SubKeyPlace(10) == 25 && SubKeyPlace(11) == 14
    ensures SubKeyPlace(12) == 27 && SubKeyPlace(13) == 23 && SubKeyPlace(14) == 16 && SubKeyPlace(15) == 8
  {
  }

  lemma LastHighPlaces()
    ensures SubKeyPlace(16) == 30 && SubKeyPlace(17) == 12 && SubKeyPlace(18) == 20 && SubKeyPlace(19) == 11
    ensures SubKeyPlace(20) == 31 && SubKeyPlace(21) == 24 && SubKeyPlace(22) == 17 && SubKeyPlace(23) == 6
  {
  }

  lemma LowOfHalfIs(half: bv32, x: Bits, y: Bits)
    requires |x| == |y| == 28 && Holds(half, y)
    ensures Holds(LowOfHalf(half), SubKey(x, y)[24..48])
  {
    hide Holds, SubKey, PC2, Mask, Single, PickFour;
    ghost var all := SubKey(x, y)[24..48];
    AllMasks();
    FirstLowPlaces();
    MiddleLowPlaces();
    LastLowPlaces();
    ZeroHolds();
    assert all[..0] == [] && all[..24] == all;
    SubKeyFour(half, x, y, 24, 0, 0, 0x0000_8000, 0x0000_0010, 0x0200_0000, 0x0008_0000);
    var w0 := PickFour(0, half, 0x0000_8000, 0x0000_0010, 0x0200_0000, 0x0008_0000);
    SubKeyFour(half, x, y, 24, w0, 4, 0x0000_0200, 0x0000_0002, 0x0400_0000, 0x0001_0000);
    var w1 := PickFour(w0, half, 0x0000_0200, 0x0000_0002, 0x0400_0000, 0x0001_0000);
    SubKeyFour(half, x, y, 24, w1, 8, 0x0000_0020, 0x0000_0800, 0x0080_0000, 0x0000_0100);
    var w2 := PickFour(w1, half, 0x0000_0020, 0x0000_0800, 0x0080_0000, 0x0000_0100);
    SubKeyFour(half, x, y, 24, w2, 12, 0x0000_1000, 0x0000_0080, 0x0002_0000, 0x0000_0001);
    var w3 := PickFour(w2, half, 0x0000_1000, 0x0000_0080, 0x0002_0000, 0x0000_0001);
    SubKeyFour(half, x, y, 24, w3, 16, 0x0040_0000, 0x0000_0008, 0x0000_0400, 0x0000_4000);
    var w4 := PickFour(w3, half, 0x0040_0000, 0x0000_0008, 0x0000_0400, 0x0000_4000);
    SubKeyFour(half, x, y, 24, w4, 20, 0x0000_0040, 0x0010_0000, 0x0800_0000, 0x0100_0000);
  }

  lemma FirstLowPlaces()
    ensures SubKeyPlace(24) == 17 && SubKeyPlace(25) == 28 && SubKeyPlace(26) == 7 && SubKeyPlace(27) == 13
    ensures SubKeyPlace(28) == 23 && SubKeyPlace(29) == 31 && SubKeyPlace(30) == 6 && SubKeyPlace(31) == 16
  {
  }

  lemma MiddleLowPlaces()
    ensures SubKeyPlace(32) == 27 && SubKeyPlace(33) == 21 && SubKeyPlace(34) == 9 && SubKeyPlace(35) == 24
    ensures SubKeyPlace(36) == 20 && SubKeyPlace(37) == 25 && SubKeyPlace(38) == 15 && SubKeyPlace(39) == 32
  {
  }

  lemma LastLowPlaces()
    ensures SubKeyPlace(40) == 10 && SubKeyPlace(41) == 29 && SubKeyPlace(42) == 22 && SubKeyPlace(43) == 18
    ensures SubKeyPlace(44) == 26 && SubKeyPlace(45) == 12 && SubKeyPlace(46) == 5 && SubKeyPlace(47) == 8
  {
  }

  /** The words of the two halves after some rotations. */
  predicate HalvesHeld(key: Bits, n: nat, cw: bv32, dw: bv32)
    requires |key| == 64
  {
    Holds(cw, HalfAt(FirstHalf(key), n)) && Holds(dw, HalfAt(SecondHalf(key), n))
  }

  lemma HalvesTaken(high: bv32, low: bv32)
    ensures HalvesHeld(Pair(high, low), 0, FirstWord(high, low), SecondWord(high, low))
  {
    hide Holds, FirstHalf, SecondHalf, FirstWord, SecondWord, Pair;
    FirstWordIs(high, low);
    SecondWordIs(high, low);
  }

  function Rotated(w: bv32, n: nat): bv32 {
    if n == 1 then RotateOnce(w) else RotateTwo(w)
  }

  lemma RotatedHolds(w: bv32, c: Bits, n: nat)
    requires |c| == 28 && Holds(w, HalfAt(c, n))
    ensures Holds(Rotated(w, RotationCount(n)), HalfAt(c, n + 1))
  {
    hide Holds, RotateOnce, RotateTwo, Rotate, RotationCount;
    RotateHolds(w, HalfAt(c, n));
  }

  /** One more subkey. */
  lemma ScheduleStep(key: Bits, n: nat, cw: bv32, dw: bv32, words: seq<SubKeyWords>)
    requires |key| == 64 && HalvesHeld(key, n, cw, dw)
    requires HoldsKeys(words, Schedule(FirstHalf(key), SecondHalf(key), n))
    ensures var c2, d2 := Rotated(cw, RotationCount(n)), Rotated(dw, RotationCount(n));
            && HalvesHeld(key, n + 1, c2, d2)
            && HoldsKeys(words + [SubKeyWords(HighOfHalf(c2), LowOfHalf(d2))], Schedule(FirstHalf(key), SecondHalf(key), n + 1))
  {
    hide Holds, FirstHalf, SecondHalf, HalfAt, SubKey, Rotated, RotationCount, HighOfHalf, LowOfHalf, HoldsKey;
    var c, d := FirstHalf(key), SecondHalf(key);
    var c2, d2 := Rotated(cw, RotationCount(n)), Rotated(dw, RotationCount(n));
    RotatedHolds(cw, c, n);
    RotatedHolds(dw, d, n);
    HighOfHalfIs(c2, HalfAt(c, n + 1), HalfAt(d, n + 1));
    LowOfHalfIs(d2, HalfAt(c, n + 1), HalfAt(d, n + 1));
    SubKeyHeld(SubKeyWords(HighOfHalf(c2), LowOfHalf(d2)), SubKey(HalfAt(c, n + 1), HalfAt(d, n + 1)));
  }
}
