/** Keys made of passwords: blocks of four characters are encoded one after the other, each under a key made of the
    block before, with the parity of its bytes set right by a table. The Newton sets the bits that were set before
    again, and so spoils the parity of some bytes. */
module DesPasswords {
  import opened DesBits
  import opened DesCipher
  import opened DesKeys
  import opened UDes
  import opened DesWords
  import opened DesKnownAnswer

  // ---- parity of bytes ------------------------------------------------------------------------

  predicate Set(b: bv8, m: bv8) {
    b & m != 0
  }

  /** The number of bits set is odd. */
  predicate OddOnes(b: bv8) {
    (Set(b, 1) != Set(b, 2)) != ((Set(b, 4) != Set(b, 8)) != ((Set(b, 16) != Set(b, 32)) != (Set(b, 64) != Set(b, 128))))
  }

  // The table of odd bytes, in rows of sixteen.

  function Row0(i: bv8): (r: bv8)
    requires i < 16
    ensures OddOnes(r) && r & 0xFE == (0x00 | i) & 0xFE
  {
    match i
    case 0 => 0x01 case 1 => 0x01 case 2 => 0x02 case 3 => 0x02
    case 4 => 0x04 case 5 => 0x04 case 6 => 0x07 case 7 => 0x07
    case 8 => 0x08 case 9 => 0x08 case 10 => 0x0b case 11 => 0x0b
    case 12 => 0x0d case 13 => 0x0d case 14 => 0x0e case _ => 0x0e
  }

  function Row1(i: bv8): (r: bv8)
    requires i < 16
    ensures OddOnes(r) && r & 0xFE == (0x10 | i) & 0xFE
  {
    match i
    case 0 => 0x10 case 1 => 0x10 case 2 => 0x13 case 3 => 0x13
    case 4 => 0x15 case 5 => 0x15 case 6 => 0x16 case 7 => 0x16
    case 8 => 0x19 case 9 => 0x19 case 10 => 0x1a case 11 => 0x1a
    case 12 => 0x1c case 13 => 0x1c case 14 => 0x1f case _ => 0x1f
  }

  function Row2(i: bv8): (r: bv8)
    requires i < 16
    ensures OddOnes(r) && r & 0xFE == (0x20 | i) & 0xFE
  {
    match i
    case 0 => 0x20 case 1 => 0x20 case 2 => 0x23 case 3 => 0x23
    case 4 => 0x25 case 5 => 0x25 case 6 => 0x26 case 7 => 0x26
    case 8 => 0x29 case 9 => 0x29 case 10 => 0x2a case 11 => 0x2a
    case 12 => 0x2c case 13 => 0x2c case 14 => 0x2f case _ => 0x2f
  }

  function Row3(i: bv8): (r: bv8)
    requires i < 16
    ensures OddOnes(r) && r & 0xFE == (0x30 | i) & 0xFE
  {
    match i
    case 0 => 0x31 case 1 => 0x31 case 2 => 0x32 case 3 => 0x32
    case 4 => 0x34 case 5 => 0x34 case 6 => 0x37 case 7 => 0x37
    case 8 => 0x38 case 9 => 0x38 case 10 => 0x3b case 11 => 0x3b
    case 12 => 0x3d case 13 => 0x3d case 14 => 0x3e case _ => 0x3e
  }

  function Row4(i: bv8): (r: bv8)
    requires i < 16
    ensures OddOnes(r) && r & 0xFE == (0x40 | i) & 0xFE
  {
    match i
    case 0 => 0x40 case 1 => 0x40 case 2 => 0x43 case 3 => 0x43
    case 4 => 0x45 case 5 => 0x45 case 6 => 0x46 case 7 => 0x46
    case 8 => 0x49 case 9 => 0x49 case 10 => 0x4a case 11 => 0x4a
    case 12 => 0x4c case 13 => 0x4c case 14 => 0x4f case _ => 0x4f
  }

  function Row5(i: bv8): (r: bv8)
    requires i < 16
    ensures OddOnes(r) && r & 0xFE == (0x50 | i) & 0xFE
  {
    match i
    case 0 => 0x51 case 1 => 0x51 case 2 => 0x52 case 3 => 0x52
    case 4 => 0x54 case 5 => 0x54 case 6 => 0x57 case 7 => 0x57
    case 8 => 0x58 case 9 => 0x58 case 10 => 0x5b case 11 => 0x5b
    case 12 => 0x5d case 13 => 0x5d case 14 => 0x5e case _ => 0x5e
  }

  function Row6(i: bv8): (r: bv8)
    requires i < 16
    ensures OddOnes(r) && r & 0xFE == (0x60 | i) & 0xFE
  {
    match i
    case 0 => 0x61 case 1 => 0x61 case 2 => 0x62 case 3 => 0x62
    case 4 => 0x64 case 5 => 0x64 case 6 => 0x67 case 7 => 0x67
    case 8 => 0x68 case 9 => 0x68 case 10 => 0x6b case 11 => 0x6b
    case 12 => 0x6d case 13 => 0x6d case 14 => 0x6e case _ => 0x6e
  }

  function Row7(i: bv8): (r: bv8)
    requires i < 16
    ensures OddOnes(r) && r & 0xFE == (0x70 | i) & 0xFE
  {
    match i
    case 0 => 0x70 case 1 => 0x70 case 2 => 0x73 case 3 => 0x73
    case 4 => 0x75 case 5 => 0x75 case 6 => 0x76 case 7 => 0x76
    case 8 => 0x79 case 9 => 0x79 case 10 => 0x7a case 11 => 0x7a
    case 12 => 0x7c case 13 => 0x7c case 14 => 0x7f case _ => 0x7f
  }

  function Row8(i: bv8): (r: bv8)
    requires i < 16
    ensures OddOnes(r) && r & 0xFE == (0x80 | i) & 0xFE
  {
    match i
    case 0 => 0x80 case 1 => 0x80 case 2 => 0x83 case 3 => 0x83
    case 4 => 0x85 case 5 => 0x85 case 6 => 0x86 case 7 => 0x86
    case 8 => 0x89 case 9 => 0x89 case 10 => 0x8a case 11 => 0x8a
    case 12 => 0x8c case 13 => 0x8c case 14 => 0x8f case _ => 0x8f
  }

  function Row9(i: bv8): (r: bv8)
    requires i < 16
    ensures OddOnes(r) && r & 0xFE == (0x90 | i) & 0xFE
  {
    match i
    case 0 => 0x91 case 1 => 0x91 case 2 => 0x92 case 3 => 0x92
    case 4 => 0x94 case 5 => 0x94 case 6 => 0x97 case 7 => 0x97
    case 8 => 0x98 case 9 => 0x98 case 10 => 0x9b case 11 => 0x9b
    case 12 => 0x9d case 13 => 0x9d case 14 => 0x9e case _ => 0x9e
  }

  function RowA(i: bv8): (r: bv8)
    requires i < 16
    ensures OddOnes(r) && r & 0xFE == (0xA0 | i) & 0xFE
  {
    match i
    case 0 => 0xa1 case 1 => 0xa1 case 2 => 0xa2 case 3 => 0xa2
    case 4 => 0xa4 case 5 => 0xa4 case 6 => 0xa7 case 7 => 0xa7
    case 8 => 0xa8 case 9 => 0xa8 case 10 => 0xab case 11 => 0xab
    case 12 => 0xad case 13 => 0xad case 14 => 0xae case _ => 0xae
  }

  function RowB(i: bv8): (r: bv8)
    requires i < 16
    ensures OddOnes(r) && r & 0xFE == (0xB0 | i) & 0xFE
  {
    match i
    case 0 => 0xb0 case 1 => 0xb0 case 2 => 0xb3 case 3 => 0xb3
    case 4 => 0xb5 case 5 => 0xb5 case 6 => 0xb6 case 7 => 0xb6
    case 8 => 0xb9 case 9 => 0xb9 case 10 => 0xba case 11 => 0xba
    case 12 => 0xbc case 13 => 0xbc case 14 => 0xbf case _ => 0xbf
  }

  function RowC(i: bv8): (r: bv8)
    requires i < 16
    ensures OddOnes(r) && r & 0xFE == (0xC0 | i) & 0xFE
  {
    match i
    case 0 => 0xc1 case 1 => 0xc1 case 2 => 0xc2 case 3 => 0xc2
    case 4 => 0xc4 case 5 => 0xc4 case 6 => 0xc7 case 7 => 0xc7
    case 8 => 0xc8 case 9 => 0xc8 case 10 => 0xcb case 11 => 0xcb
    case 12 => 0xcd case 13 => 0xcd case 14 => 0xce case _ => 0xce
  }

  function RowD(i: bv8): (r: bv8)
    requires i < 16
    ensures OddOnes(r) && r & 0xFE == (0xD0 | i) & 0xFE
  {
    match i
    case 0 => 0xd0 case 1 => 0xd0 case 2 => 0xd3 case 3 => 0xd3
    case 4 => 0xd5 case 5 => 0xd5 case 6 => 0xd6 case 7 => 0xd6
    case 8 => 0xd9 case 9 => 0xd9 case 10 => 0xda case 11 => 0xda
    case 12 => 0xdc case 13 => 0xdc case 14 => 0xdf case _ => 0xdf
  }

  function RowE(i: bv8): (r: bv8)
    requires i < 16
    ensures OddOnes(r) && r & 0xFE == (0xE0 | i) & 0xFE
  {
    match i
    case 0 => 0xe0 case 1 => 0xe0 case 2 => 0xe3 case 3 => 0xe3
    case 4 => 0xe5 case 5 => 0xe5 case 6 => 0xe6 case 7 => 0xe6
    case 8 => 0xe9 case 9 => 0xe9 case 10 => 0xea case 11 => 0xea
    case 12 => 0xec case 13 => 0xec case 14 => 0xef case _ => 0xef
  }

  function RowF(i: bv8): (r: bv8)
    requires i < 16
    ensures OddOnes(r) && r & 0xFE == (0xF0 | i) & 0xFE
  {
    match i
    case 0 => 0xf1 case 1 => 0xf1 case 2 => 0xf2 case 3 => 0xf2
    case 4 => 0xf4 case 5 => 0xf4 case 6 => 0xf7 case 7 => 0xf7
    case 8 => 0xf8 case 9 => 0xf8 case 10 => 0xfb case 11 => 0xfb
    case 12 => 0xfd case 13 => 0xfd case 14 => 0xfe case _ => 0xfe
  }

  /** The byte of odd parity that differs at most in its last bit. */
  function OddByte(b: bv8): (r: bv8)
    ensures OddOnes(r) && r & 0xFE == b & 0xFE
  {
    var i := b & 0xF;
    match b >> 4
    case 0 => Row0(i) case 1 => Row1(i) case 2 => Row2(i) case 3 => Row3(i)
    case 4 => Row4(i) case 5 => Row5(i) case 6 => Row6(i) case 7 => Row7(i)
    case 8 => Row8(i) case 9 => Row9(i) case 10 => RowA(i) case 11 => RowB(i)
    case 12 => RowC(i) case 13 => RowD(i) case 14 => RowE(i) case _ => RowF(i)
  }

  function ByteOf(w: bv32, shift: bv32): bv8
    requires shift <= 24
  {
    ((w >> shift) & 0xFF) as bv8
  }

  function Join(a: bv8, b: bv8, c: bv8, d: bv8): bv32 {
    (d as bv32) | ((c as bv32) << 8) | ((b as bv32) << 16) | ((a as bv32) << 24)
  }

  function OddWord(w: bv32): bv32 {
    Join(OddByte(ByteOf(w, 24)), OddByte(ByteOf(w, 16)), OddByte(ByteOf(w, 8)), OddByte(ByteOf(w, 0)))
  }

  // ---- the same on bits ---------------------------------------------------------------------------

  /** Whether an odd number of the seven bits from a place on is set. */
  predicate OddSeven(c: Bits, i: nat)
    requires i + 7 <= |c|
  {
    (c[i] != c[i + 1]) != ((c[i + 2] != c[i + 3]) != ((c[i + 4] != c[i + 5]) != c[i + 6]))
  }

  /** Byte j of the bits has odd parity. */
  predicate OddAt(c: Bits, j: nat)
    requires 8 * j + 8 <= |c|
  {
    OddSeven(c, 8 * j) != c[8 * j + 7]
  }

  /** The last bit of each byte is set just when the others would be even without it. */
  function Odd(c: Bits): (r: Bits)
    ensures |r| == |c|
  {
    seq(|c|, i requires 0 <= i < |c| => if i % 8 != 7 then c[i] else !OddSeven(c, i - 7))
  }

  function Or(a: Bits, b: Bits): (r: Bits)
    requires |a| == |b|
    ensures |r| == |a|
  {
    seq(|a|, i requires 0 <= i < |a| => a[i] || b[i])
  }

  lemma OddKeeps(w: bv32, a: bv8, b: bv8, c: bv8, d: bv8, m: bv32)
    requires m & 0x0101_0101 == 0
    requires a & 0xFE == ByteOf(w, 24) & 0xFE && b & 0xFE == ByteOf(w, 16) & 0xFE
    requires c & 0xFE == ByteOf(w, 8) & 0xFE && d & 0xFE == ByteOf(w, 0) & 0xFE
    ensures Test(Join(a, b, c, d), m) == Test(w, m)
  {
  }

  lemma MaskKept(n: nat)
    requires 1 <= n <= 32 && n % 8 != 0
    ensures Mask(n) & 0x0101_0101 == 0
  {
    hide Single;
  }

  lemma FirstByteOdd(w: bv32, a: bv8, b: bv8, c: bv8, d: bv8)
    requires OddOnes(a) && a & 0xFE == ByteOf(w, 24) & 0xFE
    ensures Test(Join(a, b, c, d), 0x0100_0000)
         != ((Test(w, 0x8000_0000) != Test(w, 0x4000_0000)) != ((Test(w, 0x2000_0000) != Test(w, 0x1000_0000))
             != ((Test(w, 0x0800_0000) != Test(w, 0x0400_0000)) != Test(w, 0x0200_0000))))
  {
  }

  lemma SecondByteOdd(w: bv32, a: bv8, b: bv8, c: bv8, d: bv8)
    requires OddOnes(b) && b & 0xFE == ByteOf(w, 16) & 0xFE
    ensures Test(Join(a, b, c, d), 0x0001_0000)
         != ((Test(w, 0x0080_0000) != Test(w, 0x0040_0000)) != ((Test(w, 0x0020_0000) != Test(w, 0x0010_0000))
             != ((Test(w, 0x0008_0000) != Test(w, 0x0004_0000)) != Test(w, 0x0002_0000))))
  {
  }

  lemma ThirdByteOdd(w: bv32, a: bv8, b: bv8, c: bv8, d: bv8)
    requires OddOnes(c) && c & 0xFE == ByteOf(w, 8) & 0xFE
    ensures Test(Join(a, b, c, d), 0x0000_0100)
         != ((Test(w, 0x0000_8000) != Test(w, 0x0000_4000)) != ((Test(w, 0x0000_2000) != Test(w, 0x0000_1000))
             != ((Test(w, 0x0000_0800) != Test(w, 0x0000_0400)) != Test(w, 0x0000_0200))))
  {
  }

  lemma LastByteOdd(w: bv32, a: bv8, b: bv8, c: bv8, d: bv8)
    requires OddOnes(d) && d & 0xFE == ByteOf(w, 0) & 0xFE
    ensures Test(Join(a, b, c, d), 0x0000_0001)
         != ((Test(w, 0x0000_0080) != Test(w, 0x0000_0040)) != ((Test(w, 0x0000_0020) != Test(w, 0x0000_0010))
             != ((Test(w, 0x0000_0008) != Test(w, 0x0000_0004)) != Test(w, 0x0000_0002))))
  {
  }

  lemma SevenTested(w: bv32, n: nat)
    requires 1 <= n <= 25
    ensures OddSeven(Bits32(w), n - 1)
         == ((TestBit(w, n) != TestBit(w, n + 1)) != ((TestBit(w, n + 2) != TestBit(w, n + 3))
             != ((TestBit(w, n + 4) != TestBit(w, n + 5)) != TestBit(w, n + 6))))
  {
    hide TestBit;
  }

  lemma LastBit(w: bv32, n: nat)
    requires n == 8 || n == 16 || n == 24 || n == 32
    ensures TestBit(OddWord(w), n) == !OddSeven(Bits32(w), n - 8)
  {
    hide Test, Join, OddByte, ByteOf, OddOnes, Single, OddSeven, Bits32;
    var a, b, c, d := OddByte(ByteOf(w, 24)), OddByte(ByteOf(w, 16)), OddByte(ByteOf(w, 8)), OddByte(ByteOf(w, 0));
    SevenTested(w, n - 7);
    match n
    case 8 => FirstByteOdd(w, a, b, c, d);
    case 16 => SecondByteOdd(w, a, b, c, d);
    case 24 => ThirdByteOdd(w, a, b, c, d);
    case _ => LastByteOdd(w, a, b, c, d);
  }

  /** The table, applied to the bytes of a word, sets the parity of each right. */
  lemma OddWordIs(w: bv32)
    ensures Bits32(OddWord(w)) == Odd(Bits32(w))
  {
    hide TestBit, OddWord, OddSeven;
    forall i | 0 <= i < 32 ensures Bits32(OddWord(w))[i] == Odd(Bits32(w))[i] {
      if i % 8 == 7 {
        LastBit(w, i + 1);
      } else {
        OtherBit(w, i + 1);
      }
    }
  }

  lemma OtherBit(w: bv32, n: nat)
    requires 1 <= n <= 32 && n % 8 != 0
    ensures TestBit(OddWord(w), n) == TestBit(w, n)
  {
    hide Mask, Test, OddByte, ByteOf, OddOnes, Join;
    MaskKept(n);
    OddKeeps(w, OddByte(ByteOf(w, 24)), OddByte(ByteOf(w, 16)), OddByte(ByteOf(w, 8)), OddByte(ByteOf(w, 0)), Mask(n));
  }

  function OrWord(a: bv32, b: bv32): bv32 {
    a | b
  }

  lemma AndOr(a: bv32, b: bv32, m: bv32)
    ensures (a | b) & m == (a & m) | (b & m)
  {
  }

  lemma OrZero(a: bv32, b: bv32)
    ensures a | b == 0 <==> a == 0 && b == 0
  {
  }

  lemma OrTest(a: bv32, b: bv32, m: bv32)
    ensures Test(OrWord(a, b), m) == (Test(a, m) || Test(b, m))
  {
    AndOr(a, b, m);
    OrZero(a & m, b & m);
  }

  lemma OrWordIs(a: bv32, b: bv32)
    ensures Bits32(OrWord(a, b)) == Or(Bits32(a), Bits32(b))
  {
    hide Mask, Test;
    forall n | 1 <= n <= 32 ensures TestBit(OrWord(a, b), n) == (TestBit(a, n) || TestBit(b, n)) {
      OrTest(a, b, Mask(n));
    }
  }

  lemma OddJoined(a: Bits, b: Bits)
    requires |a| == |b| == 32
    ensures Odd(a + b) == Odd(a) + Odd(b)
  {
    hide OddSeven;
    forall i | 0 <= i < 64 ensures Odd(a + b)[i] == (Odd(a) + Odd(b))[i] {
      if i % 8 == 7 {
        SevenJoined(a, b, i - 7);
      }
    }
  }

  lemma SevenJoined(a: Bits, b: Bits, k: nat)
    requires |a| == |b| == 32 && k < 64 && k % 8 == 0
    ensures OddSeven(a + b, k) == if k < 32 then OddSeven(a, k) else OddSeven(b, k - 32)
  {
  }

  lemma OrJoined(a: Bits, b: Bits, c: Bits, d: Bits)
    requires |a| == |b| == |c| == |d| == 32
    ensures Or(a + b, c + d) == Or(a, c) + Or(b, d)
  {
  }

  // ---- passwords -------------------------------------------------------------------------------------

  function CharAt(text: seq<bv16>, i: nat): bv16 {
    if i < |text| then text[i] else 0
  }

  /** Two characters in a word. */
  function TwoChars(a: bv16, b: bv16): bv32 {
    ((a as bv32) << 16) | (b as bv32)
  }

  /** The first four characters, zeros if there are fewer. */
  function Block(text: seq<bv16>): (b: Bits)
    ensures |b| == 64
  {
    Pair(TwoChars(CharAt(text, 0), CharAt(text, 1)), TwoChars(CharAt(text, 2), CharAt(text, 3)))
  }

  /** The blocks of a password: the last has fewer than four characters, or none. */
  function Blocks(text: seq<bv16>): (bs: seq<Bits>)
    ensures |bs| == |text| / 4 + 1
  {
    if |text| < 4 then [Block(text)] else [Block(text)] + Blocks(text[4..])
  }

  predicate Blocks64(bs: seq<Bits>) {
    bs == [] || (|bs[0]| == 64 && Blocks64(bs[1..]))
  }

  lemma {:induction false} BlocksWide(text: seq<bv16>)
    ensures Blocks64(Blocks(text))
  {
    hide Block;
    if |text| >= 4 {
      BlocksWide(text[4..]);
    }
  }

  function SubKeysFor(newton: bool, key: Bits): (keys: seq<Bits>)
    requires |key| == 64
    ensures |keys| == 16 && SubKeys(keys)
  {
    if newton then NewtonSubKeysOf(key) else SubKeysOf(key)
  }

  /** The key made of an encoded block. The Newton puts back the last bits that were set. */
  function KeyOfBlock(newton: bool, c: Bits): (r: Bits)
    ensures |r| == |c|
  {
    if newton then Or(Odd(c), c) else Odd(c)
  }

  function NextKey(newton: bool, key: Bits, block: Bits): (r: Bits)
    requires |key| == |block| == 64
    ensures |r| == 64
  {
    KeyOfBlock(newton, Encoded(SubKeysFor(newton, key), block))
  }

  function Chain(newton: bool, key: Bits, blocks: seq<Bits>): (r: Bits)
    requires |key| == 64 && Blocks64(blocks)
    ensures |r| == 64
    decreases |blocks|
  {
    if blocks == [] then key else Chain(newton, NextKey(newton, key, blocks[0]), blocks[1..])
  }

  function PasswordKey(newton: bool, creation: Bits, text: seq<bv16>): (r: Bits)
    requires |creation| == 64
    ensures |r| == 64
  {
    BlocksWide(text);
    Chain(newton, creation, Blocks(text))
  }

  lemma OneBlock(newton: bool, key: Bits, text: seq<bv16>)
    requires |key| == 64
    ensures PasswordKey(newton, key, text)
         == if |text| < 4 then NextKey(newton, key, Block(text))
            else PasswordKey(newton, NextKey(newton, key, Block(text)), text[4..])
  {
    hide Block, NextKey;
    BlocksWide(text);
    if |text| >= 4 {
      assert Blocks(text)[1..] == Blocks(text[4..]);
    } else {
      assert Blocks(text)[1..] == [] && Chain(newton, NextKey(newton, key, Block(text)), []) == NextKey(newton, key, Block(text));
    }
  }

  // ---- the code --------------------------------------------------------------------------------------

  /** A string up to its first zero. */
  predicate Terminated(s: seq<bv16>, text: seq<bv16>) {
    |text| < |s| && s[..|text|] == text && 0 !in text && s[|text|] == 0
  }

  /** A character put in a word byte after byte. */
  function TwoBytes(w: bv32, c: bv16): bv32 {
    ((w | (c >> 8) as bv32) << 8) | (c & 0xFF) as bv32
  }

  lemma TwoCharsAre(a: bv16, b: bv16)
    ensures TwoBytes(TwoBytes(0, a) << 8, b) == TwoChars(a, b)
    ensures TwoBytes(0, a) << 8 << 8 == TwoChars(a, 0) && TwoChars(0, 0) == 0
  {
  }

  lemma NextChar(s: seq<bv16>, text: seq<bv16>, i: nat)
    requires Terminated(s, text) && i <= |text|
    ensures s[i] == (if i < |text| then text[i] else 0) && (s[i] != 0 <==> i < |text|)
  {
    if i < |text| {
      assert s[i] == s[..|text|][i] && text[i] in text;
    }
  }

  /** Reads a block of the string: whether it was whole, and the words. */
  method ReadBlock(s: seq<bv16>, ghost text: seq<bv16>, i: nat) returns (whole: bool, high: bv32, low: bv32)
    requires Terminated(s, text) && i <= |text|
    ensures whole <==> i + 4 <= |text|
    ensures Pair(high, low) == Block(text[i..])
  {
    hide Pair, TwoBytes, TwoChars, Terminated;
    ghost var rest := text[i..];
    assert forall k: nat :: CharAt(rest, k) == CharAt(text, i + k);
    assert |text| < |s| by {
      EndInside(s, text);
    }
    whole, high, low := false, 0, 0;
    NextChar(s, text, i);
    TwoCharsAre(0, 0);
    if s[i] != 0 {
      NextChar(s, text, i + 1);
      TwoCharsAre(s[i], s[i + 1]);
      high := TwoBytes(0, s[i]) << 8;
      if s[i + 1] != 0 {
        NextChar(s, text, i + 2);
        high := TwoBytes(high, s[i + 1]);
        if s[i + 2] != 0 {
          NextChar(s, text, i + 3);
          TwoCharsAre(s[i + 2], s[i + 3]);
          low := TwoBytes(0, s[i + 2]) << 8;
          if s[i + 3] != 0 {
            low := TwoBytes(low, s[i + 3]);
            whole := true;
          } else {
            low := low << 8;
          }
        }
      } else {
        high := high << 8;
      }
    }
  }

  lemma EndInside(s: seq<bv16>, text: seq<bv16>)
    requires Terminated(s, text)
    ensures |text| < |s|
  {
  }

  method CreateKey(newton: bool, s: seq<bv16>, ghost text: seq<bv16>, creationHigh: bv32, creationLow: bv32)
    returns (high: bv32, low: bv32)
    requires Terminated(s, text)
    ensures Pair(high, low) == PasswordKey(newton, Pair(creationHigh, creationLow), text)
  {
    hide Pair, Terminated, Block, NextKey, PasswordKey, Encoded, KeyBits, KeyOfBlock;
    high, low := creationHigh, creationLow;
    var charsLeft, i := true, 0;
    assert text[0..] == text;
    while charsLeft
      invariant i <= |text|
      invariant PasswordKey(newton, Pair(creationHigh, creationLow), text)
             == if charsLeft then PasswordKey(newton, Pair(high, low), text[i..]) else Pair(high, low)
      decreases |text| - i, charsLeft
    {
      ghost var key := Pair(high, low);
      var h: bv32, l: bv32;
      charsLeft, h, l := ReadBlock(s, text, i);
      OneBlock(newton, key, text[i..]);
      assert charsLeft ==> text[i..][4..] == text[i + 4..];
      NextIs(newton, high, low, text[i..]);
      h, l := Encode(newton, high, low, h, l);
      high, low := KeyOfWords(newton, h, l);
      if charsLeft {
        i := i + 4;
      }
    }
  }

  lemma NextIs(newton: bool, high: bv32, low: bv32, text: seq<bv16>)
    ensures NextKey(newton, Pair(high, low), Block(text))
         == KeyOfBlock(newton, Encoded(KeyBits(newton, high, low), Block(text)))
  {
    hide Encoded, Block, KeyOfBlock, SubKeysOf, NewtonSubKeysOf, Pair;
  }

  lemma KeyOfPair(newton: bool, h: bv32, l: bv32)
    ensures KeyOfBlock(newton, Pair(h, l))
         == if newton then Pair(OrWord(OddWord(h), h), OrWord(OddWord(l), l)) else Pair(OddWord(h), OddWord(l))
  {
    hide Bits32, OddWord, OrWord, Odd, Or;
    OddWordIs(h);
    OddWordIs(l);
    OddJoined(Bits32(h), Bits32(l));
    if newton {
      OrWordIs(OddWord(h), h);
      OrWordIs(OddWord(l), l);
      OrJoined(Bits32(OddWord(h)), Bits32(OddWord(l)), Bits32(h), Bits32(l));
    }
  }

  /** The key made of an encoded block. */
  method KeyOfWords(newton: bool, h: bv32, l: bv32) returns (high: bv32, low: bv32)
    ensures Pair(high, low) == KeyOfBlock(newton, Pair(h, l))
  {
    hide OddWord, OrWord, KeyOfBlock, Pair;
    KeyOfPair(newton, h, l);
    high, low := OddWord(h), OddWord(l);
    if newton {
      high, low := OrWord(high, h), OrWord(low, l);
    }
  }

  // ---- what the keys are ----------------------------------------------------------------------------

  /** Every byte has odd parity, and only last bits changed. */
  lemma OddIsOdd(c: Bits, j: nat)
    requires 8 * j + 8 <= |c|
    ensures OddAt(Odd(c), j)
    ensures OddAt(c, j) <==> forall i :: 8 * j <= i < 8 * j + 8 ==> Odd(c)[i] == c[i]
  {
    var k := 8 * j;
    assert OddSeven(Odd(c), k) == OddSeven(c, k) by {
      assert forall i :: k <= i < k + 7 ==> Odd(c)[i] == c[i];
    }
    assert Odd(c)[k + 7] == !OddSeven(c, k);
  }

  /** A password key has odd parity in every byte, as the standard asks, whatever the creation key. */
  lemma PasswordKeyOdd(creation: Bits, text: seq<bv16>, j: nat)
    requires |creation| == 64 && j < 8
    ensures OddAt(PasswordKey(false, creation, text), j)
    decreases |text|
  {
    hide PasswordKey, OddAt, Odd, Encoded, SubKeysFor, Block;
    OneBlock(false, creation, text);
    var next := NextKey(false, creation, Block(text));
    if |text| < 4 {
      OddIsOdd(Encoded(SubKeysFor(false, creation), Block(text)), j);
    } else {
      PasswordKeyOdd(next, text[4..], j);
    }
  }

  /** The last block of a password, encoded. */
  function LastCode(newton: bool, creation: Bits, text: seq<bv16>): (c: Bits)
    requires |creation| == 64
    ensures |c| == 64
    decreases |text|
  {
    if |text| < 4 then Encoded(SubKeysFor(newton, creation), Block(text))
    else LastCode(newton, NextKey(newton, creation, Block(text)), text[4..])
  }

  lemma {:induction false} PasswordKeyIs(newton: bool, creation: Bits, text: seq<bv16>)
    requires |creation| == 64
    ensures PasswordKey(newton, creation, text) == KeyOfBlock(newton, LastCode(newton, creation, text))
    decreases |text|
  {
    hide PasswordKey, KeyOfBlock, Encoded, SubKeysFor, Block;
    OneBlock(newton, creation, text);
    if |text| >= 4 {
      PasswordKeyIs(newton, NextKey(newton, creation, Block(text)), text[4..]);
    }
  }

  /** A byte that was encoded to an even one with its last bit set stays even for the Newton. */
  lemma NewtonByteOddIff(c: Bits, j: nat)
    requires 8 * j + 8 <= |c|
    ensures OddAt(KeyOfBlock(true, c), j) <==> OddAt(c, j) || !c[8 * j + 7]
  {
    var k := 8 * j;
    var r := KeyOfBlock(true, c);
    assert OddSeven(r, k) == OddSeven(c, k) by {
      assert forall i :: k <= i < k + 7 ==> r[i] == c[i];
    }
    assert r[k + 7] == (!OddSeven(c, k) || c[k + 7]);
  }

  /** A byte of a password key of the Newton has odd parity if and only if that of its last encoded block had, or did
      not have its last bit set. */
  lemma NewtonPasswordOddIff(creation: Bits, text: seq<bv16>, j: nat)
    requires |creation| == 64 && j < 8
    ensures OddAt(PasswordKey(true, creation, text), j)
       <==> OddAt(LastCode(true, creation, text), j) || !LastCode(true, creation, text)[8 * j + 7]
  {
    hide PasswordKey, LastCode, KeyOfBlock, OddAt;
    PasswordKeyIs(true, creation, text);
    NewtonByteOddIff(LastCode(true, creation, text), j);
  }

  /** A password of one letter, A, under the creation key of zeros. */
  lemma LetterKeys(creation: Bits, text: seq<bv16>)
    requires creation == Falses(64) && text == [0x41]
    ensures PasswordKey(false, creation, text) == Pair(0x6749_FEEC, 0x2C15_7F38)
    ensures PasswordKey(true, creation, text) == Pair(0x6749_FFED, 0x2D15_7F38)
  {
    hide PasswordKey, Encoded, SubKeysOf, NewtonSubKeysOf, KeyOfBlock, OddWord, OrWord, Pair, Block, Falses, HoldsKeys;
    LetterBlock();
    ZeroSubKeys();
    ZeroWordsHeld();
    LetterEncoded(NoKeys(16));
    OneBlock(false, creation, text);
    OneBlock(true, creation, text);
    KeyOfPair(false, 0x6648_FFED, 0x2D15_7E38);
    KeyOfPair(true, 0x6648_FFED, 0x2D15_7E38);
    LetterMadeOdd();
  }

  lemma LetterBlock()
    ensures Block([0x41]) == Pair(0x0041_0000, 0)
  {
    hide Pair;
    TwoCharsAre(0x41, 0);
  }

  lemma LetterMadeOdd()
    ensures OddWord(0x6648_FFED) == 0x6749_FEEC && OddWord(0x2D15_7E38) == 0x2C15_7F38
    ensures OrWord(0x6749_FEEC, 0x6648_FFED) == 0x6749_FFED && OrWord(0x2C15_7F38, 0x2D15_7E38) == 0x2D15_7F38
  {
  }

  /** A password of four letters, ABCD, makes two blocks: the second, of zeros, is encoded under the key made of the
      first. */
  lemma LettersKey(creation: Bits, text: seq<bv16>)
    requires creation == Falses(64) && text == [0x41, 0x42, 0x43, 0x44]
    ensures PasswordKey(false, creation, text) == Pair(0x1F7A_79D0, 0xF13D_80A7)
  {
    hide PasswordKey, Encoded, SubKeysOf, KeyOfBlock, OddWord, OrWord, Pair, Block, Falses, HoldsKeys;
    LettersBlock();
    ZeroSubKeys();
    ZeroWordsHeld();
    LettersEncoded(NoKeys(16));
    OneBlock(false, creation, text);
    KeyOfPair(false, 0x3719_D077, 0x7F3B_A9F2);
    FirstMadeOdd();
    EmptyBlock();
    ZeroBits();
    assert text[4..] == [];
    PasswordSubKeys();
    PasswordEncoded(SubKeysOf(Pair(0x3719_D076, 0x7F3B_A8F2)));
    OneBlock(false, Pair(0x3719_D076, 0x7F3B_A8F2), []);
    KeyOfPair(false, 0x1F7A_78D1, 0xF03D_80A6);
    SecondMadeOdd();
  }

  lemma LettersBlock()
    ensures Block([0x41, 0x42, 0x43, 0x44]) == Pair(0x0041_0042, 0x0043_0044)
  {
    hide Pair;
  }

  lemma FirstMadeOdd()
    ensures OddWord(0x3719_D077) == 0x3719_D076 && OddWord(0x7F3B_A9F2) == 0x7F3B_A8F2
  {
  }

  lemma SecondMadeOdd()
    ensures OddWord(0x1F7A_78D1) == 0x1F7A_79D0 && OddWord(0xF03D_80A6) == 0xF13D_80A7
  {
  }

  lemma CodeMadeOdd()
    ensures OddWord(0x8CA6_4DE9) == 0x8CA7_4CE9 && OddWord(0xC1B1_23A7) == 0xC1B0_23A7
    ensures OrWord(0x8CA7_4CE9, 0x8CA6_4DE9) == 0x8CA7_4DE9 && OrWord(0xC1B0_23A7, 0xC1B1_23A7) == 0xC1B1_23A7
  {
  }

  /** The empty password under the creation key of zeros, in both variants. */
  lemma EmptyPasswordKeys(creation: Bits, text: seq<bv16>)
    requires creation == Falses(64) && text == []
    ensures PasswordKey(false, creation, text) == Pair(0x8CA7_4CE9, 0xC1B0_23A7)
    ensures PasswordKey(true, creation, text) == Pair(0x8CA7_4DE9, 0xC1B1_23A7)
  {
    hide PasswordKey, Encoded, SubKeysOf, NewtonSubKeysOf, KeyOfBlock, OddWord, OrWord, Pair, Block, Falses;
    KnownAnswer();
    EmptyBlock();
    OneBlock(false, creation, text);
    OneBlock(true, creation, text);
    KeyOfPair(false, 0x8CA6_4DE9, 0xC1B1_23A7);
    KeyOfPair(true, 0x8CA6_4DE9, 0xC1B1_23A7);
    CodeMadeOdd();
  }

  lemma EmptyBlock()
    ensures Block([]) == Falses(64)
  {
    hide Pair;
    TwoCharsAre(0, 0);
    ZeroBits();
  }

  lemma BytesSpoilt()
    ensures OddWord(0x8CA7_4DE9) == 0x8CA7_4CE9 && OddWord(0xC1B1_23A7) == 0xC1B0_23A7
  {
  }

  lemma LastBitsSpoilt()
    ensures TestBit(0x8CA7_4DE9, 24) && !TestBit(0x8CA7_4CE9, 24)
    ensures TestBit(0xC1B1_23A7, 16) && !TestBit(0xC1B0_23A7, 16)
  {
    hide Mask, Single;
    AllMasks();
  }

  /** The key that the Newton makes of the empty password under the creation key of zeros: its third and its sixth byte
      are even. */
  lemma NewtonKeyEven(creation: Bits, text: seq<bv16>)
    requires creation == Falses(64) && text == []
    ensures !OddAt(PasswordKey(true, creation, text), 2) && !OddAt(PasswordKey(true, creation, text), 5)
  {
    hide PasswordKey, OddAt, OddSeven, OddWord, TestBit, Odd;
    EmptyPasswordKeys(creation, text);
    BytesSpoilt();
    LastBitsSpoilt();
    var h, l: bv32 := 0x8CA7_4DE9, 0xC1B1_23A7;
    OddJoined(Bits32(h), Bits32(l));
    OddWordIs(h);
    OddWordIs(l);
    OddIsOdd(Pair(h, l), 2);
    OddIsOdd(Pair(h, l), 5);
    PairBit(h, l, 24);
    PairBit(h, l, 48);
    PairBit(OddWord(h), OddWord(l), 24);
    PairBit(OddWord(h), OddWord(l), 48);
  }

  /** Setting the parity right loses nothing: the block that was encoded would have made the same subkeys. */
  lemma ParityKeepsSubKeys(c: Bits)
    requires |c| == 64
    ensures SubKeysOf(Odd(c)) == SubKeysOf(c)
  {
    hide SubKeysOf, OddSeven;
    SameScheduleIff(Odd(c), c);
  }

  /** The bits of a creation key that its schedule leaves out do not matter to any password. */
  lemma SpareBitsDoNotMatter(newton: bool, a: Bits, b: Bits, text: seq<bv16>)
    requires |a| == |b| == 64
    requires if newton then SameNewtonBits(a, b) else SameKeyBits(a, b)
    ensures PasswordKey(newton, a, text) == PasswordKey(newton, b, text)
  {
    hide PasswordKey, Encoded, SubKeysOf, NewtonSubKeysOf, Block, SameKeyBits, SameNewtonBits, KeyOfBlock;
    if newton {
      SameNewtonScheduleIff(a, b);
    } else {
      SameScheduleIff(a, b);
    }
    OneBlock(newton, a, text);
    OneBlock(newton, b, text);
  }

  /** Two blocks make the same key if and only if they are encoded to words that differ at most in the last bits of
      their bytes. */
  lemma NextKeySameIff(key: Bits, x: Bits, y: Bits)
    requires |key| == |x| == |y| == 64
    ensures NextKey(false, key, x) == NextKey(false, key, y)
       <==> SameKeyBits(Encoded(SubKeysOf(key), x), Encoded(SubKeysOf(key), y))
  {
    hide Encoded, SubKeysOf;
    OddSameIff(Encoded(SubKeysOf(key), x), Encoded(SubKeysOf(key), y));
  }

  lemma OddSameIff(c: Bits, d: Bits)
    requires |c| == |d| == 64
    ensures Odd(c) == Odd(d) <==> SameKeyBits(c, d)
  {
    if SameKeyBits(c, d) {
      forall i | 0 <= i < 64 ensures Odd(c)[i] == Odd(d)[i] {
        if i % 8 == 7 {
          assert forall k :: i - 7 <= k < i ==> k % 8 != 7 && c[k] == d[k];
        }
      }
    } else {
      var i :| 0 <= i < 64 && i % 8 != 7 && c[i] != d[i];
      assert Odd(c)[i] != Odd(d)[i];
    }
  }

  lemma CharsOfWord(a: bv16, b: bv16, c: bv16, d: bv16)
    ensures TwoChars(a, b) == TwoChars(c, d) <==> a == c && b == d
  {
  }

  /** The block tells its four characters. */
  lemma BlockTells(a: seq<bv16>, b: seq<bv16>)
    requires Block(a) == Block(b)
    ensures forall i: nat :: i < 4 ==> CharAt(a, i) == CharAt(b, i)
  {
    hide CharAt, TwoChars, Pair;
    PairDetermines(TwoChars(CharAt(a, 0), CharAt(a, 1)), TwoChars(CharAt(a, 2), CharAt(a, 3)),
                   TwoChars(CharAt(b, 0), CharAt(b, 1)), TwoChars(CharAt(b, 2), CharAt(b, 3)));
    CharsOfWord(CharAt(a, 0), CharAt(a, 1), CharAt(b, 0), CharAt(b, 1));
    CharsOfWord(CharAt(a, 2), CharAt(a, 3), CharAt(b, 2), CharAt(b, 3));
  }

  /** Padding confuses no two passwords: those with the same blocks are the same. */
  lemma {:induction false} BlocksTell(a: seq<bv16>, b: seq<bv16>)
    requires Blocks(a) == Blocks(b) && 0 !in a && 0 !in b
    ensures a == b
    decreases |a|
  {
    hide Block;
    assert Blocks(a)[0] == Block(a) && Blocks(b)[0] == Block(b);
    BlockTells(a, b);
    if |a| < 4 {
      assert |b| < 4;
      assert CharAt(b, |a|) == CharAt(a, |a|) == 0;
      assert CharAt(a, |b|) == CharAt(b, |b|) == 0;
      assert |a| == |b|;
      assert forall i :: 0 <= i < |a| ==> a[i] == CharAt(a, i) && b[i] == CharAt(b, i);
    } else {
      assert |b| >= 4;
      assert Blocks(a)[1..] == Blocks(a[4..]) && Blocks(b)[1..] == Blocks(b[4..]);
      BlocksTell(a[4..], b[4..]);
      assert forall i :: 0 <= i < 4 ==> a[i] == CharAt(a, i) && b[i] == CharAt(b, i);
      assert a == a[..4] + a[4..] && b == b[..4] + b[4..];
    }
  }
}
