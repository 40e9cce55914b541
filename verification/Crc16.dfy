/** The CRC of the MNP frames. The table-driven update is eight steps of a shift register, one bit at a time; from
    that follow the errors it always detects, whatever the length of the frame. */
module Crc16 {
  const POLYNOMIAL: bv16 := 0xA001

  // ---- one bit at a time ------------------------------------------------------------

  function BitStep(x: bv16): bv16 {
    if x & 1 == 1 then (x >> 1) ^ POLYNOMIAL else x >> 1
  }

  function EightSteps(x: bv16): bv16 {
    BitStep(BitStep(BitStep(BitStep(BitStep(BitStep(BitStep(BitStep(x))))))))
  }

  // ---- the table, in rows of sixteen ------------------------------------------------

  function Row0(i: bv8): (r: bv16)
    requires i < 16
    ensures r == EightSteps((0x00 | i) as bv16)
  {
    match i
    case 0 => 0x0000 case 1 => 0xc0c1 case 2 => 0xc181 case 3 => 0x0140
    case 4 => 0xc301 case 5 => 0x03c0 case 6 => 0x0280 case 7 => 0xc241
    case 8 => 0xc601 case 9 => 0x06c0 case 10 => 0x0780 case 11 => 0xc741
    case 12 => 0x0500 case 13 => 0xc5c1 case 14 => 0xc481 case _ => 0x0440
  }

  function Row1(i: bv8): (r: bv16)
    requires i < 16
    ensures r == EightSteps((0x10 | i) as bv16)
  {
    match i
    case 0 => 0xcc01 case 1 => 0x0cc0 case 2 => 0x0d80 case 3 => 0xcd41
    case 4 => 0x0f00 case 5 => 0xcfc1 case 6 => 0xce81 case 7 => 0x0e40
    case 8 => 0x0a00 case 9 => 0xcac1 case 10 => 0xcb81 case 11 => 0x0b40
    case 12 => 0xc901 case 13 => 0x09c0 case 14 => 0x0880 case _ => 0xc841
  }

  function Row2(i: bv8): (r: bv16)
    requires i < 16
    ensures r == EightSteps((0x20 | i) as bv16)
  {
    match i
    case 0 => 0xd801 case 1 => 0x18c0 case 2 => 0x1980 case 3 => 0xd941
    case 4 => 0x1b00 case 5 => 0xdbc1 case 6 => 0xda81 case 7 => 0x1a40
    case 8 => 0x1e00 case 9 => 0xdec1 case 10 => 0xdf81 case 11 => 0x1f40
    case 12 => 0xdd01 case 13 => 0x1dc0 case 14 => 0x1c80 case _ => 0xdc41
  }

  function Row3(i: bv8): (r: bv16)
    requires i < 16
    ensures r == EightSteps((0x30 | i) as bv16)
  {
    match i
    case 0 => 0x1400 case 1 => 0xd4c1 case 2 => 0xd581 case 3 => 0x1540
    case 4 => 0xd701 case 5 => 0x17c0 case 6 => 0x1680 case 7 => 0xd641
    case 8 => 0xd201 case 9 => 0x12c0 case 10 => 0x1380 case 11 => 0xd341
    case 12 => 0x1100 case 13 => 0xd1c1 case 14 => 0xd081 case _ => 0x1040
  }

  function Row4(i: bv8): (r: bv16)
    requires i < 16
    ensures r == EightSteps((0x40 | i) as bv16)
  {
    match i
    case 0 => 0xf001 case 1 => 0x30c0 case 2 => 0x3180 case 3 => 0xf141
    case 4 => 0x3300 case 5 => 0xf3c1 case 6 => 0xf281 case 7 => 0x3240
    case 8 => 0x3600 case 9 => 0xf6c1 case 10 => 0xf781 case 11 => 0x3740
    case 12 => 0xf501 case 13 => 0x35c0 case 14 => 0x3480 case _ => 0xf441
  }

  function Row5(i: bv8): (r: bv16)
    requires i < 16
    ensures r == EightSteps((0x50 | i) as bv16)
  {
    match i
    case 0 => 0x3c00 case 1 => 0xfcc1 case 2 => 0xfd81 case 3 => 0x3d40
    case 4 => 0xff01 case 5 => 0x3fc0 case 6 => 0x3e80 case 7 => 0xfe41
    case 8 => 0xfa01 case 9 => 0x3ac0 case 10 => 0x3b80 case 11 => 0xfb41
    case 12 => 0x3900 case 13 => 0xf9c1 case 14 => 0xf881 case _ => 0x3840
  }

  function Row6(i: bv8): (r: bv16)
    requires i < 16
    ensures r == EightSteps((0x60 | i) as bv16)
  {
    match i
    case 0 => 0x2800 case 1 => 0xe8c1 case 2 => 0xe981 case 3 => 0x2940
    case 4 => 0xeb01 case 5 => 0x2bc0 case 6 => 0x2a80 case 7 => 0xea41
    case 8 => 0xee01 case 9 => 0x2ec0 case 10 => 0x2f80 case 11 => 0xef41
    case 12 => 0x2d00 case 13 => 0xedc1 case 14 => 0xec81 case _ => 0x2c40
  }

  function Row7(i: bv8): (r: bv16)
    requires i < 16
    ensures r == EightSteps((0x70 | i) as bv16)
  {
    match i
    case 0 => 0xe401 case 1 => 0x24c0 case 2 => 0x2580 case 3 => 0xe541
    case 4 => 0x2700 case 5 => 0xe7c1 case 6 => 0xe681 case 7 => 0x2640
    case 8 => 0x2200 case 9 => 0xe2c1 case 10 => 0xe381 case 11 => 0x2340
    case 12 => 0xe101 case 13 => 0x21c0 case 14 => 0x2080 case _ => 0xe041
  }

  function Row8(i: bv8): (r: bv16)
    requires i < 16
    ensures r == EightSteps((0x80 | i) as bv16)
  {
    match i
    case 0 => 0xa001 case 1 => 0x60c0 case 2 => 0x6180 case 3 => 0xa141
    case 4 => 0x6300 case 5 => 0xa3c1 case 6 => 0xa281 case 7 => 0x6240
    case 8 => 0x6600 case 9 => 0xa6c1 case 10 => 0xa781 case 11 => 0x6740
    case 12 => 0xa501 case 13 => 0x65c0 case 14 => 0x6480 case _ => 0xa441
  }

  function Row9(i: bv8): (r: bv16)
    requires i < 16
    ensures r == EightSteps((0x90 | i) as bv16)
  {
    match i
    case 0 => 0x6c00 case 1 => 0xacc1 case 2 => 0xad81 case 3 => 0x6d40
    case 4 => 0xaf01 case 5 => 0x6fc0 case 6 => 0x6e80 case 7 => 0xae41
    case 8 => 0xaa01 case 9 => 0x6ac0 case 10 => 0x6b80 case 11 => 0xab41
    case 12 => 0x6900 case 13 => 0xa9c1 case 14 => 0xa881 case _ => 0x6840
  }

  function RowA(i: bv8): (r: bv16)
    requires i < 16
    ensures r == EightSteps((0xA0 | i) as bv16)
  {
    match i
    case 0 => 0x7800 case 1 => 0xb8c1 case 2 => 0xb981 case 3 => 0x7940
    case 4 => 0xbb01 case 5 => 0x7bc0 case 6 => 0x7a80 case 7 => 0xba41
    case 8 => 0xbe01 case 9 => 0x7ec0 case 10 => 0x7f80 case 11 => 0xbf41
    case 12 => 0x7d00 case 13 => 0xbdc1 case 14 => 0xbc81 case _ => 0x7c40
  }

  function RowB(i: bv8): (r: bv16)
    requires i < 16
    ensures r == EightSteps((0xB0 | i) as bv16)
  {
    match i
    case 0 => 0xb401 case 1 => 0x74c0 case 2 => 0x7580 case 3 => 0xb541
    case 4 => 0x7700 case 5 => 0xb7c1 case 6 => 0xb681 case 7 => 0x7640
    case 8 => 0x7200 case 9 => 0xb2c1 case 10 => 0xb381 case 11 => 0x7340
    case 12 => 0xb101 case 13 => 0x71c0 case 14 => 0x7080 case _ => 0xb041
  }

  function RowC(i: bv8): (r: bv16)
    requires i < 16
    ensures r == EightSteps((0xC0 | i) as bv16)
  {
    match i
    case 0 => 0x5000 case 1 => 0x90c1 case 2 => 0x9181 case 3 => 0x5140
    case 4 => 0x9301 case 5 => 0x53c0 case 6 => 0x5280 case 7 => 0x9241
    case 8 => 0x9601 case 9 => 0x56c0 case 10 => 0x5780 case 11 => 0x9741
    case 12 => 0x5500 case 13 => 0x95c1 case 14 => 0x9481 case _ => 0x5440
  }

  function RowD(i: bv8): (r: bv16)
    requires i < 16
    ensures r == EightSteps((0xD0 | i) as bv16)
  {
    match i
    case 0 => 0x9c01 case 1 => 0x5cc0 case 2 => 0x5d80 case 3 => 0x9d41
    case 4 => 0x5f00 case 5 => 0x9fc1 case 6 => 0x9e81 case 7 => 0x5e40
    case 8 => 0x5a00 case 9 => 0x9ac1 case 10 => 0x9b81 case 11 => 0x5b40
    case 12 => 0x9901 case 13 => 0x59c0 case 14 => 0x5880 case _ => 0x9841
  }

  function RowE(i: bv8): (r: bv16)
    requires i < 16
    ensures r == EightSteps((0xE0 | i) as bv16)
  {
    match i
    case 0 => 0x8801 case 1 => 0x48c0 case 2 => 0x4980 case 3 => 0x8941
    case 4 => 0x4b00 case 5 => 0x8bc1 case 6 => 0x8a81 case 7 => 0x4a40
    case 8 => 0x4e00 case 9 => 0x8ec1 case 10 => 0x8f81 case 11 => 0x4f40
    case 12 => 0x8d01 case 13 => 0x4dc0 case 14 => 0x4c80 case _ => 0x8c41
  }

  function RowF(i: bv8): (r: bv16)
    requires i < 16
    ensures r == EightSteps((0xF0 | i) as bv16)
  {
    match i
    case 0 => 0x4400 case 1 => 0x84c1 case 2 => 0x8581 case 3 => 0x4540
    case 4 => 0x8701 case 5 => 0x47c0 case 6 => 0x4680 case 7 => 0x8641
    case 8 => 0x8201 case 9 => 0x42c0 case 10 => 0x4380 case 11 => 0x8341
    case 12 => 0x4100 case 13 => 0x81c1 case 14 => 0x8081 case _ => 0x4040
  }

  /** The table of 256 entries. */
  function Table(index: bv8): (r: bv16)
    ensures r == EightSteps(index as bv16)
  {
    var i := index & 0xF;
    match index >> 4
    case 0 => Row0(i) case 1 => Row1(i) case 2 => Row2(i) case 3 => Row3(i)
    case 4 => Row4(i) case 5 => Row5(i) case 6 => Row6(i) case 7 => Row7(i)
    case 8 => Row8(i) case 9 => Row9(i) case 10 => RowA(i) case 11 => RowB(i)
    case 12 => RowC(i) case 13 => RowD(i) case 14 => RowE(i) case _ => RowF(i)
  }

  function Xor(x: bv16, y: bv16): bv16 {
    x ^ y
  }

  /** The update of the running CRC by a byte, through the table. */
  function Update(crc: bv16, b: bv8): bv16 {
    ((crc >> 8) & 0xFF) ^ Table(((crc & 0xFF) as bv8) ^ b)
  }

  lemma ShiftXor(x: bv16, y: bv16)
    ensures (x ^ y) >> 1 == (x >> 1) ^ (y >> 1) && (x ^ y) & 1 == (x & 1) ^ (y & 1)
    ensures (x & 1 == 0 || x & 1 == 1) && (y & 1 == 0 || y & 1 == 1)
  {
  }

  lemma XorMoves(x: bv16, y: bv16, p: bv16)
    ensures Xor(Xor(x, p), y) == Xor(Xor(x, y), p) && Xor(Xor(x, p), Xor(y, p)) == Xor(x, y)
    ensures Xor(x, Xor(y, p)) == Xor(Xor(x, y), p)
  {
    hide Xor;
    XorsSwap(x, y, p);
    XorsGroup(x, y, p);
    XorsCancel(x, y, p);
  }

  lemma XorsSwap(x: bv16, y: bv16, p: bv16)
    ensures Xor(Xor(x, p), y) == Xor(Xor(x, y), p)
  {
  }

  lemma XorsGroup(x: bv16, y: bv16, p: bv16)
    ensures Xor(x, Xor(y, p)) == Xor(Xor(x, y), p)
  {
  }

  lemma XorsCancel(x: bv16, y: bv16, p: bv16)
    ensures Xor(Xor(x, p), Xor(y, p)) == Xor(x, y)
  {
    hide Xor;
    XorsGroup(Xor(x, p), y, p);
    XorsSwap(x, y, p);
    XorBack(Xor(x, y), p);
  }

  lemma XorBack(z: bv16, p: bv16)
    ensures Xor(Xor(z, p), p) == z
  {
  }

  /** A step, with its parts named. */
  function Half(x: bv16): bv16 {
    x >> 1
  }

  predicate Lowest(x: bv16) {
    x & 1 == 1
  }

  lemma StepIs(x: bv16)
    ensures BitStep(x) == if Lowest(x) then Xor(Half(x), POLYNOMIAL) else Half(x)
  {
  }

  lemma HalfLinear(x: bv16, y: bv16)
    ensures Half(Xor(x, y)) == Xor(Half(x), Half(y)) && Lowest(Xor(x, y)) == (Lowest(x) != Lowest(y))
  {
    ShiftXor(x, y);
  }

  lemma StepLinear(x: bv16, y: bv16)
    ensures BitStep(Xor(x, y)) == Xor(BitStep(x), BitStep(y))
  {
    hide BitStep, Xor, Half, Lowest;
    StepIs(x);
    StepIs(y);
    StepIs(Xor(x, y));
    HalfLinear(x, y);
    XorMoves(Half(x), Half(y), POLYNOMIAL);
  }

  lemma EightLinear(x: bv16, y: bv16)
    ensures EightSteps(Xor(x, y)) == Xor(EightSteps(x), EightSteps(y))
  {
    hide BitStep, Xor;
    StepLinear(x, y);
    var x1, y1 := BitStep(x), BitStep(y);
    StepLinear(x1, y1);
    var x2, y2 := BitStep(x1), BitStep(y1);
    StepLinear(x2, y2);
    var x3, y3 := BitStep(x2), BitStep(y2);
    StepLinear(x3, y3);
    var x4, y4 := BitStep(x3), BitStep(y3);
    StepLinear(x4, y4);
    var x5, y5 := BitStep(x4), BitStep(y4);
    StepLinear(x5, y5);
    var x6, y6 := BitStep(x5), BitStep(y5);
    StepLinear(x6, y6);
    StepLinear(BitStep(x6), BitStep(y6));
  }

  lemma HighByteShifts(x: bv16)
    ensures EightSteps(x & 0xFF00) == (x >> 8) & 0xFF
  {
  }

  lemma SplitXor(crc: bv16, b: bv8, low: bv8)
    requires low == ((crc & 0xFF) as bv8) ^ b
    ensures Xor(crc, b as bv16) == Xor(crc & 0xFF00, low as bv16)
    ensures Update(crc, b) == Xor((crc >> 8) & 0xFF, Table(low))
  {
    hide Table;
  }

  /** The table-driven update is the shift register over the eight bits of the byte. */
  lemma UpdateIsBitwise(crc: bv16, b: bv8)
    ensures Update(crc, b) == EightSteps(Xor(crc, b as bv16))
  {
    hide EightSteps, Table, Xor, Update;
    var low := ((crc & 0xFF) as bv8) ^ b;
    SplitXor(crc, b, low);
    EightLinear(crc & 0xFF00, low as bv16);
    HighByteShifts(crc);
  }

  // ---- the reference: a register that shifts in one bit at a time ------------------------------

  predicate Bit(x: bv8, k: nat)
    requires k < 8
  {
    match k
    case 0 => x & 0x01 != 0 case 1 => x & 0x02 != 0 case 2 => x & 0x04 != 0 case 3 => x & 0x08 != 0
    case 4 => x & 0x10 != 0 case 5 => x & 0x20 != 0 case 6 => x & 0x40 != 0 case _ => x & 0x80 != 0
  }

  /** The bits of a byte in the order they go over the line, the least significant first. */
  function Bits(x: bv8): (r: seq<bool>)
    ensures |r| == 8
  {
    [Bit(x, 0), Bit(x, 1), Bit(x, 2), Bit(x, 3), Bit(x, 4), Bit(x, 5), Bit(x, 6), Bit(x, 7)]
  }

  function Feed(x: bv16, bit: bool): bv16 {
    BitStep(Xor(x, if bit then 1 else 0))
  }

  function Serial(x: bv16, bits: seq<bool>): bv16 {
    if bits == [] then x else Feed(Serial(x, bits[..|bits| - 1]), bits[|bits| - 1])
  }

  function AllBits(data: seq<bv8>): (r: seq<bool>)
    ensures |r| == 8 * |data|
  {
    if data == [] then [] else AllBits(data[..|data| - 1]) + Bits(data[|data| - 1])
  }

  /** The CRC the pipe keeps while it reads or writes the bytes of a frame. */
  function Crc(data: seq<bv8>): bv16 {
    if data == [] then 0 else Update(Crc(data[..|data| - 1]), data[|data| - 1])
  }

  lemma {:induction false} SerialAppend(x: bv16, a: seq<bool>, b: seq<bool>)
    ensures Serial(x, a + b) == Serial(Serial(x, a), b)
  {
    hide Feed;
    if b == [] {
      assert a + b == a;
    } else {
      var n := |b| - 1;
      assert (a + b)[..|a + b| - 1] == a + b[..n];
      SerialAppend(x, a, b[..n]);
    }
  }

  lemma SerialNext(x: bv16, bits: seq<bool>, b: bool)
    ensures Serial(x, bits + [b]) == Feed(Serial(x, bits), b)
  {
    assert (bits + [b])[..|bits|] == bits;
  }

  lemma SerialEight(x: bv16, a: bool, b: bool, c: bool, d: bool, e: bool, f: bool, g: bool, h: bool)
    ensures Serial(x, [a, b, c, d, e, f, g, h])
         == Feed(Feed(Feed(Feed(Feed(Feed(Feed(Feed(x, a), b), c), d), e), f), g), h)
  {
    hide Feed, Serial;
    SerialNone(x);
    SerialNext(x, [], a);
    SerialNext(x, [a], b);
    SerialNext(x, [a, b], c);
    SerialNext(x, [a, b, c], d);
    SerialNext(x, [a, b, c, d], e);
    SerialNext(x, [a, b, c, d, e], f);
    SerialNext(x, [a, b, c, d, e, f], g);
    SerialNext(x, [a, b, c, d, e, f, g], h);
    assert [] + [a] == [a] && [a] + [b] == [a, b] && [a, b] + [c] == [a, b, c] && [a, b, c] + [d] == [a, b, c, d];
    assert [a, b, c, d] + [e] == [a, b, c, d, e] && [a, b, c, d, e] + [f] == [a, b, c, d, e, f];
    assert [a, b, c, d, e, f] + [g] == [a, b, c, d, e, f, g] && [a, b, c, d, e, f, g] + [h] == [a, b, c, d, e, f, g, h];
  }

  lemma SerialNone(x: bv16)
    ensures Serial(x, []) == x
  {
  }

  lemma LowBitApart(x: bv16, y: bv16)
    ensures Xor(x, y) == Xor(Xor(x, if y & 1 != 0 then 1 else 0), y & 0xFFFE)
  {
    if y & 1 != 0 {
      LowBitSet(x, y);
    } else {
      LowBitClear(x, y);
    }
  }

  lemma LowBitSet(x: bv16, y: bv16)
    requires y & 1 != 0
    ensures x ^ y == (x ^ 1) ^ (y & 0xFFFE)
  {
  }

  lemma LowBitClear(x: bv16, y: bv16)
    requires y & 1 == 0
    ensures x ^ y == (x ^ 0) ^ (y & 0xFFFE)
  {
  }

  lemma EvenStep(y: bv16)
    ensures BitStep(y & 0xFFFE) == y >> 1
  {
    assert (y & 0xFFFE) & 1 == 0 && (y & 0xFFFE) >> 1 == y >> 1;
  }

  /** Feeding the lowest bit and then combining the others is combining the whole word and then stepping. */
  lemma FeedShifts(x: bv16, y: bv16, bit: bool, rest: bv16)
    requires bit == (y & 1 != 0) && rest == y >> 1
    ensures BitStep(Xor(x, y)) == Xor(Feed(x, bit), rest)
  {
    hide BitStep, Xor;
    LowBitApart(x, y);
    EvenStep(y);
    StepLinear(Xor(x, if y & 1 != 0 then 1 else 0), y & 0xFFFE);
  }

  /** The bits of a byte are what its successive shifts have at the bottom. */
  lemma ShiftedBits(b: bv8, y: bv16)
    requires y == b as bv16
    ensures Bit(b, 0) == (y & 1 != 0) && Bit(b, 1) == ((y >> 1) & 1 != 0) && Bit(b, 2) == ((y >> 2) & 1 != 0)
    ensures Bit(b, 3) == ((y >> 3) & 1 != 0) && Bit(b, 4) == ((y >> 4) & 1 != 0) && Bit(b, 5) == ((y >> 5) & 1 != 0)
    ensures Bit(b, 6) == ((y >> 6) & 1 != 0) && Bit(b, 7) == ((y >> 7) & 1 != 0) && y >> 8 == 0
    ensures (y >> 1) >> 1 == y >> 2 && (y >> 2) >> 1 == y >> 3 && (y >> 3) >> 1 == y >> 4 && (y >> 4) >> 1 == y >> 5
    ensures (y >> 5) >> 1 == y >> 6 && (y >> 6) >> 1 == y >> 7 && (y >> 7) >> 1 == y >> 8
  {
  }

  lemma EightFeeds(x: bv16, b: bv8)
    ensures EightSteps(Xor(x, b as bv16)) == Serial(x, Bits(b))
  {
    hide BitStep, Xor, Feed, Serial, Bit;
    var y := b as bv16;
    ShiftedBits(b, y);
    var x1 := Feed(x, Bit(b, 0));
    var x2 := Feed(x1, Bit(b, 1));
    var x3 := Feed(x2, Bit(b, 2));
    var x4 := Feed(x3, Bit(b, 3));
    var x5 := Feed(x4, Bit(b, 4));
    var x6 := Feed(x5, Bit(b, 5));
    var x7 := Feed(x6, Bit(b, 6));
    FeedShifts(x, y, Bit(b, 0), y >> 1);
    FeedShifts(x1, y >> 1, Bit(b, 1), y >> 2);
    FeedShifts(x2, y >> 2, Bit(b, 2), y >> 3);
    FeedShifts(x3, y >> 3, Bit(b, 3), y >> 4);
    FeedShifts(x4, y >> 4, Bit(b, 4), y >> 5);
    FeedShifts(x5, y >> 5, Bit(b, 5), y >> 6);
    FeedShifts(x6, y >> 6, Bit(b, 6), y >> 7);
    FeedShifts(x7, y >> 7, Bit(b, 7), 0);
    XorNothing(Feed(x7, Bit(b, 7)));
    SerialEight(x, Bit(b, 0), Bit(b, 1), Bit(b, 2), Bit(b, 3), Bit(b, 4), Bit(b, 5), Bit(b, 6), Bit(b, 7));
  }

  lemma XorNothing(x: bv16)
    ensures Xor(x, 0) == x
  {
  }

  /** The table-driven CRC of any bytes is the one-bit-at-a-time CRC of their bits. */
  lemma {:induction false} CrcIsSerial(data: seq<bv8>)
    ensures Crc(data) == Serial(0, AllBits(data))
  {
    hide Update, Bits, Feed, EightSteps;
    if data != [] {
      var n := |data| - 1;
      CrcIsSerial(data[..n]);
      UpdateIsBitwise(Crc(data[..n]), data[n]);
      EightFeeds(Crc(data[..n]), data[n]);
      SerialAppend(0, AllBits(data[..n]), Bits(data[n]));
    }
  }

  // ---- what it detects -------------------------------------------------------------------------

  lemma StepInjective(x: bv16, y: bv16)
    ensures BitStep(x) == BitStep(y) <==> x == y
  {
  }

  lemma XorInjective(x: bv16, y: bv16, p: bv16)
    ensures Xor(x, p) == Xor(y, p) <==> x == y
    ensures Xor(p, x) == Xor(p, y) <==> x == y
  {
  }

  lemma FeedInjective(x: bv16, y: bv16, bit: bool)
    ensures Feed(x, bit) == Feed(y, bit) <==> x == y
  {
    hide BitStep, Xor;
    StepInjective(Xor(x, if bit then 1 else 0), Xor(y, if bit then 1 else 0));
    XorInjective(x, y, if bit then 1 else 0);
  }

  /** The same bits never make different registers equal: the CRC forgets nothing. */
  lemma {:induction false} SerialInjective(x: bv16, y: bv16, bits: seq<bool>)
    ensures Serial(x, bits) == Serial(y, bits) <==> x == y
  {
    hide Feed;
    if bits != [] {
      SerialInjective(x, y, bits[..|bits| - 1]);
      FeedInjective(Serial(x, bits[..|bits| - 1]), Serial(y, bits[..|bits| - 1]), bits[|bits| - 1]);
    }
  }

  lemma EightInjective(x: bv16, y: bv16)
    ensures EightSteps(x) == EightSteps(y) ==> x == y
  {
    hide BitStep;
    var x1, y1 := BitStep(x), BitStep(y);
    var x2, y2 := BitStep(x1), BitStep(y1);
    var x3, y3 := BitStep(x2), BitStep(y2);
    var x4, y4 := BitStep(x3), BitStep(y3);
    var x5, y5 := BitStep(x4), BitStep(y4);
    var x6, y6 := BitStep(x5), BitStep(y5);
    StepInjective(BitStep(x6), BitStep(y6));
    StepInjective(x6, y6);
    StepInjective(x5, y5);
    StepInjective(x4, y4);
    StepInjective(x3, y3);
    StepInjective(x2, y2);
    StepInjective(x1, y1);
    StepInjective(x, y);
  }

  /** The high bytes of the table are all different. */
  lemma HighBytesDiffer(a: bv8, b: bv8)
    requires EightSteps(a as bv16) >> 8 == EightSteps(b as bv16) >> 8
    ensures a == b
  {
  }

  lemma LowBytesCancel(c: bv16, p: bv16, q: bv16, a: bv8, b: bv8)
    requires Xor(Xor(c, p), a as bv16) == Xor(Xor(c, q), b as bv16)
    ensures p >> 8 == q >> 8 && (p == q ==> a == b)
  {
  }

  /** Two bytes fed to the same register can be told from it. */
  lemma TwoBytesTold(x: bv16, a1: bv8, a2: bv8, b1: bv8, b2: bv8)
    requires EightSteps(Xor(EightSteps(Xor(x, a1 as bv16)), a2 as bv16))
          == EightSteps(Xor(EightSteps(Xor(x, b1 as bv16)), b2 as bv16))
    ensures a1 == b1 && a2 == b2
  {
    hide EightSteps, Xor;
    EightInjective(Xor(EightSteps(Xor(x, a1 as bv16)), a2 as bv16), Xor(EightSteps(Xor(x, b1 as bv16)), b2 as bv16));
    EightLinear(x, a1 as bv16);
    EightLinear(x, b1 as bv16);
    LowBytesCancel(EightSteps(x), EightSteps(a1 as bv16), EightSteps(b1 as bv16), a2, b2);
    HighBytesDiffer(a1, b1);
  }

  function ByteOf(bits: seq<bool>): bv8
    requires |bits| == 8
  {
    (if bits[0] then 0x01 else 0) | (if bits[1] then 0x02 else 0) | (if bits[2] then 0x04 else 0)
    | (if bits[3] then 0x08 else 0) | (if bits[4] then 0x10 else 0) | (if bits[5] then 0x20 else 0)
    | (if bits[6] then 0x40 else 0) | (if bits[7] then 0x80 else 0)
  }

  lemma BitsOfByte(bits: seq<bool>)
    requires |bits| == 8
    ensures Bits(ByteOf(bits)) == bits
  {
  }

  lemma SixteenTold(x: bv16, a: seq<bool>, b: seq<bool>)
    requires |a| == |b| == 16 && Serial(x, a) == Serial(x, b)
    ensures a == b
  {
    hide EightSteps, Xor, Serial, Bits, ByteOf;
    var a1, a2, b1, b2 := ByteOf(a[..8]), ByteOf(a[8..]), ByteOf(b[..8]), ByteOf(b[8..]);
    AsTwoBytes(x, a, a1, a2);
    AsTwoBytes(x, b, b1, b2);
    TwoBytesTold(x, a1, a2, b1, b2);
    BitsOfByte(a[..8]);
    BitsOfByte(a[8..]);
    BitsOfByte(b[..8]);
    BitsOfByte(b[8..]);
    assert a == a[..8] + a[8..] && b == b[..8] + b[8..];
  }

  lemma AsTwoBytes(x: bv16, bits: seq<bool>, first: bv8, second: bv8)
    requires |bits| == 16 && first == ByteOf(bits[..8]) && second == ByteOf(bits[8..])
    ensures Serial(x, bits) == EightSteps(Xor(EightSteps(Xor(x, first as bv16)), second as bv16))
  {
    hide EightSteps, Xor, Serial, Bits, ByteOf;
    BitsOfByte(bits[..8]);
    BitsOfByte(bits[8..]);
    assert bits == bits[..8] + bits[8..];
    SerialAppend(x, bits[..8], bits[8..]);
    EightFeeds(x, first);
    EightFeeds(EightSteps(Xor(x, first as bv16)), second);
  }

  /** Up to sixteen bits fed to the same register can be told from it. */
  lemma BurstTold(x: bv16, a: seq<bool>, b: seq<bool>)
    requires |a| == |b| <= 16
    ensures Serial(x, a) == Serial(x, b) <==> a == b
  {
    hide Serial;
    if Serial(x, a) == Serial(x, b) {
      var pad := seq(16 - |a|, _ => false);
      SerialAppend(x, a, pad);
      SerialAppend(x, b, pad);
      SixteenTold(x, a + pad, b + pad);
      assert a == (a + pad)[..|a|] && b == (b + pad)[..|a|];
    }
  }

  /** Bits that are the same but for a burst of at most sixteen, anywhere. */
  predicate BurstApart(a: seq<bool>, b: seq<bool>, from: nat, to: nat) {
    && |a| == |b| && from <= to <= |a| && to - from <= 16
    && a[..from] == b[..from] && a[to..] == b[to..]
  }

  lemma SerialBurst(x: bv16, a: seq<bool>, b: seq<bool>, from: nat, to: nat)
    requires BurstApart(a, b, from, to)
    ensures Serial(x, a) == Serial(x, b) <==> a == b
  {
    hide Serial;
    var start := Serial(x, a[..from]);
    InThree(x, a, from, to);
    InThree(x, b, from, to);
    BurstTold(start, a[from..to], b[from..to]);
    SerialInjective(Serial(start, a[from..to]), Serial(start, b[from..to]), a[to..]);
    ThreePieces(a, from, to);
    ThreePieces(b, from, to);
  }

  lemma ThreePieces(bits: seq<bool>, from: nat, to: nat)
    requires from <= to <= |bits|
    ensures bits == bits[..from] + bits[from..to] + bits[to..]
  {
  }

  lemma InThree(x: bv16, bits: seq<bool>, from: nat, to: nat)
    requires from <= to <= |bits|
    ensures Serial(x, bits) == Serial(Serial(Serial(x, bits[..from]), bits[from..to]), bits[to..])
  {
    hide Serial;
    ThreePieces(bits, from, to);
    SerialAppend(x, bits[..from] + bits[from..to], bits[to..]);
    SerialAppend(x, bits[..from], bits[from..to]);
  }

  lemma ByteOfBits(a: bv8)
    ensures ByteOf(Bits(a)) == a
  {
  }

  lemma BitsInjective(a: bv8, b: bv8)
    ensures Bits(a) == Bits(b) <==> a == b
  {
    hide Bits, ByteOf;
    ByteOfBits(a);
    ByteOfBits(b);
  }

  lemma {:induction false} AllBitsInjective(p: seq<bv8>, q: seq<bv8>)
    requires |p| == |q|
    ensures AllBits(p) == AllBits(q) <==> p == q
  {
    hide Bits;
    if p != [] {
      var n := |p| - 1;
      var a, b := AllBits(p), AllBits(q);
      AllBitsInjective(p[..n], q[..n]);
      BitsInjective(p[n], q[n]);
      assert a[..8 * n] == AllBits(p[..n]) && a[8 * n..] == Bits(p[n]);
      assert b[..8 * n] == AllBits(q[..n]) && b[8 * n..] == Bits(q[n]);
      assert p == p[..n] + [p[n]] && q == q[..n] + [q[n]];
    }
  }

  /** A burst of errors of at most sixteen bits, anywhere in data of any length, always changes the CRC; and so it
      does that of the frame, which goes on with a fixed byte. */
  lemma {:induction false} BurstDetected(p: seq<bv8>, q: seq<bv8>, from: nat, to: nat, last: bv8)
    requires |p| == |q| && BurstApart(AllBits(p), AllBits(q), from, to)
    ensures Crc(p) == Crc(q) <==> p == q
    ensures Update(Crc(p), last) == Update(Crc(q), last) <==> p == q
  {
    hide AllBits, Serial, Update;
    CrcIsSerial(p);
    CrcIsSerial(q);
    SerialBurst(0, AllBits(p), AllBits(q), from, to);
    AllBitsInjective(p, q);
    UpdateInjective(Crc(p), Crc(q), last);
  }

  /** The update loses nothing of the running CRC. */
  lemma UpdateInjective(x: bv16, y: bv16, b: bv8)
    ensures Update(x, b) == Update(y, b) <==> x == y
  {
    hide EightSteps, Xor, Update;
    UpdateIsBitwise(x, b);
    UpdateIsBitwise(y, b);
    EightInjective(Xor(x, b as bv16), Xor(y, b as bv16));
    XorInjective(x, y, b as bv16);
  }

  lemma {:induction false} AllBitsAppend(p: seq<bv8>, q: seq<bv8>)
    ensures AllBits(p + q) == AllBits(p) + AllBits(q)
  {
    hide Bits;
    if q == [] {
      assert p + q == p;
    } else {
      var n := |q| - 1;
      assert (p + q)[..|p + q| - 1] == p + q[..n];
      AllBitsAppend(p, q[..n]);
      assert AllBits(p) + (AllBits(q[..n]) + Bits(q[n])) == AllBits(p) + AllBits(q[..n]) + Bits(q[n]);
    }
  }

  /** In particular, errors inside one byte or two adjacent bytes. */
  lemma AdjacentBytesDetected(before: seq<bv8>, x: seq<bv8>, y: seq<bv8>, after: seq<bv8>, last: bv8)
    requires |x| == |y| <= 2
    ensures Update(Crc(before + x + after), last) == Update(Crc(before + y + after), last) <==> x == y
  {
    hide AllBits, Update, Crc;
    AllBitsAppend(before + x, after);
    AllBitsAppend(before, x);
    AllBitsAppend(before + y, after);
    AllBitsAppend(before, y);
    var p, q := before + x + after, before + y + after;
    var a, b := AllBits(p), AllBits(q);
    var from, to := 8 * |before|, 8 * |before| + 8 * |x|;
    assert a[..from] == AllBits(before) == b[..from] && a[to..] == AllBits(after) == b[to..];
    BurstDetected(p, q, from, to, last);
    assert p[|before|..|before| + |x|] == x && q[|before|..|before| + |x|] == y;
  }

  // ---- an odd number of wrong bits --------------------------------------------------------------

  lemma HalfSmaller(x: bv16)
    requires x != 0
    ensures Half(x) < x
  {
  }

  /** Whether an odd number of the bits are set. */
  predicate Parity(x: bv16)
    decreases x
  {
    if x == 0 then false
    else
      HalfSmaller(x);
      Lowest(x) != Parity(Half(x))
  }

  predicate Odd(bits: seq<bool>) {
    bits != [] && (Odd(bits[..|bits| - 1]) != bits[|bits| - 1])
  }

  lemma ZeroWord(y: bv16)
    ensures Half(0) == 0 && !Lowest(0) && Xor(0, y) == y
  {
  }

  lemma ParityHalves(x: bv16)
    ensures Parity(x) == (Lowest(x) != Parity(Half(x)))
  {
    hide Half, Lowest;
    ZeroWord(0);
  }

  lemma {:induction false} ParityLinear(x: bv16, y: bv16)
    ensures Parity(Xor(x, y)) == (Parity(x) != Parity(y))
    decreases x
  {
    hide Parity, Xor, Half, Lowest;
    if x == 0 {
      ZeroWord(y);
      NoParity();
    } else {
      HalfSmaller(x);
      HalfLinear(x, y);
      ParityLinear(Half(x), Half(y));
      ParityHalves(x);
      ParityHalves(y);
      ParityHalves(Xor(x, y));
    }
  }

  /** The polynomial has three bits, so the register keeps its parity. */
  lemma PolynomialParity()
    ensures Parity(POLYNOMIAL) && Parity(1)
  {
    assert Parity(1) == !Parity(0);
    assert Parity(5) == !Parity(2) && Parity(2) == Parity(1);
    assert Parity(0xA0) == Parity(0x50) == Parity(0x28) == Parity(0x14) == Parity(0xA) == Parity(5);
    assert Parity(0x5000) == Parity(0x2800) == Parity(0x1400) == Parity(0xA00) == Parity(0x500) == Parity(0x280)
        == Parity(0x140) == Parity(0xA0);
  }

  lemma StepKeepsParity(x: bv16)
    ensures Parity(BitStep(x)) == Parity(x)
  {
    hide Parity, BitStep, Half, Lowest, Xor;
    StepIs(x);
    ParityHalves(x);
    PolynomialParity();
    ParityLinear(Half(x), POLYNOMIAL);
  }

  lemma XorParity(x: bv16, bit: bool)
    ensures Parity(Xor(x, if bit then 1 else 0)) == (Parity(x) != bit)
  {
    hide Parity;
    PolynomialParity();
    NoParity();
    ParityLinear(x, if bit then 1 else 0);
  }

  lemma {:induction false} SerialParity(bits: seq<bool>)
    ensures Parity(Serial(0, bits)) == Odd(bits)
  {
    hide Xor, BitStep, Parity;
    if bits == [] {
      NoParity();
    } else {
      var n := |bits| - 1;
      SerialParity(bits[..n]);
      var x := Serial(0, bits[..n]);
      XorParity(x, bits[n]);
      StepKeepsParity(Xor(x, if bits[n] then 1 else 0));
    }
  }

  lemma NoParity()
    ensures !Parity(0)
  {
  }

  /** Data whose numbers of one bits differ in parity differ in CRC: any odd number of wrong bits is detected. */
  lemma {:induction false} OddErrorsDetected(p: seq<bv8>, q: seq<bv8>, last: bv8)
    requires Odd(AllBits(p)) != Odd(AllBits(q))
    ensures Crc(p) != Crc(q) && Update(Crc(p), last) != Update(Crc(q), last)
  {
    hide AllBits, Serial, Parity, Update;
    UpdateInjective(Crc(p), Crc(q), last);
    CrcIsSerial(p);
    CrcIsSerial(q);
    SerialParity(AllBits(p));
    SerialParity(AllBits(q));
  }
}
