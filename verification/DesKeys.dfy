/** The DES key schedule on bits: which bits of a key matter, and the keys that are their own decoding keys. */
module DesKeys {
  import opened DesBits
  import opened DesTables
  import opened DesCipher

  // ---- the schedule ----------------------------------------------------------------------------

  function FirstHalf(key: Bits): (c: Bits)
    requires |key| == 64
    ensures |c| == 28
  {
    seq(28, i requires 0 <= i < 28 => key[PC1(i) - 1])
  }

  function SecondHalf(key: Bits): (d: Bits)
    requires |key| == 64
    ensures |d| == 28
  {
    seq(28, i requires 0 <= i < 28 => key[PC1(i + 28) - 1])
  }

  function Rotate(c: Bits, n: nat): (r: Bits)
    requires n <= |c|
    ensures |r| == |c|
  {
    c[n..] + c[..n]
  }

  /** The rotations still to do, one a bit from the lowest on: a set bit is two, a clear one is one. */
  function RotationsLeft(j: nat): bv16 {
    if j == 0 then 0x7EFC else RotationsLeft(j - 1) >> 1
  }

  function RotationCount(j: nat): (n: nat)
    ensures 1 <= n <= 2
  {
    if RotationsLeft(j) & 1 != 0 then 2 else 1
  }

  function HalfAt(c: Bits, j: nat): (r: Bits)
    requires |c| == 28
    ensures |r| == 28
  {
    if j == 0 then c else Rotate(HalfAt(c, j - 1), RotationCount(j - 1))
  }

  function SubKey(c: Bits, d: Bits): (k: Bits)
    requires |c| == |d| == 28
    ensures |k| == 48
  {
    seq(48, i requires 0 <= i < 48 => if i < 24 then c[PC2(i) - 1] else d[PC2(i) - 29])
  }

  /** The first n subkeys of the two halves. */
  function Schedule(c: Bits, d: Bits, n: nat): (keys: seq<Bits>)
    requires |c| == |d| == 28
    ensures |keys| == n && SubKeys(keys)
  {
    if n == 0 then [] else Schedule(c, d, n - 1) + [SubKey(HalfAt(c, n), HalfAt(d, n))]
  }

  function SubKeysOf(key: Bits): (keys: seq<Bits>)
    requires |key| == 64
    ensures |keys| == 16 && SubKeys(keys)
  {
    Schedule(FirstHalf(key), SecondHalf(key), 16)
  }

  /** The variant of the Newton shifts each half of the key by one bit first. */
  function NewtonKey(key: Bits): (r: Bits)
    requires |key| == 64
    ensures |r| == 64
  {
    key[1..32] + [false] + key[33..64] + [false]
  }

  function NewtonSubKeysOf(key: Bits): (keys: seq<Bits>)
    requires |key| == 64
    ensures |keys| == 16 && SubKeys(keys)
  {
    SubKeysOf(NewtonKey(key))
  }

  // ---- the rotations ---------------------------------------------------------------------------------

  function TotalRotation(j: nat): nat {
    if j == 0 then 0 else TotalRotation(j - 1) + RotationCount(j - 1)
  }

  lemma RotationWords()
    ensures RotationsLeft(1) == 0x3F7E && RotationsLeft(2) == 0x1FBF && RotationsLeft(3) == 0x0FDF
    ensures RotationsLeft(4) == 0x07EF && RotationsLeft(5) == 0x03F7 && RotationsLeft(6) == 0x01FB
    ensures RotationsLeft(7) == 0x00FD && RotationsLeft(8) == 0x007E && RotationsLeft(9) == 0x003F
    ensures RotationsLeft(10) == 0x001F && RotationsLeft(11) == 0x000F && RotationsLeft(12) == 0x0007
    ensures RotationsLeft(13) == 0x0003 && RotationsLeft(14) == 0x0001 && RotationsLeft(15) == 0x0000
  {
  }

  /** One or two at a time, the sixteen rotations add up to the whole half. */
  lemma RotationsTotal()
    ensures RotationCount(0) == RotationCount(1) == RotationCount(8) == RotationCount(15) == 1
    ensures RotationCount(2) == RotationCount(3) == RotationCount(4) == RotationCount(5) == RotationCount(6)
         == RotationCount(7) == 2
    ensures RotationCount(9) == RotationCount(10) == RotationCount(11) == RotationCount(12) == RotationCount(13)
         == RotationCount(14) == 2
    ensures TotalRotation(16) == 28
  {
    hide RotationsLeft;
    RotationWords();
    RotationStart();
    assert TotalRotation(4) == 6;
    assert TotalRotation(8) == 14;
    assert TotalRotation(12) == 21;
  }

  lemma RotationStart()
    ensures RotationsLeft(0) == 0x7EFC
  {
  }

  lemma RotateTwice(c: Bits, m: nat, n: nat)
    requires m + n <= |c|
    ensures Rotate(Rotate(c, m), n) == Rotate(c, m + n)
  {
  }

  lemma {:induction false} HalfRotated(c: Bits, j: nat)
    requires |c| == 28 && TotalRotation(j) <= 28
    ensures HalfAt(c, j) == Rotate(c, TotalRotation(j))
  {
    if j > 0 {
      HalfRotated(c, j - 1);
      RotateTwice(c, TotalRotation(j - 1), RotationCount(j - 1));
    }
  }

  /** After the sixteenth subkey both halves are back where they started. */
  lemma HalvesReturn(c: Bits)
    requires |c| == 28
    ensures HalfAt(c, 16) == c
  {
    hide *;
    RotationsTotal();
    HalfRotated(c, 16);
    assert Rotate(c, 28) == c by { RotateAll(c); }
  }

  lemma RotateAll(c: Bits)
    ensures Rotate(c, |c|) == c
  {
  }

  // ---- which bits of a key matter -----------------------------------------------------------------------

  /** Where permuted choice 1 puts a bit that is not the last of its byte. */
  function PC1Where(n: nat): (i: nat)
    requires 1 <= n <= 64 && n % 8 != 0
    ensures i < 56 && PC1(i) == n
  {
    match (n - 1) / 8
    case 0 => (
      match n % 8
      case 1 => 7 case 2 => 15 case 3 => 23 case 4 => 55 case 5 => 51 case 6 => 43 case _ => 35
    )
    case 1 => (
      match n % 8
      case 1 => 6 case 2 => 14 case 3 => 22 case 4 => 54 case 5 => 50 case 6 => 42 case _ => 34
    )
    case 2 => (
      match n % 8
      case 1 => 5 case 2 => 13 case 3 => 21 case 4 => 53 case 5 => 49 case 6 => 41 case _ => 33
    )
    case 3 => (
      match n % 8
      case 1 => 4 case 2 => 12 case 3 => 20 case 4 => 52 case 5 => 48 case 6 => 40 case _ => 32
    )
    case 4 => (
      match n % 8
      case 1 => 3 case 2 => 11 case 3 => 19 case 4 => 27 case 5 => 47 case 6 => 39 case _ => 31
    )
    case 5 => (
      match n % 8
      case 1 => 2 case 2 => 10 case 3 => 18 case 4 => 26 case 5 => 46 case 6 => 38 case _ => 30
    )
    case 6 => (
      match n % 8
      case 1 => 1 case 2 => 9 case 3 => 17 case 4 => 25 case 5 => 45 case 6 => 37 case _ => 29
    )
    case _ => (
      match n % 8
      case 1 => 0 case 2 => 8 case 3 => 16 case 4 => 24 case 5 => 44 case 6 => 36 case _ => 28
    )
  }

  /** Keys that differ at most in the last bit of each byte. */
  predicate SameKeyBits(a: Bits, b: Bits)
    requires |a| == |b| == 64
  {
    forall i :: 0 <= i < 64 && i % 8 != 7 ==> a[i] == b[i]
  }

  lemma HalvesSameIff(a: Bits, b: Bits)
    requires |a| == |b| == 64
    ensures FirstHalf(a) == FirstHalf(b) && SecondHalf(a) == SecondHalf(b) <==> SameKeyBits(a, b)
  {
    hide PC1, PC1Where;
    if SameKeyBits(a, b) {
      assert FirstHalf(a) == FirstHalf(b) && SecondHalf(a) == SecondHalf(b);
    } else {
      var i :| 0 <= i < 64 && i % 8 != 7 && a[i] != b[i];
      var j := PC1Where(i + 1);
      if j < 28 {
        assert FirstHalf(a)[j] != FirstHalf(b)[j];
      } else {
        assert SecondHalf(a)[j - 28] != SecondHalf(b)[j - 28];
      }
    }
  }

  /** Permuted choice 2 leaves out four bits of each half. */
  predicate LeftOutFirst(q: nat) {
    q in {9, 18, 22, 25}
  }

  /** Where it puts a bit of the first half. */
  function FirstWhere(q: nat): (p: nat)
    requires 1 <= q <= 28 && !LeftOutFirst(q)
    ensures p < 24 && PC2(p) == q
  {
    match q
    case 1 => 4 case 2 => 23 case 3 => 6 case 4 => 15 case 5 => 5 case 6 => 9 case 7 => 19 case 8 => 17
    case 10 => 11 case 11 => 2 case 12 => 14 case 13 => 22 case 14 => 0 case 15 => 8 case 16 => 18 case 17 => 1
    case 19 => 13 case 20 => 21 case 21 => 10 case 23 => 12 case 24 => 3 case 26 => 16 case 27 => 20 case _ => 7
  }

  predicate LeftOutSecond(q: nat) {
    q in {7, 10, 15, 26}
  }

  function SecondWhere(q: nat): (p: nat)
    requires 1 <= q <= 28 && !LeftOutSecond(q)
    ensures 24 <= p < 48 && PC2(p) == q + 28
  {
    match q
    case 1 => 46 case 2 => 30 case 3 => 26 case 4 => 47 case 5 => 34 case 6 => 40 case 8 => 45 case 9 => 27
    case 11 => 38 case 12 => 31 case 13 => 24 case 14 => 43 case 16 => 36 case 17 => 33 case 18 => 42 case 19 => 28
    case 20 => 35 case 21 => 37 case 22 => 44 case 23 => 32 case 24 => 25 case 25 => 41 case 27 => 29 case _ => 39
  }

  /** What a subkey leaves out of a half, the subkey of the half rotated by one takes. */
  lemma SubKeyHas(c: Bits, d: Bits, q: nat)
    requires |c| == |d| == 28 && 1 <= q <= 28
    ensures !LeftOutFirst(q) ==> c[q - 1] == SubKey(c, d)[FirstWhere(q)]
    ensures !LeftOutSecond(q) ==> d[q - 1] == SubKey(c, d)[SecondWhere(q)]
  {
    hide PC2, FirstWhere, SecondWhere;
  }

  lemma SubKeysDetermine(c1: Bits, d1: Bits, c2: Bits, d2: Bits)
    requires |c1| == |d1| == |c2| == |d2| == 28
    requires SubKey(c1, d1) == SubKey(c2, d2) && SubKey(Rotate(c1, 1), Rotate(d1, 1)) == SubKey(Rotate(c2, 1), Rotate(d2, 1))
    ensures c1 == c2 && d1 == d2
  {
    hide SubKey, FirstWhere, SecondWhere;
    forall i | 0 <= i < 28 ensures c1[i] == c2[i] && d1[i] == d2[i] {
      var before := if i == 0 then 28 else i;
      SubKeyHas(c1, d1, i + 1);
      SubKeyHas(c2, d2, i + 1);
      SubKeyHas(Rotate(c1, 1), Rotate(d1, 1), before);
      SubKeyHas(Rotate(c2, 1), Rotate(d2, 1), before);
    }
  }

  lemma {:induction false} ScheduleAt(c: Bits, d: Bits, n: nat, j: nat)
    requires |c| == |d| == 28 && j < n
    ensures Schedule(c, d, n)[j] == SubKey(HalfAt(c, j + 1), HalfAt(d, j + 1))
  {
    hide SubKey, HalfAt;
    if j < n - 1 {
      ScheduleAt(c, d, n - 1, j);
    }
  }

  lemma FirstTwoHalves(c: Bits)
    requires |c| == 28
    ensures HalfAt(c, 1) == Rotate(c, 1) && HalfAt(c, 2) == Rotate(Rotate(c, 1), 1)
  {
    hide RotationCount;
    RotationsTotal();
  }

  lemma RotateInjective(a: Bits, b: Bits)
    requires |a| == |b| == 28 && Rotate(a, 1) == Rotate(b, 1)
    ensures a == b
  {
    forall i | 0 <= i < 28 ensures a[i] == b[i] {
      var j := if i == 0 then 27 else i - 1;
      assert Rotate(a, 1)[j] == a[i] && Rotate(b, 1)[j] == b[i];
    }
  }

  /** Two keys have the same subkeys exactly when they differ at most in the last bit of each byte. */
  lemma SameScheduleIff(a: Bits, b: Bits)
    requires |a| == |b| == 64
    ensures SubKeysOf(a) == SubKeysOf(b) <==> SameKeyBits(a, b)
  {
    hide SubKey, HalfAt, Rotate, SameKeyBits, FirstHalf, SecondHalf, Schedule;
    HalvesSameIff(a, b);
    if SubKeysOf(a) == SubKeysOf(b) {
      var c1, d1, c2, d2 := FirstHalf(a), SecondHalf(a), FirstHalf(b), SecondHalf(b);
      ScheduleAt(c1, d1, 16, 0);
      ScheduleAt(c2, d2, 16, 0);
      ScheduleAt(c1, d1, 16, 1);
      ScheduleAt(c2, d2, 16, 1);
      FirstTwoHalves(c1);
      FirstTwoHalves(d1);
      FirstTwoHalves(c2);
      FirstTwoHalves(d2);
      SubKeysDetermine(Rotate(c1, 1), Rotate(d1, 1), Rotate(c2, 1), Rotate(d2, 1));
      RotateInjective(c1, c2);
      RotateInjective(d1, d2);
    }
  }

  /** For the Newton the first bit of each byte is the one that does not matter. */
  predicate SameNewtonBits(a: Bits, b: Bits)
    requires |a| == |b| == 64
  {
    forall i :: 0 <= i < 64 && i % 8 != 0 ==> a[i] == b[i]
  }

  lemma NewtonBit(key: Bits, i: nat)
    requires |key| == 64 && i < 64
    ensures NewtonKey(key)[i] == if i == 31 || i == 63 then false else key[i + 1]
  {
  }

  lemma SameNewtonScheduleIff(a: Bits, b: Bits)
    requires |a| == |b| == 64
    ensures NewtonSubKeysOf(a) == NewtonSubKeysOf(b) <==> SameNewtonBits(a, b)
  {
    hide SubKeysOf, NewtonKey;
    SameScheduleIff(NewtonKey(a), NewtonKey(b));
    forall i | 0 <= i < 64
      ensures NewtonKey(a)[i] == if i == 31 || i == 63 then false else a[i + 1]
      ensures NewtonKey(b)[i] == if i == 31 || i == 63 then false else b[i + 1]
    {
      NewtonBit(a, i);
      NewtonBit(b, i);
    }
    if SameKeyBits(NewtonKey(a), NewtonKey(b)) {
      forall i | 0 <= i < 64 && i % 8 != 0 ensures a[i] == b[i] {
        assert NewtonKey(a)[i - 1] == NewtonKey(b)[i - 1];
      }
    }
  }

  // ---- complementary keys -------------------------------------------------------------------------------

  lemma {:induction false} HalfNot(c: Bits, j: nat)
    requires |c| == 28
    ensures HalfAt(Not(c), j) == Not(HalfAt(c, j))
  {
    hide RotationCount;
    if j > 0 {
      HalfNot(c, j - 1);
      var h, n := HalfAt(c, j - 1), RotationCount(j - 1);
      assert Rotate(Not(h), n) == Not(Rotate(h, n));
    }
  }

  lemma SubKeyNot(c: Bits, d: Bits)
    requires |c| == |d| == 28
    ensures SubKey(Not(c), Not(d)) == Not(SubKey(c, d))
  {
    hide PC2;
  }

  lemma {:induction false} ScheduleNot(c: Bits, d: Bits, n: nat)
    requires |c| == |d| == 28
    ensures Schedule(Not(c), Not(d), n) == NotKeys(Schedule(c, d, n))
  {
    hide SubKey, HalfAt, Not;
    if n > 0 {
      ScheduleNot(c, d, n - 1);
      HalfNot(c, n);
      HalfNot(d, n);
      SubKeyNot(HalfAt(c, n), HalfAt(d, n));
      var keys := Schedule(c, d, n);
      assert keys[..n - 1] == Schedule(c, d, n - 1);
    }
  }

  lemma SubKeysNot(key: Bits)
    requires |key| == 64
    ensures SubKeysOf(Not(key)) == NotKeys(SubKeysOf(key))
  {
    hide PC1, Schedule, NotKeys;
    assert FirstHalf(Not(key)) == Not(FirstHalf(key)) && SecondHalf(Not(key)) == Not(SecondHalf(key));
    ScheduleNot(FirstHalf(key), SecondHalf(key), 16);
  }

  /** The complement of a block under the complement of a key is encoded to the complement. */
  lemma ComplementEncoded(key: Bits, b: Bits)
    requires |key| == |b| == 64
    ensures Encoded(SubKeysOf(Not(key)), Not(b)) == Not(Encoded(SubKeysOf(key), b))
  {
    hide SubKeysOf, Encoded;
    SubKeysNot(key);
    EncodedNot(SubKeysOf(key), b);
  }

  /** The same holds of the Newton variant: the zero bits it shifts in are never taken. */
  lemma NewtonComplementEncoded(key: Bits, b: Bits)
    requires |key| == |b| == 64
    ensures Encoded(NewtonSubKeysOf(Not(key)), Not(b)) == Not(Encoded(NewtonSubKeysOf(key), b))
  {
    hide SubKeysOf, Encoded, NewtonKey;
    var n, m := NewtonKey(Not(key)), Not(NewtonKey(key));
    forall i | 0 <= i < 64 && i % 8 != 7 ensures n[i] == m[i] {
      NewtonBit(Not(key), i);
      NewtonBit(key, i);
    }
    SameScheduleIff(n, m);
    ComplementEncoded(NewtonKey(key), b);
  }

  // ---- weak keys ------------------------------------------------------------------------------------------

  predicate Constant(c: Bits) {
    forall i, j :: 0 <= i < j < |c| ==> c[i] == c[j]
  }

  lemma {:induction false} ConstantHalf(c: Bits, j: nat)
    requires |c| == 28 && Constant(c)
    ensures HalfAt(c, j) == c
  {
    hide RotationCount;
    if j > 0 {
      ConstantHalf(c, j - 1);
    }
  }

  /** A key with two constant halves has one subkey, and encoding with it twice gives the block back. */
  lemma WeakKey(key: Bits, b: Bits)
    requires |key| == |b| == 64 && Constant(FirstHalf(key)) && Constant(SecondHalf(key))
    ensures forall j :: 0 <= j < 16 ==> SubKeysOf(key)[j] == SubKey(FirstHalf(key), SecondHalf(key))
    ensures Encoded(SubKeysOf(key), Encoded(SubKeysOf(key), b)) == b
  {
    hide SubKey, HalfAt, Encoded, FirstHalf, SecondHalf, Schedule, Constant;
    forall j | 0 <= j < 16 ensures SubKeysOf(key)[j] == SubKey(FirstHalf(key), SecondHalf(key)) {
      ScheduleAt(FirstHalf(key), SecondHalf(key), 16, j);
      ConstantHalf(FirstHalf(key), j + 1);
      ConstantHalf(SecondHalf(key), j + 1);
    }
    EncodedTwice(SubKeysOf(key), b);
  }
}
