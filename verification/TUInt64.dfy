/** The 64-bit integer made of two 32-bit halves, for compilers that have no 64-bit one: its operations are those of
    the naturals modulo 2^64.

    Where the original decides on a carry, a borrow or an overflow, the condition under which it decides rightly is
    stated, and what it does otherwise. */
module TwoWords {
  import opened Bytes
  import opened Modular

  /** The number that two halves stand for. */
  function Number(hi: u32, lo: u32): (n: u64) {
    hi * TWO_32 + lo
  }

  // ---- what the halves do --------------------------------------------------------------------

  function CarryOf(lo: u32, a: u32): u32 {
    if lo > Low32(lo + a) then 1 else 0
  }

  lemma HalvesAdd(hi: u32, lo: u32, ahi: u32, alo: u32)
    ensures Number(Low32(Low32(hi + CarryOf(lo, alo)) + ahi), Low32(lo + alo)) == Wrap(Number(hi, lo) + Number(ahi, alo))
  {
    hide Low32, Wrap;
    Low32Is(lo + alo);
    var c := CarryOf(lo, alo);
    Low32Is(hi + c);
    Low32Is(Low32(hi + c) + ahi);
    WrapIs(Number(hi, lo) + Number(ahi, alo));
  }

  lemma Low32Is(x: int)
    requires -TWO_32 <= x < 2 * TWO_32
    ensures Low32(x) == if x < 0 then x + TWO_32 else if x < TWO_32 then x else x - TWO_32
  {
  }

  /** The borrow test compares the old half with the new one. */
  function BorrowOf(lo: u32, a: u32): u32 {
    if lo < Low32(lo as int - a as int) then 1 else 0
  }

  lemma HalvesSubtract(hi: u32, lo: u32, ahi: u32, alo: u32)
    ensures Number(Low32(Low32(hi as int - BorrowOf(lo, alo) as int) as int - ahi as int), Low32(lo as int - alo as int))
         == Wrap(Number(hi, lo) as int - Number(ahi, alo) as int)
  {
    hide Low32, Wrap;
    Low32Is(lo as int - alo as int);
    var b := BorrowOf(lo, alo);
    Low32Is(hi as int - b as int);
    Low32Is(Low32(hi as int - b as int) as int - ahi as int);
    WrapIs(Number(hi, lo) as int - Number(ahi, alo) as int);
  }

  /** The high half of a number added to itself, which takes the carry before it is doubled. */
  function DoubledHigh(hi: u32, lo: u32): u32 {
    var carried := Low32(hi + CarryOf(lo, lo));
    Low32(carried + carried)
  }

  lemma DoubledAnswer(hi: u32, lo: u32)
    ensures (hi > DoubledHigh(hi, lo)) == (2 * Number(hi, lo) >= TWO_64)
       <==> !(lo >= 0x8000_0000 && (hi == 0x7FFF_FFFF || hi == 0xFFFF_FFFE))
  {
    hide Low32;
    Low32Is(lo + lo);
    Low32Is(hi + 1);
    Low32Is(hi);
    Low32Is(Low32(hi + 1) + Low32(hi + 1));
    Low32Is(hi + hi);
  }

  function Product(a: nat, b: nat): nat {
    a * b
  }

  /** A half shifted left, without what leaves it. */
  function Up(x: u32, n: nat): u32 {
    Low32(x * Power(2, n))
  }

  /** A number shifted right. */
  function Quotient(x: nat, n: nat): nat {
    NotNegative(x, Power(2, n));
    x / Power(2, n)
  }

  function Down(x: u32, n: nat): u32 {
    QuotientSmaller(x, Power(2, n));
    x / Power(2, n)
  }

  class TUInt64 {
    var hi: u32
    var lo: u32

    function Value(): u64
      reads this
    {
      Number(hi, lo)
    }

    constructor (hi: u32, lo: u32)
      ensures Value() == Number(hi, lo) && this.hi == hi && this.lo == lo
    {
      this.hi, this.lo := hi, lo;
    }

    // ---- comparisons ------------------------------------------------------------------------

    predicate AtMost(other: TUInt64)
      reads this, other
      ensures AtMost(other) <==> Value() <= other.Value()
    {
      hi < other.hi || (hi == other.hi && lo <= other.lo)
    }

    predicate AtLeast(other: TUInt64)
      reads this, other
      ensures AtLeast(other) <==> Value() >= other.Value()
    {
      hi > other.hi || (hi == other.hi && lo >= other.lo)
    }

    predicate Equals(other: TUInt64)
      reads this, other
      ensures Equals(other) <==> Value() == other.Value()
    {
      hi == other.hi && lo == other.lo
    }

    predicate Above(word: u32)
      reads this
      ensures Above(word) <==> Value() > word
    {
      hi > 0 || lo > word
    }

    // ---- addition and subtraction --------------------------------------------------------------

    /** Adding to itself, the second half is added after it has taken the carry. */
    method Plus(other: TUInt64)
      modifies this
      ensures other != this ==> Value() == Wrap(old(Value()) + old(other.Value()))
      ensures other == this ==> (Value() == Wrap(2 * old(Value())) <==> old(lo) < 0x8000_0000)
      ensures other == this ==> hi == DoubledHigh(old(hi), old(lo))
    {
      hide Low32, Wrap;
      HalvesAdd(hi, lo, other.hi, other.lo);
      HalvesDoubled(hi, lo);
      var lowBefore := lo;
      lo := Low32(lo + other.lo);
      if lowBefore > lo {
        hi := Low32(hi + 1);
      } else {
        Low32Is(hi);
      }
      hi := Low32(hi + other.hi);
    }

    method PlusWord(word: u32)
      modifies this
      ensures Value() == Wrap(old(Value()) + word)
    {
      hide Low32, Wrap;
      HalvesAdd(hi, lo, 0, word);
      Low32Is(lo + word);
      Low32Is(hi);
      Low32Is(hi + 1);
      lo := Low32(lo + word);
      if word > lo {
        hi := Low32(hi + 1);
      }
      Low32Is(hi);
    }

    method Minus(other: TUInt64)
      modifies this
      ensures other != this ==> Value() == Wrap(old(Value()) as int - old(other.Value()) as int)
      ensures other == this ==> Value() == 0
    {
      hide Low32, Wrap;
      HalvesSubtract(hi, lo, other.hi, other.lo);
      Low32Is(hi);
      Low32Is(0);
      var lowBefore := lo;
      lo := Low32(lo as int - other.lo as int);
      if lowBefore < lo {
        hi := Low32(hi as int - 1);
      }
      hi := Low32(hi as int - other.hi as int);
    }

    /** Subtracting a word borrows when the word is below the difference, which is not when the difference wrapped:
        the result is right exactly when the two agree. */
    method MinusWord(word: u32)
      modifies this
      ensures Value() == Wrap(old(Value()) as int - word as int)
         <==> (if word <= old(lo) then old(lo) <= 2 * word else 2 * word < old(lo) + TWO_32)
    {
      hide Low32, Wrap;
      Low32Is(lo as int - word as int);
      Low32Is(hi as int - 1);
      WrapIs(Number(hi, lo) as int - word as int);
      lo := Low32(lo as int - word as int);
      if word < lo {
        hi := Low32(hi as int - 1);
      }
    }

    /** The sum, and whether it wrapped: the answer is wrong exactly when the other's high half is all ones and the
        low halves carry. Of a number and itself the sum is wrong when the low half carries, and the answer then is
        wrong for two high halves. */
    method AddWithCarry(other: TUInt64) returns (carry: bool)
      modifies this
      ensures other != this ==> Value() == Wrap(old(Value()) + old(other.Value()))
      ensures other != this ==>
                (carry == (old(Value()) + old(other.Value()) >= TWO_64)
                 <==> !(old(other.hi) == 0xFFFF_FFFF && old(lo) + old(other.lo) >= TWO_32))
      ensures other == this ==> (Value() == Wrap(2 * old(Value())) <==> old(lo) < 0x8000_0000)
      ensures other == this ==>
                (carry == (2 * old(Value()) >= TWO_64)
                 <==> !(old(lo) >= 0x8000_0000 && (old(hi) == 0x7FFF_FFFF || old(hi) == 0xFFFF_FFFE)))
    {
      hide Low32, Wrap, DoubledHigh;
      DoubledAnswer(hi, lo);
      Low32Is(lo + other.lo);
      WrapIs(Value() + other.Value());
      HalvesAdd(hi, lo, other.hi, other.lo);
      Low32Is(hi + CarryOf(lo, other.lo));
      Low32Is(Low32(hi + CarryOf(lo, other.lo)) + other.hi);
      var highBefore := hi;
      Plus(other);
      carry := highBefore > hi;
    }

    // ---- shifts by one, with the bit shifted out ------------------------------------------------

    method ShiftRight() returns (bit: bool)
      modifies this
      ensures Value() == old(Value()) / 2 && bit == (old(Value()) % 2 == 1)
    {
      HalvesHalved(hi, lo);
      bit := lo % 2 != 0;
      lo := lo / 2 + if hi % 2 != 0 then 0x8000_0000 else 0;
      hi := hi / 2;
    }

    method ShiftLeft() returns (bit: bool)
      modifies this
      ensures Value() == Wrap(old(Value()) + old(Value())) && bit == (old(Value()) + old(Value()) >= TWO_64)
    {
      hide Low32, Wrap;
      HalvesShifted(hi, lo);
      bit := hi >= 0x8000_0000;
      hi := Low32(hi + hi) + if lo >= 0x8000_0000 then 1 else 0;
      lo := Low32(lo + lo);
    }

    // ---- shifts by any number but zero, which shifts a half by its whole width --------------------

    method ShiftLeftBy(n: nat)
      requires n > 0
      modifies this
      ensures Value() == Wrap(old(Value()) * Power(2, n))
    {
      hide Up, Down, Wrap, Power;
      if n < 32 {
        SmallShift(hi, lo, n);
        hi := Up(hi, n) + Down(lo, 32 - n);
        lo := Up(lo, n);
      } else if n == 32 {
        WordShift(hi, lo);
        hi := lo;
        lo := 0;
      } else if n < 64 {
        LargeShift(hi, lo, n);
        hi := Up(lo, n - 32);
        lo := 0;
      } else {
        WholeShift(hi, lo, n);
        hi := 0;
        lo := 0;
      }
    }

    method ShiftRightBy(n: nat)
      requires n > 0
      modifies this
      ensures Value() == Quotient(old(Value()), n)
    {
      hide Up, Down, Quotient;
      if n < 32 {
        SmallShiftRight(hi, lo, n);
        lo := Down(lo, n) + Up(hi, 32 - n);
        hi := Down(hi, n);
      } else if n == 32 {
        WordShiftRight(hi, lo);
        lo := hi;
        hi := 0;
      } else if n < 64 {
        LargeShiftRight(hi, lo, n);
        lo := Down(hi, n - 32);
        hi := 0;
      } else {
        WholeShiftRight(hi, lo, n);
        hi := 0;
        lo := 0;
      }
    }

    // ---- multiplication ------------------------------------------------------------------------------

    method TimesWord(word: u32)
      modifies this
      ensures Value() == Wrap(Product(old(Value()), word))
    {
      hide Adding, Wrap, Number, Product;
      SmallNumbers();
      var result := new TUInt64(0, 0);
      var right := word;
      ghost var product := Product(Value(), word);
      AddingStarts(Value(), word);
      while right > 0
        invariant fresh(result) && result != this
        invariant Adding(result.Value(), Value(), right, product)
        decreases right
      {
        AddingTaken(result.Value(), Value(), right, product);
        if right % 2 == 1 {
          result.Plus(this);
        }
        right := right / 2;
        var bit := ShiftLeft();
      }
      AddingEnds(result.Value(), Value(), product);
      hi, lo := result.hi, result.lo;
    }

    method Times(other: TUInt64)
      modifies this
      ensures Value() == Wrap(Product(old(Value()), old(other.Value())))
    {
      hide Adding, Wrap, Number, Product;
      SmallNumbers();
      var result := new TUInt64(0, 0);
      var right := new TUInt64(other.hi, other.lo);
      ghost var product := Product(Value(), other.Value());
      AddingStarts(Value(), other.Value());
      while right.Above(0)
        invariant fresh(result) && fresh(right) && result != right && result != this && right != this
        invariant Adding(result.Value(), Value(), right.Value(), product)
        decreases right.Value()
      {
        AddingTaken(result.Value(), Value(), right.Value(), product);
        var bit := right.ShiftRight();
        if bit {
          result.Plus(this);
        }
        var out := ShiftLeft();
      }
      AddingEnds(result.Value(), Value(), product);
      hi, lo := result.hi, result.lo;
    }

    // ---- division ---------------------------------------------------------------------------------

    /** Doubles the divisor while it is at most the dividend, or until that overflows; how often. */
    static method CountDoublings(divisor: TUInt64, dividend: TUInt64) returns (n: nat)
      requires 0 < 2 * divisor.Value() <= dividend.Value()
      ensures 0 < n < 64 && divisor.Value() * Power(2, n) <= dividend.Value() < divisor.Value() * Power(2, n + 1)
    {
      hide Wrap, Power;
      var doubled := new TUInt64(divisor.hi, divisor.lo);
      ghost var d := divisor.Value();
      n := 0;
      NoDoubling(d);
      while doubled.AtMost(dividend)
        invariant fresh(doubled)
        invariant doubled.Value() == d * Power(2, n)
        invariant n > 0 ==> d * Power(2, n - 1) <= dividend.Value()
        invariant n == 0 ==> doubled.Value() == d
        decreases dividend.Value() - doubled.Value()
      {
        DoublingNext(d, n, doubled.Value());
        n := n + 1;
        var overflow := doubled.ShiftLeft();
        if overflow {
          DoublingsFit(d, n - 1, dividend.Value());
          return n - 1;
        }
        WrapIs(d * Power(2, n));
      }
      OneDoubling(d, n);
      DoublingsFit(d, n - 1, dividend.Value());
      n := n - 1;
    }

    /** One digit of the quotient. */
    static method DivideDigit(quotient: TUInt64, remainder: TUInt64, shifted: TUInt64, ghost x: u64, ghost d: nat,
                              ghost i: nat)
      requires quotient != remainder && remainder != shifted && shifted != quotient && d > 0 && i > 0
      requires Dividing(x, d, i, quotient.Value(), remainder.Value()) && Doubled(shifted.Value(), d, i - 1)
      modifies quotient, remainder, shifted
      ensures Dividing(x, d, i - 1, quotient.Value(), remainder.Value())
      ensures i > 1 ==> Doubled(shifted.Value(), d, i - 2)
    {
      hide Wrap, Number, Dividing, Power;
      DigitTaken(x, d, i, quotient.Value(), remainder.Value(), shifted.Value());
      HalfDoubling(shifted.Value(), d, i);
      var out := quotient.ShiftLeft();
      if remainder.AtLeast(shifted) {
        remainder.Minus(shifted);
        quotient.SetLowestBit();
      }
      var bit := shifted.ShiftRight();
    }

    /** Schoolbook division in base 2. The source shifts the divisor by as many places as there are doublings, which
        must not be zero. */
    static method EuclideanDivision(quotient: TUInt64, remainder: TUInt64, dividend: TUInt64, divisor: TUInt64)
      requires quotient != remainder && quotient !in {dividend, divisor} && remainder !in {dividend, divisor}
      requires divisor.Value() > 0
      requires dividend.Value() <= divisor.Value() || 2 * divisor.Value() <= dividend.Value()
      modifies quotient, remainder
      ensures dividend.Value() == quotient.Value() * divisor.Value() + remainder.Value()
      ensures remainder.Value() < divisor.Value()
    {
      hide Wrap, Power, Number, Dividing, Doubled;
      SmallNumbers();
      if divisor.Equals(dividend) {
        quotient.hi, quotient.lo := 0, 1;
        remainder.hi, remainder.lo := 0, 0;
        return;
      }
      if !divisor.AtMost(dividend) {
        quotient.hi, quotient.lo := 0, 0;
        remainder.hi, remainder.lo := dividend.hi, dividend.lo;
        return;
      }
      var n := CountDoublings(divisor, dividend);
      ghost var d, x := divisor.Value(), dividend.Value();
      var shifted := new TUInt64(divisor.hi, divisor.lo);
      shifted.ShiftLeftBy(n);
      DividingStarts(x, d, n, shifted.Value());
      remainder.hi, remainder.lo := dividend.hi, dividend.lo;
      quotient.hi, quotient.lo := 0, 0;
      var i := n + 1;
      while i > 0
        invariant fresh(shifted) && divisor.Value() == d && dividend.Value() == x
        invariant Dividing(x, d, i, quotient.Value(), remainder.Value())
        invariant i > 0 ==> Doubled(shifted.Value(), d, i - 1)
        decreases i
      {
        DivideDigit(quotient, remainder, shifted, x, d, i);
        i := i - 1;
      }
      DividingEnds(x, d, quotient.Value(), remainder.Value());
    }

    /** Or with 1, of an even number. */
    method SetLowestBit()
      requires Value() % 2 == 0
      modifies this
      ensures Value() == old(Value()) + 1
    {
      EvenHalf(hi, lo);
      lo := lo + 1;
    }
  }

  // ---- shifting -----------------------------------------------------------------------------------------

  lemma HalvesHalved(hi: u32, lo: u32)
    ensures Number(hi, lo) / 2 == hi / 2 * TWO_32 + lo / 2 + (if hi % 2 != 0 then 0x8000_0000 else 0)
    ensures lo % 2 == Number(hi, lo) % 2
  {
  }

  lemma HalvesShifted(hi: u32, lo: u32)
    ensures Low32(hi + hi) + (if lo >= 0x8000_0000 then 1 else 0) < TWO_32
    ensures (Low32(hi + hi) + (if lo >= 0x8000_0000 then 1 else 0)) * TWO_32 + Low32(lo + lo)
         == Wrap(Number(hi, lo) + Number(hi, lo))
    ensures hi >= 0x8000_0000 <==> Number(hi, lo) + Number(hi, lo) >= TWO_64
  {
    hide Low32, Wrap;
    EvenLow(hi);
    Low32Is(hi + hi);
    Low32Is(lo + lo);
    WrapIs(Number(hi, lo) + Number(hi, lo));
  }

  lemma EvenLow(hi: u32)
    ensures Low32(hi + hi) % 2 == 0 && Low32(hi + hi) <= 0xFFFF_FFFE
  {
  }

  lemma {:induction false} PowerSum(base: nat, m: nat, n: nat)
    ensures Power(base, m + n) == Power(base, m) * Power(base, n)
  {
    if m > 0 {
      PowerSum(base, m - 1, n);
      TimesAssoc(base, Power(base, m - 1), Power(base, n));
    } else {
      TimesAssoc(1, 1, Power(base, n));
    }
  }

  lemma TimesAssoc(a: nat, b: nat, c: nat)
    ensures a * (b * c) == (a * b) * c && 1 * c == c
  {
  }

  lemma PowerPositive(n: nat)
    ensures Power(2, n) >= 1
  {
  }

  lemma Powers32()
    ensures Power(2, 32) == TWO_32 && Power(2, 64) == TWO_64
  {
    hide Power;
    Power8();
    PowerSum(2, 8, 8);
    PowerSum(2, 16, 16);
    PowerSum(2, 32, 32);
  }

  lemma Power8()
    ensures Power(2, 8) == 0x100
  {
    assert Power(2, 4) == 0x10;
  }

  /** A half shifted by p = 2^n, where q = 2^(32 - n): what goes out at the top is its quotient by q. */
  lemma HalfSplit(lo: u32, p: nat, q: nat)
    requires p > 0 && q > 0 && p * q == TWO_32
    ensures lo * p == lo / q * TWO_32 + lo % q * p && 0 <= lo % q * p < TWO_32 && 0 <= lo / q < p
  {
    var h, r := lo / q, lo % q;
    Regrouped(lo, h, r, p, q);
    ProductBelow(r, p, q);
    FactorBelow(h, p, q, lo);
  }

  lemma Regrouped(lo: nat, h: nat, r: nat, p: nat, q: nat)
    requires p * q == TWO_32 && lo == h * q + r
    ensures lo * p == h * TWO_32 + r * p
  {
    assert (h * q + r) * p == h * (p * q) + r * p;
  }

  lemma ProductBelow(r: nat, p: nat, q: nat)
    requires r < q && p > 0
    ensures 0 <= r * p < p * q
  {
    TimesMonotone(r, q - 1, p);
    assert (q - 1) * p == p * q - p;
  }

  lemma FactorBelow(h: nat, p: nat, q: nat, x: nat)
    requires h * q <= x < p * q && q > 0
    ensures h < p
  {
    if h >= p {
      TimesMonotone(p, h, q);
    }
  }

  lemma TimesMonotone(a: nat, b: nat, c: nat)
    requires a <= b
    ensures a * c <= b * c
  {
  }

  /** The top half keeps a multiple of p, so what comes in below p does not overlap. */
  lemma TopSplit(hi: u32, p: nat, q: nat)
    requires p > 0 && q > 0 && p * q == TWO_32
    ensures hi * p == hi / q * TWO_32 + hi % q * p && hi % q * p + p <= TWO_32
  {
    HalfSplit(hi, p, q);
    var r := hi % q;
    TimesMonotone(r + 1, q, p);
  }

  lemma SmallShift(hi: u32, lo: u32, n: nat)
    requires 0 < n < 32
    ensures Up(hi, n) + Down(lo, 32 - n) < TWO_32
    ensures (Up(hi, n) + Down(lo, 32 - n)) * TWO_32 + Up(lo, n) == Wrap(Number(hi, lo) * Power(2, n))
  {
    hide Low32, Wrap, Power;
    var p, q := Power(2, n), Power(2, 32 - n);
    PowerPositive(n);
    PowerPositive(32 - n);
    Powers32();
    PowerSum(2, n, 32 - n);
    HalfSplit(lo, p, q);
    TopSplit(hi, p, q);
    LowOf(hi * p, hi / q, hi % q * p);
    LowOf(lo * p, lo / q, lo % q * p);
    WrapOf(Number(hi, lo) * p, hi / q, (hi % q * p + lo / q) * TWO_32 + lo % q * p, hi, lo, p);
  }

  lemma LowOf(x: nat, k: nat, r: nat)
    requires x == k * TWO_32 + r && r < TWO_32
    ensures Low32(x) == r
  {
  }

  lemma WrapOf(x: nat, k: nat, r: nat, hi: u32, lo: u32, p: nat)
    requires x == Number(hi, lo) * p && hi * p * TWO_32 + lo * p == k * TWO_64 + r && r < TWO_64
    ensures Wrap(x) == r
  {
    assert (hi * TWO_32 + lo) * p == hi * p * TWO_32 + lo * p;
  }

  lemma WordShift(hi: u32, lo: u32)
    ensures lo * TWO_32 == Wrap(Number(hi, lo) * Power(2, 32))
  {
    hide Power, Wrap;
    Powers32();
    WrapOf(Number(hi, lo) * TWO_32, hi, lo * TWO_32, hi, lo, TWO_32);
  }

  lemma LargeShift(hi: u32, lo: u32, n: nat)
    requires 32 < n < 64
    ensures Up(lo, n - 32) * TWO_32 == Wrap(Number(hi, lo) * Power(2, n))
  {
    hide Power, Wrap, Low32;
    var p := Power(2, n - 32);
    Powers32();
    PowerSum(2, n - 32, 32);
    var k, r := lo * p / TWO_32, lo * p % TWO_32;
    LowOf(lo * p, k, r);
    var whole := p * TWO_32;
    assert hi * whole * TWO_32 + lo * whole == (hi * p + k) * TWO_64 + r * TWO_32 by {
      assert hi * whole * TWO_32 == hi * p * TWO_64;
      assert lo * whole == (lo * p) * TWO_32 == (k * TWO_32 + r) * TWO_32;
    }
    WrapOf(Number(hi, lo) * whole, hi * p + k, r * TWO_32, hi, lo, whole);
  }

  lemma {:induction false} WholeShift(hi: u32, lo: u32, n: nat)
    requires n >= 64
    ensures 0 == Wrap(Number(hi, lo) * Power(2, n))
  {
    hide Power;
    Powers32();
    PowerSum(2, 64, n - 64);
    var k := Number(hi, lo) * Power(2, n - 64);
    assert Number(hi, lo) * (TWO_64 * Power(2, n - 64)) == k * TWO_64;
    MultipleModulo(0, k, TWO_64);
  }

  lemma SmallShiftRight(hi: u32, lo: u32, n: nat)
    requires 0 < n < 32
    ensures Down(lo, n) + Up(hi, 32 - n) < TWO_32
    ensures Down(hi, n) * TWO_32 + (Down(lo, n) + Up(hi, 32 - n)) == Quotient(Number(hi, lo), n)
  {
    hide Low32, Power;
    var p, q := Power(2, n), Power(2, 32 - n);
    PowerPositive(n);
    PowerPositive(32 - n);
    Powers32();
    PowerSum(2, n, 32 - n);
    HalfSplit(hi, q, p);
    TopSplit(hi, q, p);
    HalfSplit(lo, q, p);
    LowOf(hi * q, hi / p, hi % p * q);
    QuotientSmaller(hi, p);
    assert Number(hi, lo) == (hi * q + lo / p) * p + lo % p by {
      assert hi * TWO_32 == hi * q * p;
      assert (hi * q + lo / p) * p == hi * q * p + lo / p * p;
    }
    Remainder(Number(hi, lo), hi * q + lo / p, lo % p, p);
  }

  lemma QuotientSmaller(x: nat, p: nat)
    requires p > 0
    ensures 0 <= x / p <= x
  {
    var q := x / p;
    assert x == q * p + x % p;
    NotNegative(x, p);
    TimesMonotone(1, p, q);
  }

  lemma NotNegative(x: nat, p: nat)
    requires p > 0
    ensures x / p >= 0
  {
  }

  lemma WordShiftRight(hi: u32, lo: u32)
    ensures hi as nat == Quotient(Number(hi, lo), 32)
  {
    hide Power;
    Powers32();
    Remainder(Number(hi, lo), hi, lo, TWO_32);
  }

  lemma LargeShiftRight(hi: u32, lo: u32, n: nat)
    requires 32 < n < 64
    ensures Down(hi, n - 32) == Quotient(Number(hi, lo), n)
  {
    hide Power;
    var p := Power(2, n - 32);
    PowerPositive(n - 32);
    Powers32();
    PowerSum(2, n - 32, 32);
    QuotientSmaller(hi, p);
    var q, r := hi / p, hi % p;
    TimesMonotone(r + 1, p, TWO_32);
    assert Number(hi, lo) == q * (p * TWO_32) + (r * TWO_32 + lo) by {
      assert hi == q * p + r;
      assert (q * p + r) * TWO_32 == q * (p * TWO_32) + r * TWO_32;
    }
    Remainder(Number(hi, lo), q, r * TWO_32 + lo, p * TWO_32);
  }

  lemma WholeShiftRight(hi: u32, lo: u32, n: nat)
    requires n >= 64
    ensures 0 == Quotient(Number(hi, lo), n)
  {
    hide Power;
    Powers32();
    PowerSum(2, 64, n - 64);
    PowerPositive(n - 64);
    TimesMonotone(1, Power(2, n - 64), TWO_64);
    Remainder(Number(hi, lo), 0, Number(hi, lo), Power(2, n));
  }

  lemma SmallNumbers()
    ensures Number(0, 0) == 0 && Number(0, 1) == 1
  {
  }

  // ---- dividing ---------------------------------------------------------------------------------------------

  lemma NoDoubling(d: nat)
    ensures d == d * Power(2, 0)
  {
  }

  lemma OneDoubling(d: nat, n: nat)
    ensures n == 1 ==> d * Power(2, n) == 2 * d
  {
    assert Power(2, 1) == 2 * Power(2, 0);
  }

  lemma DoublingNext(d: nat, n: nat, x: nat)
    requires x == d * Power(2, n)
    ensures x + x == d * Power(2, n + 1)
  {
    assert d * (2 * Power(2, n)) == 2 * (d * Power(2, n));
  }

  lemma {:induction false} PowerGrows(m: nat, n: nat)
    requires m <= n
    ensures Power(2, m) <= Power(2, n)
  {
    if m < n {
      PowerGrows(m, n - 1);
    }
  }

  lemma DoublingsFit(d: nat, n: int, x: u64)
    requires d > 0 && n >= 0 && d * Power(2, n) <= x
    ensures n < 64
  {
    hide Power;
    Powers32();
    if n >= 64 {
      PowerGrows(64, n);
      TimesMonotone(1, d, Power(2, n));
    }
  }

  /** With i digits of the quotient to come, what is left is below the divisor doubled i times. */
  predicate Dividing(x: nat, d: nat, i: nat, q: nat, r: nat) {
    x == q * (d * Power(2, i)) + r && r < d * Power(2, i)
  }

  /** The divisor doubled n times. */
  predicate Doubled(v: nat, d: nat, n: nat) {
    v == d * Power(2, n)
  }

  lemma DividingStarts(x: u64, d: nat, n: nat, shifted: u64)
    requires d * Power(2, n) <= x < d * Power(2, n + 1) && shifted == Wrap(d * Power(2, n))
    ensures Dividing(x, d, n + 1, 0, x) && Doubled(shifted, d, n)
  {
    hide Power, Wrap;
    WrapIs(d * Power(2, n));
    assert 0 * (d * Power(2, n + 1)) == 0;
  }

  lemma DividingEnds(x: nat, d: nat, q: nat, r: nat)
    requires Dividing(x, d, 0, q, r)
    ensures x == q * d + r && r < d
  {
    assert d * Power(2, 0) == d;
  }

  lemma DigitTaken(x: u64, d: nat, i: nat, q: u64, r: u64, half: u64)
    requires i > 0 && d > 0 && Dividing(x, d, i, q, r) && Doubled(half, d, i - 1)
    ensures Wrap(q + q) == 2 * q && (2 * q) % 2 == 0
    ensures r >= half ==> Dividing(x, d, i - 1, 2 * q + 1, r - half) && Wrap(r - half) == r - half
    ensures r < half ==> Dividing(x, d, i - 1, 2 * q, r)
  {
    hide Power, Wrap;
    PowerNext(2, i - 1);
    TimesMonotone(1, d, Power(2, i - 1));
    assert d * Power(2, i) == 2 * half by {
      assert d * (2 * Power(2, i - 1)) == 2 * (d * Power(2, i - 1));
    }
    assert q * (2 * half) == 2 * q * half;
    TimesMonotone(1, half, 2 * q);
    WrapIs(q + q);
    if r >= half {
      WrapIs(r - half);
      assert (2 * q + 1) * half == 2 * q * half + half;
    }
  }

  lemma HalfDoubling(v: nat, d: nat, i: nat)
    requires i > 0 && Doubled(v, d, i - 1)
    ensures i > 1 ==> Doubled(v / 2, d, i - 2)
  {
    if i > 1 {
      PowerNext(2, i - 2);
      var p := Power(2, i - 2);
      assert d * (2 * p) == 2 * (d * p);
    }
  }

  lemma EvenHalf(hi: u32, lo: u32)
    requires Number(hi, lo) % 2 == 0
    ensures lo % 2 == 0 && lo + 1 < TWO_32
  {
  }

  // ---- the peasant's multiplication, wrapping ------------------------------------------------------------

  predicate Adding(result: u64, left: u64, right: nat, product: nat) {
    Congruent(result + left * right, product, TWO_64)
  }

  lemma AddingStarts(left: u64, right: nat)
    ensures Adding(0, left, right, Product(left, right))
  {
  }

  lemma AddingTaken(result: u64, left: u64, right: nat, product: nat)
    requires Adding(result, left, right, product)
    ensures Adding(if right % 2 == 1 then Wrap(result + left) else result, Wrap(left + left), right / 2, product)
  {
    hide Congruent;
    var sum: u64 := if right % 2 == 1 then Wrap(result + left) else result;
    var double := Wrap(left + left);
    TurnKeeps(result, left, right, sum, double, TWO_64);
    CongruentTrans(sum + double * (right / 2), result + left * right, product, TWO_64);
  }

  lemma AddingEnds(result: u64, left: u64, product: nat)
    requires Adding(result, left, 0, product)
    ensures result == Wrap(product)
  {
    Remainder(result, 0, result, TWO_64);
  }

  lemma HalvesDoubled(hi: u32, lo: u32)
    ensures Number(Low32(2 * Low32(hi + CarryOf(lo, lo))), Low32(lo + lo)) == Wrap(2 * Number(hi, lo)) <==> lo < 0x8000_0000
  {
    hide Low32, Wrap;
    Low32Is(lo + lo);
    Low32Is(hi + CarryOf(lo, lo));
    Low32Is(2 * Low32(hi + CarryOf(lo, lo)));
    WrapIs(2 * Number(hi, lo));
  }

  // ---- where the code goes wrong ---------------------------------------------------------------------

  /** 0x8000_0000 added to itself is not 0x1_0000_0000. */
  method DoubledWrongly() returns (sum: u64)
    ensures sum != Wrap(0x8000_0000 + 0x8000_0000)
  {
    var n := new TUInt64(0, 0x8000_0000);
    n.Plus(n);
    sum := n.Value();
  }

  /** 0x1_0000_0005 less 1 borrows though 5 is more than 1. */
  method BorrowedWrongly() returns (difference: u64)
    ensures difference != Wrap(0x1_0000_0005 - 1)
  {
    var n := new TUInt64(1, 5);
    n.MinusWord(1);
    difference := n.Value();
  }

  /** The sum of these wraps and is answered not to. */
  method CarriedWrongly() returns (carry: bool)
    ensures carry != (Number(0, 1) + Number(0xFFFF_FFFF, 0xFFFF_FFFF) >= TWO_64)
  {
    var n := new TUInt64(0, 1);
    var other := new TUInt64(0xFFFF_FFFF, 0xFFFF_FFFF);
    carry := n.AddWithCarry(other);
  }
}
