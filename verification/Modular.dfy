/** Multiplication and exponentiation modulo a 64-bit number on native 64-bit words: neither the sum nor the doubling
    needs a wider word. */
module Modular {
  const TWO_64: int := 0x1_0000_0000_0000_0000

  type u64 = x: int | 0 <= x < 0x1_0000_0000_0000_0000

  /** What a 64-bit word keeps of a number. */
  function Wrap(x: int): u64 {
    x % TWO_64
  }

  function Power(base: nat, exponent: nat): (p: nat)
    ensures base > 0 ==> p > 0
  {
    if exponent == 0 then 1 else base * Power(base, exponent - 1)
  }

  /** How many bits a number has: as often it can be halved before it is zero. */
  function BitLength(n: nat): (bits: nat) {
    if n == 0 then 0 else 1 + BitLength(n / 2)
  }

  lemma {:induction false} BitLengthIff(n: nat, bits: nat)
    ensures BitLength(n) <= bits <==> n < Power(2, bits)
  {
    if n > 0 && bits > 0 {
      BitLengthIff(n / 2, bits - 1);
    }
  }

  lemma WordLength(n: u64)
    ensures BitLength(n) <= 64
  {
    hide BitLength, Power;
    BitLengthIff(n, 64);
    TwoTo64();
  }

  lemma TwoTo64()
    ensures Power(2, 64) == TWO_64
  {
    PowerSquare(2, 32);
    PowerSquare(4, 16);
    PowerSquare(0x10, 8);
    PowerSquare(0x100, 4);
    PowerSquare(0x1_0000, 2);
    PowerSquare(0x1_0000_0000, 1);
    assert Power(TWO_64, 1) == TWO_64;
  }

  // ---- arithmetic modulo m ----------------------------------------------------------------

  /** Equal modulo m. */
  predicate Congruent(a: int, b: int, m: nat)
    requires m > 0
  {
    a % m == b % m
  }

  lemma CongruentMultiple(a: int, b: int, k: int, m: nat)
    requires m > 0 && a == b + k * m
    ensures Congruent(a, b, m)
  {
    MultipleModulo(b, k, m);
  }

  lemma MultipleModulo(b: int, k: int, m: nat)
    requires m > 0
    ensures (b + k * m) % m == b % m
  {
    var q, r := b / m, b % m;
    assert b + k * m == (q + k) * m + r;
    Remainder(b + k * m, q + k, r, m);
  }

  lemma Remainder(x: int, q: int, r: nat, m: nat)
    requires m > 0 && x == q * m + r && r < m
    ensures x % m == r && x / m == q
  {
    var d := x / m - q;
    assert x == (x / m) * m + x % m;
    assert d * m == r - x % m;
    assert -1 < d < 1;
  }

  lemma {:induction false} CongruentAdd(a: int, b: int, c: int, d: int, m: nat)
    requires m > 0 && Congruent(a, b, m) && Congruent(c, d, m)
    ensures Congruent(a + c, b + d, m)
  {
    var k, l := a / m - b / m, c / m - d / m;
    assert a - b == k * m;
    assert c - d == l * m;
    assert a + c == b + d + (k + l) * m;
    CongruentMultiple(a + c, b + d, k + l, m);
  }

  lemma CongruentTimes(a: int, b: int, c: int, m: nat)
    requires m > 0 && Congruent(a, b, m)
    ensures Congruent(a * c, b * c, m)
  {
    var k := a / m - b / m;
    assert a - b == k * m;
    assert a * c == b * c + (k * c) * m;
    CongruentMultiple(a * c, b * c, k * c, m);
  }

  lemma ModuloCongruent(a: int, m: nat)
    requires m > 0
    ensures Congruent(a % m, a, m)
  {
    CongruentMultiple(a, a % m, a / m, m);
  }

  // ---- the steps of the loops -----------------------------------------------------------------

  /** The sum of two residues, as the code computes it: the wrapped sum, less the modulus if the sum wrapped or
      reached it. */
  function AddResidues(x: u64, y: u64, m: u64): u64 {
    var sum := Wrap(x + y);
    if sum < y || sum >= m then Wrap(sum - m) else sum
  }

  lemma WrapIs(x: int)
    requires -TWO_64 <= x < 2 * TWO_64
    ensures Wrap(x) == if x < 0 then x + TWO_64 else if x < TWO_64 then x else x - TWO_64
  {
  }

  lemma AddResiduesIs(x: u64, y: u64, m: u64)
    requires x < m && y < m
    ensures AddResidues(x, y, m) == (x + y) % m
  {
    hide Wrap;
    WrapIs(x + y);
    WrapIs(Wrap(x + y) - m);
    if x + y < m {
      Remainder(x + y, 0, x + y, m);
    } else {
      Remainder(x + y, 1, x + y - m, m);
    }
  }

  /** The double of a residue: the top bit says whether the shift wraps. */
  function DoubleResidue(x: u64, m: u64): u64 {
    var carry := x >= 0x8000_0000_0000_0000;
    var double := Wrap(x + x);
    if carry || double >= m then Wrap(double - m) else double
  }

  lemma DoubleResidueIs(x: u64, m: u64)
    requires x < m
    ensures DoubleResidue(x, m) == (x + x) % m
  {
    hide Wrap;
    WrapIs(x + x);
    WrapIs(Wrap(x + x) - m);
    if x + x < m {
      Remainder(x + x, 0, x + x, m);
    } else {
      Remainder(x + x, 1, x + x - m, m);
    }
  }

  /** One turn keeps the result plus the product still to be added, modulo m. */
  lemma TurnKeeps(result: nat, left: nat, right: nat, sum: nat, double: nat, m: nat)
    requires result < m && left < m
    requires sum == (if right % 2 == 1 then (result + left) % m else result) && double == (left + left) % m
    ensures Congruent(sum + double * (right / 2), result + left * right, m)
  {
    var half, odd := right / 2, right % 2;
    ModuloCongruent(left + left, m);
    CongruentTimes(double, left + left, half, m);
    ModuloCongruent(result + left, m);
    ModuloCongruent(result, m);
    CongruentAdd(sum, result + odd * left, double * half, (left + left) * half, m);
    Halves(left, right, half, odd);
    assert result + odd * left + (left + left) * half == result + left * right;
  }

  lemma Halves(left: int, right: nat, half: nat, odd: nat)
    requires right == 2 * half + odd
    ensures odd * left + (left + left) * half == left * right
  {
    assert left * right == left * (2 * half + odd);
  }

  /** What the loop keeps: residues, and the result plus the product still to be added. */
  predicate Turning(result: u64, left: u64, right: u64, product: nat, m: u64)
    requires m > 0
  {
    result < m && left < m && Congruent(result + left * right, product, m)
  }

  lemma TurnTaken(result: u64, left: u64, right: u64, product: nat, m: u64)
    requires m > 0 && Turning(result, left, right, product, m)
    ensures Turning(if right % 2 == 1 then AddResidues(result, left, m) else result, DoubleResidue(left, m), right / 2,
                    product, m)
  {
    hide Congruent, AddResidues, DoubleResidue;
    AddResiduesIs(result, left, m);
    DoubleResidueIs(left, m);
    var sum: u64 := if right % 2 == 1 then AddResidues(result, left, m) else result;
    var double := DoubleResidue(left, m);
    TurnKeeps(result, left, right, sum, double, m);
    var before, after := result + left * right, sum + double * (right / 2);
    CongruentTrans(after, before, product, m);
  }

  /** The product of two numbers modulo a third, whatever the three are, in a turn for each bit of the second one's
      residue. */
  method MultModulo(one: u64, two: u64, m: u64) returns (result: u64, ghost turns: nat)
    requires m > 0
    ensures result == one * two % m
    ensures turns == BitLength(two % m) <= 64
  {
    hide Congruent, Turning, AddResidues, DoubleResidue;
    ReducedProduct(one, two, m);
    var left: u64, right: u64 := one % m, two % m;
    result := 0;
    turns := 0;
    ghost var product := one * two;
    WordLength(right);
    TurnStart(left, right, product, m);
    while right > 0
      invariant Turning(result, left, right, product, m)
      invariant turns + BitLength(right) == BitLength(two % m)
      decreases BitLength(right)
    {
      TurnTaken(result, left, right, product, m);
      var carry := right % 2 == 1;
      right := right / 2;
      if carry {
        result := AddResidues(result, left, m);
      }
      left := DoubleResidue(left, m);
      turns := turns + 1;
    }
    TurnEnd(result, left, product, m);
  }

  lemma TurnStart(left: u64, right: u64, product: nat, m: u64)
    requires m > 0 && left < m && Congruent(left * right, product, m)
    ensures Turning(0, left, right, product, m)
  {
  }

  lemma TurnEnd(result: u64, left: u64, product: nat, m: u64)
    requires m > 0 && Turning(result, left, 0, product, m)
    ensures result == product % m
  {
    Remainder(result, 0, result, m);
  }

  lemma CongruentTrans(a: int, b: int, c: int, m: nat)
    requires m > 0 && Congruent(a, b, m) && Congruent(b, c, m)
    ensures Congruent(a, c, m)
  {
  }

  lemma ReducedProduct(one: nat, two: nat, m: nat)
    requires m > 0
    ensures Congruent((one % m) * (two % m), one * two, m)
    ensures 0 <= one % m < m && 0 <= two % m < m
  {
    ModuloCongruent(one, m);
    ModuloCongruent(two, m);
    CongruentTimes(one % m, one, two % m, m);
    CongruentTimes(two % m, two, one, m);
    assert (two % m) * one == one * (two % m) && two * one == one * two;
  }

  // ---- powers -----------------------------------------------------------------------------------

  lemma {:induction false} PowerSquare(base: nat, half: nat)
    ensures Power(base, 2 * half) == Power(base * base, half)
  {
    if half > 0 {
      PowerSquare(base, half - 1);
      PowerTwoMore(base, 2 * (half - 1));
    }
  }

  lemma PowerTwoMore(base: nat, e: nat)
    ensures Power(base, e + 2) == base * base * Power(base, e)
  {
    assert Power(base, e + 2) == base * Power(base, e + 1);
    assert base * (base * Power(base, e)) == base * base * Power(base, e);
  }

  lemma {:induction false} PowerCongruent(a: nat, b: nat, e: nat, m: nat)
    requires m > 0 && Congruent(a, b, m)
    ensures Congruent(Power(a, e), Power(b, e), m)
  {
    hide Congruent;
    if e == 0 {
      Reflexive(1, m);
    } else {
      PowerCongruent(a, b, e - 1, m);
      var p, q := Power(a, e - 1), Power(b, e - 1);
      ProductCongruent(a, b, p, q, m);
    }
  }

  lemma Reflexive(a: int, m: nat)
    requires m > 0
    ensures Congruent(a, a, m)
  {
  }

  lemma ProductCongruent(a: int, b: int, c: int, d: int, m: nat)
    requires m > 0 && Congruent(a, b, m) && Congruent(c, d, m)
    ensures Congruent(a * c, b * d, m)
  {
    CongruentTimes(a, b, c, m);
    CongruentTimes(c, d, b, m);
    assert c * b == b * c && d * b == b * d;
  }

  /** What the loop keeps: the result times what is left of the power. */
  predicate Raising(result: u64, base: u64, exponent: u64, target: nat, m: u64)
    requires m > 0
  {
    base < m && Congruent(result * Power(base, exponent), target, m)
  }

  lemma RaiseTaken(result: u64, base: u64, exponent: u64, next: u64, square: u64, target: nat, m: u64)
    requires m > 0 && exponent > 0 && Raising(result, base, exponent, target, m)
    requires next == (if exponent % 2 == 1 then base * result % m else result) && square == base * base % m
    ensures Raising(next, square, exponent / 2, target, m)
  {
    hide Congruent, Power;
    var half := exponent / 2;
    var p, q := Power(square, half), Power(base * base, half);
    ModuloCongruent(base * base, m);
    PowerCongruent(square, base * base, half, m);
    PowerSquare(base, half);
    var whole := if exponent % 2 == 1 then base * result else result;
    ModuloCongruent(base * result, m);
    Reflexive(result, m);
    ProductCongruent(next, whole, p, q, m);
    if exponent % 2 == 1 {
      PowerNext(base, 2 * half);
      Regroup(base, result, q);
    }
    CongruentTrans(next * p, result * Power(base, exponent), target, m);
  }

  lemma PowerNext(base: nat, e: nat)
    ensures Power(base, e + 1) == base * Power(base, e)
  {
  }

  lemma Regroup(a: int, b: int, c: int)
    ensures (a * b) * c == b * (a * c)
  {
  }

  lemma {:induction false} RaiseStart(base: u64, square: u64, exponent: u64, target: nat, m: u64)
    requires m > 0 && square == base % m && target == Power(base, exponent)
    ensures Raising(1, square, exponent, target, m)
  {
    ModuloCongruent(base, m);
    PowerCongruent(square, base, exponent, m);
    assert 1 * Power(square, exponent) == Power(square, exponent);
  }

  lemma RaiseEnd(result: u64, square: u64, target: nat, m: u64)
    requires m > 0 && Raising(result, square, 0, target, m)
    ensures result % m == target % m && (result < m ==> result == target % m)
  {
    assert result * Power(square, 0) == result;
    if result < m {
      Remainder(result, 0, result, m);
    }
  }

  /** The power of a number modulo another, except when the exponent is 0 and the modulus is 1: the result is then 1,
      which is no residue. There is a turn for each bit of the exponent. */
  method ExpModulo(base: u64, exponent: u64, m: u64) returns (result: u64, ghost turns: nat)
    requires m > 0
    ensures result == Power(base, exponent) % m <==> !(exponent == 0 && m == 1)
    ensures exponent == 0 && m == 1 ==> result == 1
    ensures turns == BitLength(exponent) <= 64
  {
    hide Raising, Power;
    ghost var target := Power(base, exponent);
    var square: u64 := base % m;
    var left := exponent;
    result := 1;
    turns := 0;
    RaiseStart(base, square, exponent, target, m);
    WordLength(exponent);
    while left != 0
      invariant Raising(result, square, left, target, m)
      invariant exponent == 0 ==> result == 1
      invariant result < m || (m == 1 && result == 1 && (exponent == 0 || left > 0))
      invariant turns + BitLength(left) == BitLength(exponent)
      decreases BitLength(left)
    {
      ghost var before, squareBefore, inner := result, square, 0;
      var carry := left % 2 == 1;
      if carry {
        result, inner := MultModulo(square, result, m);
      }
      square, inner := MultModulo(square, square, m);
      RaiseTaken(before, squareBefore, left, result, square, target, m);
      left := left / 2;
      turns := turns + 1;
    }
    RaiseEnd(result, square, target, m);
    ResidueSmall(target, m);
  }

  lemma ResidueSmall(x: nat, m: nat)
    requires m > 0
    ensures 0 <= x % m < m
  {
  }

  /** Any number to the power 0 modulo 1 is answered by 1, though the only residue is 0. */
  method NothingRaised(base: u64) returns (result: u64)
    ensures result == 1 && Power(base, 0) % 1 == 0
  {
    ghost var turns;
    result, turns := ExpModulo(base, 0, 1);
  }
}
