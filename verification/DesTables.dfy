/** The tables of DES: permutations as the numbers of the bits they take, from 1 on, and the S-boxes. What the
    proofs need of a table is stated beside it. */
module DesTables {

  /** Initial permutation: four bits of the low word, then four of the high one, and so on. */
  function IP(i: nat): (n: nat)
    requires i < 64
    ensures n == if i / 8 < 4 then 58 + 2 * (i / 8) - 8 * (i % 8) else 49 + 2 * (i / 8) - 8 * (i % 8)
  {
    match i / 8
    case 0 => (
      match i % 8
      case 0 => 58 case 1 => 50 case 2 => 42 case 3 => 34 case 4 => 26 case 5 => 18 case 6 => 10 case _ => 2
    )
    case 1 => (
      match i % 8
      case 0 => 60 case 1 => 52 case 2 => 44 case 3 => 36 case 4 => 28 case 5 => 20 case 6 => 12 case _ => 4
    )
    case 2 => (
      match i % 8
      case 0 => 62 case 1 => 54 case 2 => 46 case 3 => 38 case 4 => 30 case 5 => 22 case 6 => 14 case _ => 6
    )
    case 3 => (
      match i % 8
      case 0 => 64 case 1 => 56 case 2 => 48 case 3 => 40 case 4 => 32 case 5 => 24 case 6 => 16 case _ => 8
    )
    case 4 => (
      match i % 8
      case 0 => 57 case 1 => 49 case 2 => 41 case 3 => 33 case 4 => 25 case 5 => 17 case 6 => 9 case _ => 1
    )
    case 5 => (
      match i % 8
      case 0 => 59 case 1 => 51 case 2 => 43 case 3 => 35 case 4 => 27 case 5 => 19 case 6 => 11 case _ => 3
    )
    case 6 => (
      match i % 8
      case 0 => 61 case 1 => 53 case 2 => 45 case 3 => 37 case 4 => 29 case 5 => 21 case 6 => 13 case _ => 5
    )
    case _ => (
      match i % 8
      case 0 => 63 case 1 => 55 case 2 => 47 case 3 => 39 case 4 => 31 case 5 => 23 case 6 => 15 case _ => 7
    )
  }

  /** Inverse initial permutation: bits of the two words in turn. */
  function IPInverse(i: nat): (n: nat)
    requires i < 64
    ensures n == if i % 8 % 2 == 0 then 40 + 4 * (i % 8) - i / 8 else 4 + 4 * (i % 8) - i / 8
  {
    match i / 8
    case 0 => (
      match i % 8
      case 0 => 40 case 1 => 8 case 2 => 48 case 3 => 16 case 4 => 56 case 5 => 24 case 6 => 64 case _ => 32
    )
    case 1 => (
      match i % 8
      case 0 => 39 case 1 => 7 case 2 => 47 case 3 => 15 case 4 => 55 case 5 => 23 case 6 => 63 case _ => 31
    )
    case 2 => (
      match i % 8
      case 0 => 38 case 1 => 6 case 2 => 46 case 3 => 14 case 4 => 54 case 5 => 22 case 6 => 62 case _ => 30
    )
    case 3 => (
      match i % 8
      case 0 => 37 case 1 => 5 case 2 => 45 case 3 => 13 case 4 => 53 case 5 => 21 case 6 => 61 case _ => 29
    )
    case 4 => (
      match i % 8
      case 0 => 36 case 1 => 4 case 2 => 44 case 3 => 12 case 4 => 52 case 5 => 20 case 6 => 60 case _ => 28
    )
    case 5 => (
      match i % 8
      case 0 => 35 case 1 => 3 case 2 => 43 case 3 => 11 case 4 => 51 case 5 => 19 case 6 => 59 case _ => 27
    )
    case 6 => (
      match i % 8
      case 0 => 34 case 1 => 2 case 2 => 42 case 3 => 10 case 4 => 50 case 5 => 18 case 6 => 58 case _ => 26
    )
    case _ => (
      match i % 8
      case 0 => 33 case 1 => 1 case 2 => 41 case 3 => 9 case 4 => 49 case 5 => 17 case 6 => 57 case _ => 25
    )
  }

  /** Bit selection: 32 bits to 48. */
  function ESel(i: nat): (n: nat)
    requires i < 48
    ensures n == (4 * (i / 6) + i % 6 + 31) % 32 + 1
  {
    match i / 6
    case 0 => (
      match i % 6
      case 0 => 32 case 1 => 1 case 2 => 2 case 3 => 3 case 4 => 4 case _ => 5
    )
    case 1 => (
      match i % 6
      case 0 => 4 case 1 => 5 case 2 => 6 case 3 => 7 case 4 => 8 case _ => 9
    )
    case 2 => (
      match i % 6
      case 0 => 8 case 1 => 9 case 2 => 10 case 3 => 11 case 4 => 12 case _ => 13
    )
    case 3 => (
      match i % 6
      case 0 => 12 case 1 => 13 case 2 => 14 case 3 => 15 case 4 => 16 case _ => 17
    )
    case 4 => (
      match i % 6
      case 0 => 16 case 1 => 17 case 2 => 18 case 3 => 19 case 4 => 20 case _ => 21
    )
    case 5 => (
      match i % 6
      case 0 => 20 case 1 => 21 case 2 => 22 case 3 => 23 case 4 => 24 case _ => 25
    )
    case 6 => (
      match i % 6
      case 0 => 24 case 1 => 25 case 2 => 26 case 3 => 27 case 4 => 28 case _ => 29
    )
    case _ => (
      match i % 6
      case 0 => 28 case 1 => 29 case 2 => 30 case 3 => 31 case 4 => 32 case _ => 1
    )
  }

  /** Permutation of the outputs of the S-boxes. */
  function Perm(i: nat): (n: nat)
    requires i < 32
    ensures 1 <= n <= 32
  {
    match i
    case 0 => 16 case 1 => 7 case 2 => 20 case 3 => 21
    case 4 => 29 case 5 => 12 case 6 => 28 case 7 => 17
    case 8 => 1 case 9 => 15 case 10 => 23 case 11 => 26
    case 12 => 5 case 13 => 18 case 14 => 31 case 15 => 10
    case 16 => 2 case 17 => 8 case 18 => 24 case 19 => 14
    case 20 => 32 case 21 => 27 case 22 => 3 case 23 => 9
    case 24 => 19 case 25 => 13 case 26 => 30 case 27 => 6
    case 28 => 22 case 29 => 11 case 30 => 4 case _ => 25
  }

  /** Which word of the key permuted choice 1 takes a bit from: the high one or not. */
  predicate PC1Which(i: nat)
    requires i < 56
  {
    match i
    case 0 => false case 1 => false case 2 => false case 3 => false
    case 4 => true case 5 => true case 6 => true case 7 => true
    case 8 => false case 9 => false case 10 => false case 11 => false
    case 12 => true case 13 => true case 14 => true case 15 => true
    case 16 => false case 17 => false case 18 => false case 19 => false
    case 20 => true case 21 => true case 22 => true case 23 => true
    case 24 => false case 25 => false case 26 => false case 27 => false
    case 28 => false case 29 => false case 30 => false case 31 => false
    case 32 => true case 33 => true case 34 => true case 35 => true
    case 36 => false case 37 => false case 38 => false case 39 => false
    case 40 => true case 41 => true case 42 => true case 43 => true
    case 44 => false case 45 => false case 46 => false case 47 => false
    case 48 => true case 49 => true case 50 => true case 51 => true
    case 52 => true case 53 => true case 54 => true case _ => true
  }

  /** Permuted choice 1: it never takes the last bit of a byte. */
  function PC1(i: nat): (n: nat)
    requires i < 56
    ensures 1 <= n <= 63 && n % 8 != 0
    ensures PC1Which(i) <==> n <= 32
  {
    match i / 8
    case 0 => (
      match i % 8
      case 0 => 57 case 1 => 49 case 2 => 41 case 3 => 33 case 4 => 25 case 5 => 17 case 6 => 9 case _ => 1
    )
    case 1 => (
      match i % 8
      case 0 => 58 case 1 => 50 case 2 => 42 case 3 => 34 case 4 => 26 case 5 => 18 case 6 => 10 case _ => 2
    )
    case 2 => (
      match i % 8
      case 0 => 59 case 1 => 51 case 2 => 43 case 3 => 35 case 4 => 27 case 5 => 19 case 6 => 11 case _ => 3
    )
    case 3 => (
      match i % 8
      case 0 => 60 case 1 => 52 case 2 => 44 case 3 => 36 case 4 => 63 case 5 => 55 case 6 => 47 case _ => 39
    )
    case 4 => (
      match i % 8
      case 0 => 31 case 1 => 23 case 2 => 15 case 3 => 7 case 4 => 62 case 5 => 54 case 6 => 46 case _ => 38
    )
    case 5 => (
      match i % 8
      case 0 => 30 case 1 => 22 case 2 => 14 case 3 => 6 case 4 => 61 case 5 => 53 case 6 => 45 case _ => 37
    )
    case _ => (
      match i % 8
      case 0 => 29 case 1 => 21 case 2 => 13 case 3 => 5 case 4 => 28 case 5 => 20 case 6 => 12 case _ => 4
    )
  }

  /** It reads the first seven columns of the key, eight bits a row, from below: the first half the first ones and the
      upper half of the fourth, the second half the last ones and the rest of the fourth. */
  lemma PC1Is(i: nat)
    requires i < 56
    ensures PC1(i) == if i < 28 then 57 - 8 * (i % 8) + i / 8
                      else if i < 52 then 63 - 8 * ((i - 28) % 8) - (i - 28) / 8 else 28 - 8 * (i - 52)
  {
  }

  /** Permuted choice 2: 24 bits from the first half, 24 from the second. */
  function PC2(i: nat): (n: nat)
    requires i < 48
    ensures if i < 24 then 1 <= n <= 28 else 29 <= n <= 56
  {
    match i
    case 0 => 14 case 1 => 17 case 2 => 11 case 3 => 24 case 4 => 1 case 5 => 5
    case 6 => 3 case 7 => 28 case 8 => 15 case 9 => 6 case 10 => 21 case 11 => 10
    case 12 => 23 case 13 => 19 case 14 => 12 case 15 => 4 case 16 => 26 case 17 => 8
    case 18 => 16 case 19 => 7 case 20 => 27 case 21 => 20 case 22 => 13 case 23 => 2
    case 24 => 41 case 25 => 52 case 26 => 31 case 27 => 37 case 28 => 47 case 29 => 55
    case 30 => 30 case 31 => 40 case 32 => 51 case 33 => 45 case 34 => 33 case 35 => 48
    case 36 => 44 case 37 => 49 case 38 => 39 case 39 => 56 case 40 => 34 case 41 => 53
    case 42 => 46 case 43 => 42 case 44 => 50 case 45 => 36 case 46 => 29 case _ => 32
  }

  function S1(row: bv8, column: bv8): (r: bv8)
    requires row < 4 && column < 16
    ensures r < 16
  {
    match row
    case 0 => (
      match column
      case 0 => 14 case 1 => 4 case 2 => 13 case 3 => 1 case 4 => 2 case 5 => 15 case 6 => 11 case 7 => 8
      case 8 => 3 case 9 => 10 case 10 => 6 case 11 => 12 case 12 => 5 case 13 => 9 case 14 => 0 case _ => 7
    )
    case 1 => (
      match column
      case 0 => 0 case 1 => 15 case 2 => 7 case 3 => 4 case 4 => 14 case 5 => 2 case 6 => 13 case 7 => 1
      case 8 => 10 case 9 => 6 case 10 => 12 case 11 => 11 case 12 => 9 case 13 => 5 case 14 => 3 case _ => 8
    )
    case 2 => (
      match column
      case 0 => 4 case 1 => 1 case 2 => 14 case 3 => 8 case 4 => 13 case 5 => 6 case 6 => 2 case 7 => 11
      case 8 => 15 case 9 => 12 case 10 => 9 case 11 => 7 case 12 => 3 case 13 => 10 case 14 => 5 case _ => 0
    )
    case _ => (
      match column
      case 0 => 15 case 1 => 12 case 2 => 8 case 3 => 2 case 4 => 4 case 5 => 9 case 6 => 1 case 7 => 7
      case 8 => 5 case 9 => 11 case 10 => 3 case 11 => 14 case 12 => 10 case 13 => 0 case 14 => 6 case _ => 13
    )
  }

  function S2(row: bv8, column: bv8): (r: bv8)
    requires row < 4 && column < 16
    ensures r < 16
  {
    match row
    case 0 => (
      match column
      case 0 => 15 case 1 => 1 case 2 => 8 case 3 => 14 case 4 => 6 case 5 => 11 case 6 => 3 case 7 => 4
      case 8 => 9 case 9 => 7 case 10 => 2 case 11 => 13 case 12 => 12 case 13 => 0 case 14 => 5 case _ => 10
    )
    case 1 => (
      match column
      case 0 => 3 case 1 => 13 case 2 => 4 case 3 => 7 case 4 => 15 case 5 => 2 case 6 => 8 case 7 => 14
      case 8 => 12 case 9 => 0 case 10 => 1 case 11 => 10 case 12 => 6 case 13 => 9 case 14 => 11 case _ => 5
    )
    case 2 => (
      match column
      case 0 => 0 case 1 => 14 case 2 => 7 case 3 => 11 case 4 => 10 case 5 => 4 case 6 => 13 case 7 => 1
      case 8 => 5 case 9 => 8 case 10 => 12 case 11 => 6 case 12 => 9 case 13 => 3 case 14 => 2 case _ => 15
    )
    case _ => (
      match column
      case 0 => 13 case 1 => 8 case 2 => 10 case 3 => 1 case 4 => 3 case 5 => 15 case 6 => 4 case 7 => 2
      case 8 => 11 case 9 => 6 case 10 => 7 case 11 => 12 case 12 => 0 case 13 => 5 case 14 => 14 case _ => 9
    )
  }

  function S3(row: bv8, column: bv8): (r: bv8)
    requires row < 4 && column < 16
    ensures r < 16
  {
    match row
    case 0 => (
      match column
      case 0 => 10 case 1 => 0 case 2 => 9 case 3 => 14 case 4 => 6 case 5 => 3 case 6 => 15 case 7 => 5
      case 8 => 1 case 9 => 13 case 10 => 12 case 11 => 7 case 12 => 11 case 13 => 4 case 14 => 2 case _ => 8
    )
    case 1 => (
      match column
      case 0 => 13 case 1 => 7 case 2 => 0 case 3 => 9 case 4 => 3 case 5 => 4 case 6 => 6 case 7 => 10
      case 8 => 2 case 9 => 8 case 10 => 5 case 11 => 14 case 12 => 12 case 13 => 11 case 14 => 15 case _ => 1
    )
    case 2 => (
      match column
      case 0 => 13 case 1 => 6 case 2 => 4 case 3 => 9 case 4 => 8 case 5 => 15 case 6 => 3 case 7 => 0
      case 8 => 11 case 9 => 1 case 10 => 2 case 11 => 12 case 12 => 5 case 13 => 10 case 14 => 14 case _ => 7
    )
    case _ => (
      match column
      case 0 => 1 case 1 => 10 case 2 => 13 case 3 => 0 case 4 => 6 case 5 => 9 case 6 => 8 case 7 => 7
      case 8 => 4 case 9 => 15 case 10 => 14 case 11 => 3 case 12 => 11 case 13 => 5 case 14 => 2 case _ => 12
    )
  }

  function S4(row: bv8, column: bv8): (r: bv8)
    requires row < 4 && column < 16
    ensures r < 16
  {
    match row
    case 0 => (
      match column
      case 0 => 7 case 1 => 13 case 2 => 14 case 3 => 3 case 4 => 0 case 5 => 6 case 6 => 9 case 7 => 10
      case 8 => 1 case 9 => 2 case 10 => 8 case 11 => 5 case 12 => 11 case 13 => 12 case 14 => 4 case _ => 15
    )
    case 1 => (
      match column
      case 0 => 13 case 1 => 8 case 2 => 11 case 3 => 5 case 4 => 6 case 5 => 15 case 6 => 0 case 7 => 3
      case 8 => 4 case 9 => 7 case 10 => 2 case 11 => 12 case 12 => 1 case 13 => 10 case 14 => 14 case _ => 9
    )
    case 2 => (
      match column
      case 0 => 10 case 1 => 6 case 2 => 9 case 3 => 0 case 4 => 12 case 5 => 11 case 6 => 7 case 7 => 13
      case 8 => 15 case 9 => 1 case 10 => 3 case 11 => 14 case 12 => 5 case 13 => 2 case 14 => 8 case _ => 4
    )
    case _ => (
      match column
      case 0 => 3 case 1 => 15 case 2 => 0 case 3 => 6 case 4 => 10 case 5 => 1 case 6 => 13 case 7 => 8
      case 8 => 9 case 9 => 4 case 10 => 5 case 11 => 11 case 12 => 12 case 13 => 7 case 14 => 2 case _ => 14
    )
  }

  function S5(row: bv8, column: bv8): (r: bv8)
    requires row < 4 && column < 16
    ensures r < 16
  {
    match row
    case 0 => (
      match column
      case 0 => 2 case 1 => 12 case 2 => 4 case 3 => 1 case 4 => 7 case 5 => 10 case 6 => 11 case 7 => 6
      case 8 => 8 case 9 => 5 case 10 => 3 case 11 => 15 case 12 => 13 case 13 => 0 case 14 => 14 case _ => 9
    )
    case 1 => (
      match column
      case 0 => 14 case 1 => 11 case 2 => 2 case 3 => 12 case 4 => 4 case 5 => 7 case 6 => 13 case 7 => 1
      case 8 => 5 case 9 => 0 case 10 => 15 case 11 => 10 case 12 => 3 case 13 => 9 case 14 => 8 case _ => 6
    )
    case 2 => (
      match column
      case 0 => 4 case 1 => 2 case 2 => 1 case 3 => 11 case 4 => 10 case 5 => 13 case 6 => 7 case 7 => 8
      case 8 => 15 case 9 => 9 case 10 => 12 case 11 => 5 case 12 => 6 case 13 => 3 case 14 => 0 case _ => 14
    )
    case _ => (
      match column
      case 0 => 11 case 1 => 8 case 2 => 12 case 3 => 7 case 4 => 1 case 5 => 14 case 6 => 2 case 7 => 13
      case 8 => 6 case 9 => 15 case 10 => 0 case 11 => 9 case 12 => 10 case 13 => 4 case 14 => 5 case _ => 3
    )
  }

  function S6(row: bv8, column: bv8): (r: bv8)
    requires row < 4 && column < 16
    ensures r < 16
  {
    match row
    case 0 => (
      match column
      case 0 => 12 case 1 => 1 case 2 => 10 case 3 => 15 case 4 => 9 case 5 => 2 case 6 => 6 case 7 => 8
      case 8 => 0 case 9 => 13 case 10 => 3 case 11 => 4 case 12 => 14 case 13 => 7 case 14 => 5 case _ => 11
    )
    case 1 => (
      match column
      case 0 => 10 case 1 => 15 case 2 => 4 case 3 => 2 case 4 => 7 case 5 => 12 case 6 => 9 case 7 => 5
      case 8 => 6 case 9 => 1 case 10 => 13 case 11 => 14 case 12 => 0 case 13 => 11 case 14 => 3 case _ => 8
    )
    case 2 => (
      match column
      case 0 => 9 case 1 => 14 case 2 => 15 case 3 => 5 case 4 => 2 case 5 => 8 case 6 => 12 case 7 => 3
      case 8 => 7 case 9 => 0 case 10 => 4 case 11 => 10 case 12 => 1 case 13 => 13 case 14 => 11 case _ => 6
    )
    case _ => (
      match column
      case 0 => 4 case 1 => 3 case 2 => 2 case 3 => 12 case 4 => 9 case 5 => 5 case 6 => 15 case 7 => 10
      case 8 => 11 case 9 => 14 case 10 => 1 case 11 => 7 case 12 => 6 case 13 => 0 case 14 => 8 case _ => 13
    )
  }

  function S7(row: bv8, column: bv8): (r: bv8)
    requires row < 4 && column < 16
    ensures r < 16
  {
    match row
    case 0 => (
      match column
      case 0 => 4 case 1 => 11 case 2 => 2 case 3 => 14 case 4 => 15 case 5 => 0 case 6 => 8 case 7 => 13
      case 8 => 3 case 9 => 12 case 10 => 9 case 11 => 7 case 12 => 5 case 13 => 10 case 14 => 6 case _ => 1
    )
    case 1 => (
      match column
      case 0 => 13 case 1 => 0 case 2 => 11 case 3 => 7 case 4 => 4 case 5 => 9 case 6 => 1 case 7 => 10
      case 8 => 14 case 9 => 3 case 10 => 5 case 11 => 12 case 12 => 2 case 13 => 15 case 14 => 8 case _ => 6
    )
    case 2 => (
      match column
      case 0 => 1 case 1 => 4 case 2 => 11 case 3 => 13 case 4 => 12 case 5 => 3 case 6 => 7 case 7 => 14
      case 8 => 10 case 9 => 15 case 10 => 6 case 11 => 8 case 12 => 0 case 13 => 5 case 14 => 9 case _ => 2
    )
    case _ => (
      match column
      case 0 => 6 case 1 => 11 case 2 => 13 case 3 => 8 case 4 => 1 case 5 => 4 case 6 => 10 case 7 => 7
      case 8 => 9 case 9 => 5 case 10 => 0 case 11 => 15 case 12 => 14 case 13 => 2 case 14 => 3 case _ => 12
    )
  }

  function S8(row: bv8, column: bv8): (r: bv8)
    requires row < 4 && column < 16
    ensures r < 16
  {
    match row
    case 0 => (
      match column
      case 0 => 13 case 1 => 2 case 2 => 8 case 3 => 4 case 4 => 6 case 5 => 15 case 6 => 11 case 7 => 1
      case 8 => 10 case 9 => 9 case 10 => 3 case 11 => 14 case 12 => 5 case 13 => 0 case 14 => 12 case _ => 7
    )
    case 1 => (
      match column
      case 0 => 1 case 1 => 15 case 2 => 13 case 3 => 8 case 4 => 10 case 5 => 3 case 6 => 7 case 7 => 4
      case 8 => 12 case 9 => 5 case 10 => 6 case 11 => 11 case 12 => 0 case 13 => 14 case 14 => 9 case _ => 2
    )
    case 2 => (
      match column
      case 0 => 7 case 1 => 11 case 2 => 4 case 3 => 1 case 4 => 9 case 5 => 12 case 6 => 14 case 7 => 2
      case 8 => 0 case 9 => 6 case 10 => 10 case 11 => 13 case 12 => 15 case 13 => 3 case 14 => 5 case _ => 8
    )
    case _ => (
      match column
      case 0 => 2 case 1 => 1 case 2 => 14 case 3 => 7 case 4 => 4 case 5 => 10 case 6 => 8 case 7 => 13
      case 8 => 15 case 9 => 12 case 10 => 9 case 11 => 0 case 12 => 3 case 13 => 5 case 14 => 6 case _ => 11
    )
  }

  function SBox(j: nat, row: bv8, column: bv8): (r: bv8)
    requires j < 8 && row < 4 && column < 16
    ensures r < 16
  {
    match j
    case 0 => S1(row, column) case 1 => S2(row, column) case 2 => S3(row, column) case 3 => S4(row, column)
    case 4 => S5(row, column) case 5 => S6(row, column) case 6 => S7(row, column) case _ => S8(row, column)
  }
}
