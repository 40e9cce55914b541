/** DES on the bits of a block, for any subkeys: the rounds, encoding and decoding, and why each undoes the other. */
module DesCipher {
  import opened DesBits
  import opened DesTables

  datatype Halves = Halves(left: Bits, right: Bits)

  predicate Wide(h: Halves) {
    |h.left| == 32 && |h.right| == 32
  }

  predicate SubKeys(keys: seq<Bits>) {
    forall k <- keys :: |k| == 48
  }

  // ---- the round function ------------------------------------------------------------------

  function Expand(r: Bits): (e: Bits)
    requires |r| == 32
    ensures |e| == 48
  {
    seq(48, i requires 0 <= i < 48 => r[ESel(i) - 1])
  }

  /** The row of an S-box is given by the outer bits of six, the column by the inner ones. */
  function RowOf(six: Bits): (r: bv8)
    requires |six| == 6
    ensures r < 4
  {
    (if six[0] then 2 else 0) | (if six[5] then 1 else 0)
  }

  function ColumnOf(six: Bits): (c: bv8)
    requires |six| == 6
    ensures c < 16
  {
    (if six[1] then 8 else 0) | (if six[2] then 4 else 0) | (if six[3] then 2 else 0) | (if six[4] then 1 else 0)
  }

  function NibbleBits(v: bv8): (r: Bits)
    ensures |r| == 4
  {
    [v & 8 != 0, v & 4 != 0, v & 2 != 0, v & 1 != 0]
  }

  function Nibble(j: nat, six: Bits): (r: Bits)
    requires j < 8 && |six| == 6
    ensures |r| == 4
  {
    NibbleBits(SBox(j, RowOf(six), ColumnOf(six)))
  }

  function Six(b: Bits, j: nat): (r: Bits)
    requires |b| == 48 && j < 8
    ensures |r| == 6
  {
    b[6 * j..6 * j + 6]
  }

  /** The outputs of the first S-boxes, one after the other. */
  function Substituted(b: Bits, n: nat): (r: Bits)
    requires |b| == 48 && n <= 8
    ensures |r| == 4 * n
  {
    if n == 0 then [] else Substituted(b, n - 1) + Nibble(n - 1, Six(b, n - 1))
  }

  function Permuted(b: Bits): (r: Bits)
    requires |b| == 32
    ensures |r| == 32
  {
    seq(32, i requires 0 <= i < 32 => b[Perm(i) - 1])
  }

  function Mixed(r: Bits, key: Bits): (m: Bits)
    requires |r| == 32 && |key| == 48
    ensures |m| == 32
  {
    Permuted(Substituted(Xor(Expand(r), key), 8))
  }

  function Round(h: Halves, key: Bits): (r: Halves)
    requires Wide(h) && |key| == 48
    ensures Wide(r)
  {
    Halves(h.right, Xor(h.left, Mixed(h.right, key)))
  }

  function Rounds(h: Halves, keys: seq<Bits>): (r: Halves)
    requires Wide(h) && SubKeys(keys)
    ensures Wide(r)
  {
    if keys == [] then h else Round(Rounds(h, keys[..|keys| - 1]), keys[|keys| - 1])
  }

  // ---- blocks -------------------------------------------------------------------------------

  function Initial(b: Bits): (h: Halves)
    requires |b| == 64
    ensures Wide(h)
  {
    Halves(seq(32, i requires 0 <= i < 32 => b[IP(i) - 1]), seq(32, i requires 0 <= i < 32 => b[IP(i + 32) - 1]))
  }

  /** The inverse permutation, of the two halves swapped. */
  function Final(h: Halves): (b: Bits)
    requires Wide(h)
    ensures |b| == 64
  {
    var s := h.right + h.left;
    seq(64, i requires 0 <= i < 64 => s[IPInverse(i) - 1])
  }

  function Encoded(keys: seq<Bits>, b: Bits): (r: Bits)
    requires SubKeys(keys) && |b| == 64
    ensures |r| == 64
  {
    Final(Rounds(Initial(b), keys))
  }

  function Reversed(keys: seq<Bits>): (r: seq<Bits>)
    ensures |r| == |keys| && (SubKeys(keys) ==> SubKeys(r))
  {
    if keys == [] then [] else [keys[|keys| - 1]] + Reversed(keys[..|keys| - 1])
  }

  /** Decoding goes through the subkeys from the last to the first. */
  function Decoded(keys: seq<Bits>, b: Bits): (r: Bits)
    requires SubKeys(keys) && |b| == 64
    ensures |r| == 64
  {
    Encoded(Reversed(keys), b)
  }

  // ---- the permutations are inverse -----------------------------------------------------------

  lemma RowAndColumn(x: nat, row: nat, column: nat)
    requires x == 8 * row + column && column < 8
    ensures x / 8 == row && x % 8 == column
  {
  }

  lemma InitialOfInverse(i: nat)
    requires i < 64
    ensures IP(IPInverse(i) - 1) == i + 1
  {
    hide IP, IPInverse;
    var r, c := i / 8, i % 8;
    RowAndColumn(IPInverse(i) - 1, if c % 2 == 0 then 4 + c / 2 else c / 2, 7 - r);
  }

  lemma InverseOfInitial(i: nat)
    requires i < 64
    ensures IPInverse(IP(i) - 1) == i + 1
  {
    hide IP, IPInverse;
    var r, c := i / 8, i % 8;
    RowAndColumn(IP(i) - 1, 7 - c, if r < 4 then 1 + 2 * r else 2 * r - 8);
  }

  function Swap(h: Halves): Halves {
    Halves(h.right, h.left)
  }

  lemma FinalOfInitial(b: Bits)
    requires |b| == 64
    ensures Final(Swap(Initial(b))) == b
  {
    hide IP, IPInverse;
    var h := Initial(b);
    var s := h.left + h.right;
    forall i | 0 <= i < 64 ensures Final(Swap(h))[i] == b[i] {
      InitialOfInverse(i);
      InitialBit(b, IPInverse(i) - 1);
    }
  }

  lemma InitialBit(b: Bits, j: nat)
    requires |b| == 64 && j < 64
    ensures (Initial(b).left + Initial(b).right)[j] == b[IP(j) - 1]
  {
    hide IP;
  }

  lemma InitialOfFinal(h: Halves)
    requires Wide(h)
    ensures Initial(Final(h)) == Swap(h)
  {
    hide IP, IPInverse;
    var b := Final(h);
    var s := h.right + h.left;
    forall j | 0 <= j < 64 ensures (Initial(b).left + Initial(b).right)[j] == s[j] {
      InverseOfInitial(j);
      InitialBit(b, j);
    }
    var t := Initial(b).left + Initial(b).right;
    assert t == s;
    assert Initial(b).left == t[..32] == s[..32] == h.right;
    assert Initial(b).right == t[32..] == s[32..] == h.left;
  }

  // ---- decoding undoes encoding --------------------------------------------------------------------

  lemma XorTwice(a: Bits, b: Bits)
    requires |a| == |b|
    ensures Xor(Xor(a, b), b) == a
  {
  }

  /** A round undoes itself on the swapped halves; nothing about the S-boxes matters. */
  lemma RoundUndone(h: Halves, key: Bits)
    requires Wide(h) && |key| == 48
    ensures Round(Swap(Round(h, key)), key) == Swap(h)
  {
    hide Mixed;
    XorTwice(h.left, Mixed(h.right, key));
  }

  lemma {:induction false} RoundsFirst(h: Halves, key: Bits, rest: seq<Bits>)
    requires Wide(h) && |key| == 48 && SubKeys(rest)
    ensures SubKeys([key] + rest) && Rounds(h, [key] + rest) == Rounds(Round(h, key), rest)
  {
    hide Round;
    var keys := [key] + rest;
    if rest == [] {
      assert keys[..0] == [];
    } else {
      var n := |rest| - 1;
      assert rest[n] in rest && forall k <- rest[..n] :: k in rest;
      RoundsFirst(h, key, rest[..n]);
      assert keys[..|keys| - 1] == [key] + rest[..n];
    }
  }

  lemma {:induction false} RoundsUndone(h: Halves, keys: seq<Bits>)
    requires Wide(h) && SubKeys(keys)
    ensures Rounds(Swap(Rounds(h, keys)), Reversed(keys)) == Swap(h)
  {
    hide Round;
    if keys != [] {
      var n := |keys| - 1;
      var front, key := keys[..n], keys[n];
      assert key in keys && forall k <- front :: k in keys;
      var before := Rounds(h, front);
      RoundUndone(before, key);
      RoundsFirst(Swap(Round(before, key)), key, Reversed(front));
      RoundsUndone(h, front);
    }
  }

  /** Decoding undoes encoding, for every block and all subkeys. */
  lemma DecodedEncoded(keys: seq<Bits>, b: Bits)
    requires SubKeys(keys) && |b| == 64
    ensures Decoded(keys, Encoded(keys, b)) == b
  {
    hide Initial, Final, Rounds, Reversed;
    var h := Initial(b);
    InitialOfFinal(Rounds(h, keys));
    RoundsUndone(h, keys);
    FinalOfInitial(b);
  }

  lemma {:induction false} ReversedTwice(keys: seq<Bits>)
    ensures Reversed(Reversed(keys)) == keys
  {
    if keys != [] {
      var n := |keys| - 1;
      ReversedTwice(keys[..n]);
      ReversedFirst(keys[n], Reversed(keys[..n]));
    }
  }

  lemma {:induction false} ReversedFirst(key: Bits, rest: seq<Bits>)
    ensures Reversed([key] + rest) == Reversed(rest) + [key]
  {
    var keys := [key] + rest;
    if rest == [] {
      assert keys[..0] == [];
    } else {
      var n := |rest| - 1;
      assert keys[..|keys| - 1] == [key] + rest[..n];
      ReversedFirst(key, rest[..n]);
      assert [rest[n]] + (Reversed(rest[..n]) + [key]) == [rest[n]] + Reversed(rest[..n]) + [key];
    }
  }

  /** And encoding undoes decoding. */
  lemma EncodedDecoded(keys: seq<Bits>, b: Bits)
    requires SubKeys(keys) && |b| == 64
    ensures Encoded(keys, Decoded(keys, b)) == b
  {
    hide Encoded, Reversed;
    DecodedEncoded(Reversed(keys), b);
    ReversedTwice(keys);
  }

  /** When all subkeys are the same, encoding is its own inverse. */
  lemma EncodedTwice(keys: seq<Bits>, b: Bits)
    requires SubKeys(keys) && |b| == 64 && forall i, j :: 0 <= i < j < |keys| ==> keys[i] == keys[j]
    ensures Encoded(keys, Encoded(keys, b)) == b
  {
    hide Encoded;
    ReversedSame(keys);
    DecodedEncoded(keys, b);
  }

  lemma {:induction false} ReversedSame(keys: seq<Bits>)
    requires forall i, j :: 0 <= i < j < |keys| ==> keys[i] == keys[j]
    ensures Reversed(keys) == keys
  {
    if keys != [] {
      ReversedSame(keys[..|keys| - 1]);
    }
  }

  // ---- complementation ---------------------------------------------------------------------------------

  lemma XorNot(a: Bits, b: Bits)
    requires |a| == |b|
    ensures Xor(Not(a), Not(b)) == Xor(a, b) && Xor(Not(a), b) == Not(Xor(a, b))
  {
  }

  lemma MixedNot(r: Bits, key: Bits)
    requires |r| == 32 && |key| == 48
    ensures Mixed(Not(r), Not(key)) == Mixed(r, key)
  {
    hide Permuted, Substituted, ESel;
    assert Expand(Not(r)) == Not(Expand(r));
    XorNot(Expand(r), key);
  }

  function NotHalves(h: Halves): Halves {
    Halves(Not(h.left), Not(h.right))
  }

  function NotKeys(keys: seq<Bits>): (r: seq<Bits>)
    ensures |r| == |keys| && (SubKeys(keys) ==> SubKeys(r))
  {
    if keys == [] then [] else NotKeys(keys[..|keys| - 1]) + [Not(keys[|keys| - 1])]
  }

  lemma {:induction false} RoundsNot(h: Halves, keys: seq<Bits>)
    requires Wide(h) && SubKeys(keys)
    ensures Rounds(NotHalves(h), NotKeys(keys)) == NotHalves(Rounds(h, keys))
  {
    hide Mixed;
    if keys != [] {
      var n := |keys| - 1;
      assert keys[n] in keys && forall k <- keys[..n] :: k in keys;
      RoundsNot(h, keys[..n]);
      var g := Rounds(h, keys[..n]);
      MixedNot(g.right, keys[n]);
      XorNot(g.left, Mixed(g.right, keys[n]));
      assert NotKeys(keys)[..n] == NotKeys(keys[..n]);
    }
  }

  /** The complement of a block under the complements of the subkeys is encoded to the complement. */
  lemma EncodedNot(keys: seq<Bits>, b: Bits)
    requires SubKeys(keys) && |b| == 64
    ensures Encoded(NotKeys(keys), Not(b)) == Not(Encoded(keys, b))
  {
    hide IP, IPInverse, Rounds;
    assert Initial(Not(b)) == NotHalves(Initial(b));
    RoundsNot(Initial(b), keys);
    var h := Rounds(Initial(b), keys);
    assert Not(h.right) + Not(h.left) == Not(h.right + h.left);
    assert Final(NotHalves(h)) == Not(Final(h));
  }
}
