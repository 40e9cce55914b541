/** Bytes, the fixed-width words of the package format, and their big-endian encoding. */
module Bytes {

  type byte = x: int | 0 <= x < 0x100
  type u16 = x: int | 0 <= x < 0x1_0000
  type u32 = x: int | 0 <= x < 0x1_0000_0000

  const TWO_16: int := 0x1_0000
  const TWO_32: int := 0x1_0000_0000

  function Low16(x: nat): u16 {
    x % TWO_16
  }

  function Low32(x: int): u32 {
    x % TWO_32
  }

  // ---- big-endian encoding --------------------------------------------------

  function BE16(v: u16): (s: seq<byte>)
    ensures |s| == 2
  {
    [v / 0x100, v % 0x100]
  }

  function BE32(v: u32): (s: seq<byte>)
    ensures |s| == 4
  {
    [v / 0x100_0000, v / 0x1_0000 % 0x100, v / 0x100 % 0x100, v % 0x100]
  }

  function U16At(s: seq<byte>, i: nat): u16
    requires i + 2 <= |s|
  {
    (s[i] as int) * 0x100 + s[i + 1] as int
  }

  function U32At(s: seq<byte>, i: nat): u32
    requires i + 4 <= |s|
  {
    (s[i] as int) * 0x100_0000 + (s[i + 1] as int) * 0x1_0000 + (s[i + 2] as int) * 0x100 + s[i + 3] as int
  }

  lemma BytesOfShort(a: byte, b: byte, v: u16)
    requires v as int == a as int * 0x100 + b as int
    ensures BE16(v) == [a, b]
  {
  }

  lemma DecodeBE16(s: seq<byte>, i: nat, v: u16)
    requires Holds(s, i, BE16(v))
    ensures i + 2 <= |s| && U16At(s, i) == v
  {
    assert s[i] == s[i..i + 2][0] && s[i + 1] == s[i..i + 2][1];
  }

  lemma DecodeBE32(s: seq<byte>, i: nat, v: u32)
    requires Holds(s, i, BE32(v))
    ensures i + 4 <= |s| && U32At(s, i) == v
  {
    var t := s[i..i + 4];
    assert s[i] == t[0] && s[i + 1] == t[1] && s[i + 2] == t[2] && s[i + 3] == t[3];
    assert v / 0x1_0000 == (v / 0x100_0000) * 0x100 + v / 0x1_0000 % 0x100;
    assert v / 0x100 == (v / 0x1_0000) * 0x100 + v / 0x100 % 0x100;
  }

  // ---- filling and padding --------------------------------------------------

  function Zeros(n: nat): (s: seq<byte>)
    ensures |s| == n
  {
    seq(n, _ => 0)
  }

  /** The number of bytes that bring a size to the next multiple of four. */
  function Pad4(n: nat): (r: nat)
    ensures r < 4 && (n + r) % 4 == 0
  {
    (4 - n % 4) % 4
  }

  /** Bytes written at a position over what is there, possibly past its end. */
  function Overwrite(s: seq<byte>, pos: nat, d: seq<byte>): (r: seq<byte>)
    requires pos <= |s|
    ensures |r| == if pos + |d| <= |s| then |s| else pos + |d|
  {
    s[..pos] + d + if pos + |d| <= |s| then s[pos + |d|..] else []
  }

  /** Two consecutive writes are one write of the concatenation. */
  lemma OverwriteAppend(s: seq<byte>, pos: nat, d: seq<byte>, e: seq<byte>)
    requires pos <= |s|
    ensures Overwrite(Overwrite(s, pos, d), pos + |d|, e) == Overwrite(s, pos, d + e)
  {
  }

  /** A write inside what has just been written changes only what has just been written. */
  lemma OverwriteInside(s: seq<byte>, pos: nat, d: seq<byte>, k: nat, e: seq<byte>)
    requires pos <= |s| && k + |e| <= |d|
    ensures Overwrite(Overwrite(s, pos, d), pos + k, e) == Overwrite(s, pos, Overwrite(d, k, e))
  {
  }

  /** A write, a patch inside it, and a write just after it. */
  lemma OverwritePatched(s: seq<byte>, pos: nat, d: seq<byte>, k: nat, c: seq<byte>, e: seq<byte>)
    requires pos <= |s| && k + |c| <= |d|
    ensures Overwrite(Overwrite(Overwrite(s, pos, d), pos + k, c), pos + |d|, e)
         == Overwrite(s, pos, Overwrite(d, k, c) + e)
  {
    hide Overwrite;
    OverwriteInside(s, pos, d, k, c);
    OverwriteAppend(s, pos, Overwrite(d, k, c), e);
  }

  lemma OverwritePrefix(d: seq<byte>, tail: seq<byte>, k: nat, e: seq<byte>)
    requires k + |e| <= |d|
    ensures Overwrite(d + tail, k, e) == Overwrite(d, k, e) + tail
  {
  }

  lemma OverwriteMiddle(p: seq<byte>, a: seq<byte>, b: seq<byte>, c: seq<byte>, e: seq<byte>)
    requires |e| == |b|
    ensures Overwrite(p + (a + b + c), |p| + |a|, e) == p + (a + e + c)
  {
  }

  /** There is d at pos in s. */
  predicate Holds(s: seq<byte>, pos: nat, d: seq<byte>) {
    pos + |d| <= |s| && s[pos..pos + |d|] == d
  }

  lemma HoldsBoth(s: seq<byte>, pos: nat, a: seq<byte>, b: seq<byte>)
    requires Holds(s, pos, a + b)
    ensures Holds(s, pos, a) && Holds(s, pos + |a|, b)
  {
    var d := a + b;
    assert s[pos..pos + |a|] == d[..|a|] == a;
    assert s[pos + |a|..pos + |d|] == d[|a|..] == b;
  }

  lemma OverwriteSuffix(a: seq<byte>, b: seq<byte>, k: nat, e: seq<byte>)
    requires k + |e| <= |b|
    ensures Overwrite(a + b, |a| + k, e) == a + Overwrite(b, k, e)
  {
  }

  lemma ZerosSplit(m: nat, n: nat)
    ensures Zeros(m) + Zeros(n) == Zeros(m + n)
  {
  }

  lemma OverwriteZeros(n: nat, d: seq<byte>)
    requires |d| <= n
    ensures Overwrite(Zeros(n), 0, d) == d + Zeros(n - |d|)
  {
  }

  lemma HoldsJoined(s: seq<byte>, pos: nat, a: seq<byte>, b: seq<byte>)
    requires Holds(s, pos, a) && Holds(s, pos + |a|, b)
    ensures Holds(s, pos, a + b)
  {
    var t := s[pos..pos + |a| + |b|];
    assert t[..|a|] == s[pos..pos + |a|];
    assert t[|a|..] == s[pos + |a|..pos + |a| + |b|];
    assert t == t[..|a|] + t[|a|..];
  }

  lemma HoldsItself(s: seq<byte>)
    ensures Holds(s, 0, s)
  {
  }

  /** What a slice holds is held, further on, by the whole. */
  lemma HoldsWithin(s: seq<byte>, pos: nat, d: seq<byte>, k: nat, e: seq<byte>)
    requires Holds(s, pos, d) && Holds(d, k, e)
    ensures Holds(s, pos + k, e)
  {
    var t := s[pos..pos + |d|];
    forall i | 0 <= i < |e| ensures s[pos + k + i] == e[i] {
      assert t[k + i] == s[pos + k + i] && d[k..k + |e|][i] == d[k + i];
    }
    assert s[pos + k..pos + k + |e|] == e;
  }
}
