/** A part of a package: its bytes, where they were last encoded for, and the words that hold addresses.
    A part without relocations is the plain part of the original, which never re-encodes. */
module PkgParts {
  import opened Wrappers
  import opened Bytes
  import opened RelocTable

  datatype Part = Part(offset: u32, base: u32, data: seq<byte>, relocations: seq<u32>)

  // ---- relocation of a buffer -------------------------------------------------

  /** The word a relocation designates, by index of four bytes as the encoder does. */
  function WordStart(relocation: u32): nat {
    relocation / 4 * 4
  }

  /** The memory the encoder touches is inside the buffer, except where it notices and throws. */
  predicate Accessible(data: seq<byte>, relocations: seq<u32>) {
    forall r <- relocations :: r <= |data| ==> WordStart(r) + 4 <= |data|
  }

  predicate AllInside(data: seq<byte>, relocations: seq<u32>) {
    forall r <- relocations :: r <= |data|
  }

  function PatchWord(data: seq<byte>, at: nat, delta: int): (r: seq<byte>)
    requires at + 4 <= |data|
    ensures |r| == |data|
  {
    Overwrite(data, at, BE32(Low32(U32At(data, at) + delta)))
  }

  /** The buffer after the relocations have been applied in order, up to the first one out of range. */
  function Relocated(data: seq<byte>, relocations: seq<u32>, delta: int): (r: seq<byte>)
    requires Accessible(data, relocations)
    ensures |r| == |data|
  {
    if relocations == [] then data
    else
      var n := |relocations| - 1;
      var front := relocations[..n];
      assert forall r <- front :: r in relocations;
      var d := Relocated(data, front, delta);
      if relocations[n] <= |data| && AllInside(data, front) then
        PatchWord(d, WordStart(relocations[n]), delta)
      else d
  }

  // ---- the part as a value ----------------------------------------------------

  predicate NeedsEncoding(p: Part, at: u32) {
    at != p.offset && p.relocations != []
  }

  predicate CanMove(p: Part, at: u32) {
    NeedsEncoding(p, at) ==> AllInside(p.data, p.relocations)
  }

  /** The part after it has been asked for its size or its bytes at an offset. */
  function Moved(p: Part, at: u32): (m: Part)
    requires Accessible(p.data, p.relocations)
    ensures m.offset == at && m.base == p.base && m.relocations == p.relocations && |m.data| == |p.data|
  {
    if NeedsEncoding(p, at) then
      Part(at, p.base, Relocated(p.data, p.relocations, at as int - p.base as int), p.relocations)
    else
      p.(offset := at)
  }

  class PkgPart {
    var offset: u32
    var base: u32
    var data: seq<byte>
    var relocations: seq<u32>

    function Value(): Part
      reads this
    {
      Part(offset, base, data, relocations)
    }

    /** Encoding stays inside the buffer, or notices and throws. */
    predicate Encodable()
      reads this
    {
      Accessible(data, relocations)
    }

    constructor (offset: u32, data: seq<byte>)
      ensures Value() == Part(offset, offset, data, [])
    {
      this.offset, this.base, this.data, this.relocations := offset, offset, data, [];
    }

    /** Takes relocations given from an origin; the sort that follows compares positions, so it keeps the order. */
    method SetRelocations(relocations: seq<u32>, baseAddress: u32, origin: u32)
      modifies this
      ensures Value() == old(Value()).(base := baseAddress, relocations := FromOrigin(relocations, origin))
    {
      base := baseAddress;
      var copied := relocations;
      if origin != 0 {
        for i := 0 to |relocations|
          invariant |copied| == |relocations|
          invariant forall k :: 0 <= k < i ==> copied[k] == FromOrigin(relocations, origin)[k]
          invariant forall k :: i <= k < |relocations| ==> copied[k] == relocations[k]
          invariant data == old(data) && offset == old(offset) && base == baseAddress
        {
          copied := copied[i := Low32(copied[i] as int - origin as int)];
        }
      }
      assert copied == FromOrigin(relocations, origin);
      this.relocations := copied;
    }

    function PageCountEstimate(): nat
      reads this
    {
      PageEstimate(relocations)
    }

    method Encode(at: u32) returns (r: Result<(), Error>)
      requires Encodable()
      modifies this`data
      ensures r == if AllInside(old(data), relocations) then Success(()) else Failure(BadParam)
      ensures data == Relocated(old(data), relocations, at as int - base as int)
      ensures Encodable()
    {
      hide PatchWord, WordStart, Relocated, AllInside, Accessible;
      ghost var was := data;
      var delta := at as int - base as int;
      assert relocations[..|relocations|] == relocations && relocations[..0] == [];
      NoneRelocated(was, delta);
      for i := 0 to |relocations|
        invariant |data| == |was|
        invariant Accessible(was, relocations[..i]) && AllInside(was, relocations[..i])
        invariant data == Relocated(was, relocations[..i], delta)
      {
        RelocatedNext(was, relocations, i, delta);
        if relocations[i] > |data| {
          RelocatedStops(was, relocations, i, |relocations|, delta);
          AccessibleSame(was, data, relocations);
          return Failure(BadParam);
        }
        data := PatchWord(data, WordStart(relocations[i]), delta);
      }
      AccessibleSame(was, data, relocations);
      return Success(());
    }

    method GetSize(at: u32) returns (r: Result<nat, Error>)
      requires Encodable()
      modifies this
      ensures Encodable()
      ensures r.Success? <==> CanMove(old(Value()), at)
      ensures r.Success? ==> r.value == |data| && Value() == Moved(old(Value()), at)
      ensures r.Failure? ==> r.error == BadParam
    {
      if at != offset && relocations != [] {
        var encoded :- Encode(at);
      }
      offset := at;
      return Success(|data|);
    }

    method GetBuffer(at: u32) returns (r: Result<seq<byte>, Error>)
      requires Encodable()
      modifies this
      ensures Encodable()
      ensures r.Success? <==> CanMove(old(Value()), at)
      ensures r.Success? ==> r.value == data && Value() == Moved(old(Value()), at)
      ensures r.Failure? ==> r.error == BadParam
    {
      if at != offset && relocations != [] {
        var encoded :- Encode(at);
      }
      offset := at;
      return Success(data);
    }
  }

  function FromOrigin(relocations: seq<u32>, origin: u32): (r: seq<u32>)
    ensures |r| == |relocations|
  {
    seq(|relocations|, i requires 0 <= i < |relocations| => Low32(relocations[i] as int - origin as int))
  }

  lemma AccessibleSame(a: seq<byte>, b: seq<byte>, relocations: seq<u32>)
    requires Accessible(a, relocations) && |a| == |b|
    ensures Accessible(b, relocations)
  {
  }

  lemma NoneRelocated(data: seq<byte>, delta: int)
    ensures Accessible(data, []) && AllInside(data, []) && Relocated(data, [], delta) == data
  {
  }

  lemma RelocatedNext(data: seq<byte>, relocations: seq<u32>, i: nat, delta: int)
    requires Accessible(data, relocations) && i < |relocations|
    requires AllInside(data, relocations[..i])
    ensures Accessible(data, relocations[..i]) && Accessible(data, relocations[..i + 1])
    ensures relocations[i] <= |data| ==>
              && AllInside(data, relocations[..i + 1])
              && WordStart(relocations[i]) + 4 <= |data|
              && Relocated(data, relocations[..i + 1], delta)
                 == PatchWord(Relocated(data, relocations[..i], delta), WordStart(relocations[i]), delta)
    ensures relocations[i] > |data| ==>
              && !AllInside(data, relocations[..i + 1])
              && Relocated(data, relocations[..i + 1], delta) == Relocated(data, relocations[..i], delta)
  {
    var next := relocations[..i + 1];
    assert next[..i] == relocations[..i];
    assert next[i] in next && relocations[i] in relocations;
    assert forall r <- next :: r in relocations[..i] || r == relocations[i];
  }

  lemma RelocatedStops(data: seq<byte>, relocations: seq<u32>, i: nat, n: nat, delta: int)
    requires Accessible(data, relocations) && i < n <= |relocations|
    requires AllInside(data, relocations[..i]) && relocations[i] > |data|
    ensures Accessible(data, relocations[..i]) && Accessible(data, relocations[..n])
    ensures !AllInside(data, relocations[..n])
    ensures Relocated(data, relocations[..n], delta) == Relocated(data, relocations[..i], delta)
  {
    hide PatchWord, WordStart;
    var taken := relocations[..n];
    assert taken[i] in taken;
    assert forall r <- taken :: r in relocations;
    if i + 1 < n {
      RelocatedStops(data, relocations, i, n - 1, delta);
      assert taken[..n - 1] == relocations[..n - 1];
    } else {
      RelocatedNext(data, relocations, i, delta);
    }
  }
}
