/** The random-access memory stream under the package writer, with the typed accessors of the stream
    it derives from. Reading past the end of the data reports the end-of-file error. */
module MemStreams {
  import opened Wrappers
  import opened Bytes
  import opened Sequences

  const SIZE_INCREMENT := 256

  datatype ECursorMode = FromStart | FromLEOF | FromCursor

  class MemStream {
    var data: seq<byte>      // the first mBufferSize bytes of the allocation
    var allocatedSize: nat
    var cursor: nat

    // The state at the last seek, and what has been written since
    ghost var was: seq<byte>
    ghost var start: nat
    ghost var written: seq<byte>

    ghost predicate Valid()
      reads this
      ensures Valid() ==> cursor <= |data|
    {
      && cursor <= |data| <= allocatedSize
      && start <= |was| && cursor == start + |written|
      && data == Overwrite(was, start, written)
    }

    /** Since data was this and the cursor at start, exactly x has been written, without a seek. */
    ghost predicate Wrote(was: seq<byte>, start: nat, x: seq<byte>)
      reads this
    {
      Valid() && this.was == was && this.start == start && written == x
    }

    lemma Opened()
      requires Valid()
      ensures Wrote(was, start, written) && start <= |was| && cursor == start + |written|
      ensures data == Overwrite(was, start, written)
    {
    }

    lemma Closed(was: seq<byte>, start: nat, x: seq<byte>)
      requires Wrote(was, start, x)
      ensures Valid() && start <= |was| && cursor == start + |x| && data == Overwrite(was, start, x)
    {
    }

    constructor ()
      ensures Valid() && data == [] && cursor == 0
    {
      data, allocatedSize, cursor := [], SIZE_INCREMENT, 0;
      was, start, written := [], 0, [];
    }

    constructor FromBytes(bytes: seq<byte>)
      ensures Valid() && data == bytes && cursor == 0
    {
      data, allocatedSize, cursor := bytes, |bytes|, 0;
      was, start, written := bytes, 0, [];
    }

    method Read(count: nat) returns (bytes: seq<byte>)
      requires Valid()
      modifies this
      ensures Valid() && data == old(data)
      ensures cursor == old(cursor) + |bytes| && bytes == data[old(cursor)..cursor]
      ensures |bytes| == if old(cursor) + count <= |data| then count else |data| - old(cursor)
    {
      var theCount := count;
      if theCount > |data| - cursor {
        theCount := |data| - cursor;
      }
      bytes := data[cursor..cursor + theCount];
      cursor := cursor + theCount;
      was, start, written := data, cursor, [];
    }

    /** Writes at the cursor; the allocation grows by one increment, or to the exact size if that is not enough. */
    method Write(bytes: seq<byte>)
      requires Valid()
      modifies this
      ensures Valid()
      ensures cursor == old(cursor) + |bytes|
      ensures data == Overwrite(old(data), old(cursor), bytes)
      ensures was == old(was) && start == old(start) && written == old(written) + bytes
    {
      var count := |bytes|;
      if cursor + count > allocatedSize {
        if cursor + count <= allocatedSize + SIZE_INCREMENT {
          allocatedSize := allocatedSize + SIZE_INCREMENT;
        } else {
          allocatedSize := cursor + count;
        }
      }
      data := Overwrite(data, cursor, bytes);
      cursor := cursor + count;
      OverwriteAppend(was, start, written, bytes);
      written := written + bytes;
    }

    /** Moves the cursor anywhere inside the data or to its end, or throws and leaves it. From the end the position
        counts backwards. */
    method SetCursor(pos: int, mode: ECursorMode) returns (r: Result<(), Error>)
      requires Valid()
      modifies this
      ensures Valid() && data == old(data)
      ensures mode.FromStart? ==> (r.Success? <==> 0 <= pos <= |data|) && (r.Success? ==> cursor == pos)
      ensures mode.FromLEOF? ==> (r.Success? <==> 0 <= pos <= |data|) && (r.Success? ==> cursor + pos == |data|)
      ensures mode.FromCursor? ==>
                && (r.Success? <==> 0 <= old(cursor) + pos <= |data|) && (r.Success? ==> cursor == old(cursor) + pos)
      ensures r.Failure? ==> cursor == old(cursor) && r.error == BadPosition
    {
      var target := match mode
        case FromStart => pos
        case FromLEOF => |data| - pos
        case FromCursor => cursor + pos;
      if target < 0 || target > |data| {
        return Failure(BadPosition);
      }
      cursor := target;
      was, start, written := data, cursor, [];
      return Success(());
    }

    method PutLong(v: u32)
      requires Valid()
      modifies this
      ensures Valid()
      ensures cursor == old(cursor) + 4
      ensures data == Overwrite(old(data), old(cursor), BE32(v))
      ensures was == old(was) && start == old(start) && written == old(written) + BE32(v)
    {
      Write(BE32(v));
    }

    method PutShort(v: u16)
      requires Valid()
      modifies this
      ensures Valid()
      ensures cursor == old(cursor) + 2
      ensures data == Overwrite(old(data), old(cursor), BE16(v))
      ensures was == old(was) && start == old(start) && written == old(written) + BE16(v)
    {
      Write(BE16(v));
    }

    method PutByte(v: byte)
      requires Valid()
      modifies this
      ensures Valid()
      ensures cursor == old(cursor) + 1
      ensures data == Overwrite(old(data), old(cursor), [v])
      ensures was == old(was) && start == old(start) && written == old(written) + [v]
    {
      Write([v]);
    }

    /** A long, after 0xFF, or a byte when it is at most 254. */
    method PutXLong(v: u32)
      requires Valid()
      modifies this
      ensures Valid()
      ensures cursor == old(cursor) + |XLong(v)|
      ensures data == Overwrite(old(data), old(cursor), XLong(v))
      ensures was == old(was) && start == old(start) && written == old(written) + XLong(v)
    {
      if v <= 254 {
        PutByte(v);
      } else {
        hide Overwrite, BE32;
        PutByte(0xFF);
        PutLong(v);
        OverwriteAppend(old(data), old(cursor), [0xFF], BE32(v));
        AppendAssoc(old(written), [0xFF], BE32(v));
      }
    }

    method GetLong() returns (r: Result<u32, Error>)
      requires Valid()
      modifies this
      ensures Valid() && data == old(data)
      ensures Agrees(r, LongAt(data, old(cursor)), cursor)
    {
      var bytes := Read(4);
      if |bytes| < 4 {
        return Failure(EndOfFile);
      }
      return Success(U32At(bytes, 0));
    }

    method GetShort() returns (r: Result<u16, Error>)
      requires Valid()
      modifies this
      ensures Valid() && data == old(data)
      ensures Agrees(r, ShortAt(data, old(cursor)), cursor)
    {
      var bytes := Read(2);
      if |bytes| < 2 {
        return Failure(EndOfFile);
      }
      return Success(U16At(bytes, 0));
    }

    method GetByte() returns (r: Result<byte, Error>)
      requires Valid()
      modifies this
      ensures Valid() && data == old(data)
      ensures r.Success? <==> old(cursor) + 1 <= |data|
      ensures r.Success? ==> cursor == old(cursor) + 1 && r.value == data[old(cursor)]
      ensures r.Failure? ==> r.error == EndOfFile && cursor == |data|
    {
      var bytes := Read(1);
      if |bytes| < 1 {
        return Failure(EndOfFile);
      }
      return Success(bytes[0]);
    }

    method GetXLong() returns (r: Result<u32, Error>)
      requires Valid()
      modifies this
      ensures Valid() && data == old(data)
      ensures Agrees(r, XLongAt(data, old(cursor)), cursor)
    {
      var first := GetByte();
      if first.Failure? {
        return Failure(first.error);
      }
      if first.value == 0xFF {
        r := GetLong();
      } else {
        r := Success(first.value);
      }
    }
  }

  // ---- reading as a function of the data and the position ----------------------

  /** The outcome of reading at a position: a value and the position after it, or an exception. */
  datatype Reading<+T> = Got(value: T, next: nat) | Failed(error: Error) {

    predicate IsFailure() {
      Failed?
    }

    function PropagateFailure<U>(): Reading<U>
      requires Failed?
    {
      Failed(error)
    }

    function Extract(): (T, nat)
      requires Got?
    {
      (value, next)
    }
  }

  /** What a reading method returns and where it leaves the cursor are what the function of the data says. */
  predicate Agrees<T(==)>(r: Result<T, Error>, expected: Reading<T>, cursor: nat) {
    match expected
    case Got(v, next) => r == Success(v) && cursor == next
    case Failed(e) => r == Failure(e)
  }

  function LongAt(s: seq<byte>, pos: nat): (r: Reading<u32>) {
    if pos + 4 <= |s| then Got(U32At(s, pos), pos + 4) else Failed(EndOfFile)
  }

  function ShortAt(s: seq<byte>, pos: nat): (r: Reading<u16>) {
    if pos + 2 <= |s| then Got(U16At(s, pos), pos + 2) else Failed(EndOfFile)
  }

  function BytesAt(s: seq<byte>, pos: nat, count: nat): (r: Reading<seq<byte>>) {
    if pos + count <= |s| then Got(s[pos..pos + count], pos + count) else Failed(EndOfFile)
  }

  lemma BytesHeld(s: seq<byte>, pos: nat, d: seq<byte>)
    requires Holds(s, pos, d)
    ensures BytesAt(s, pos, |d|) == Got(d, pos + |d|)
  {
  }

  function XLong(v: u32): (s: seq<byte>)
    ensures 1 <= |s| <= 5
  {
    if v <= 254 then [v] else [0xFF] + BE32(v)
  }

  /** A byte, or after 0xFF a long, which may be one that a byte would have done for. */
  function XLongAt(s: seq<byte>, pos: nat): Reading<u32> {
    if pos >= |s| then Failed(EndOfFile)
    else if s[pos] == 0xFF then LongAt(s, pos + 1)
    else Got(s[pos], pos + 1)
  }

  lemma LongForm(s: seq<byte>, pos: nat, v: u32)
    ensures Holds(s, pos, [0xFF] + BE32(v)) <==> pos < |s| && s[pos] == 0xFF && LongAt(s, pos + 1) == Got(v, pos + 5)
  {
    hide BE32, U32At;
    if pos + 5 <= |s| {
      var t := s[pos..pos + 5];
      assert t == [s[pos]] + s[pos + 1..pos + 5];
      if U32At(s, pos + 1) == v {
        EncodeBE32(s, pos + 1);
      } else if Holds(s, pos + 1, BE32(v)) {
        DecodeBE32(s, pos + 1, v);
      }
    }
  }

  /** The bytes of a long are those of its value. */
  lemma EncodeBE32(s: seq<byte>, i: nat)
    requires i + 4 <= |s|
    ensures Holds(s, i, BE32(U32At(s, i)))
  {
    var a, b, c, d := s[i], s[i + 1], s[i + 2], s[i + 3];
    assert s[i..i + 4] == [a, b, c, d];
    BytesOfWord(a, b, c, d, U32At(s, i));
  }

  lemma BytesOfWord(a: byte, b: byte, c: byte, d: byte, v: u32)
    requires v as int == a as int * 0x100_0000 + b as int * 0x1_0000 + c as int * 0x100 + d as int
    ensures BE32(v) == [a, b, c, d]
  {
    assert v / 0x100_0000 == a && v / 0x1_0000 == a as int * 0x100 + b as int;
    assert v / 0x100 == (a as int * 0x100 + b as int) * 0x100 + c as int;
  }

  /** A value is written in one byte if it is below 255, and otherwise as 255 and its four bytes. */
  lemma XLongForms(v: u32)
    ensures |XLong(v)| == 1 <==> v <= 0xFE
    ensures |XLong(v)| == 5 <==> v >= 0xFF
    ensures XLong(0xFE) == [0xFE] && XLong(0xFF) == [0xFF, 0x00, 0x00, 0x00, 0xFF]
    ensures XLong(0x0102_0304) == [0xFF, 0x01, 0x02, 0x03, 0x04]
  {
    hide BE32;
    BytesOfWord(0, 0, 0, 0xFF, 0xFF);
    BytesOfWord(1, 2, 3, 4, 0x0102_0304);
  }

  /** A value is read from exactly its own form, and a value that fits a byte also from the long form, which is not
      written for it; where neither form is whole the file ends. */
  lemma XLongAtIff(s: seq<byte>, pos: nat, v: u32)
    ensures XLongAt(s, pos) == Got(v, pos + |XLong(v)|) <==> Holds(s, pos, XLong(v))
    ensures XLongAt(s, pos) == Got(v, pos + 5) <==> Holds(s, pos, [0xFF] + BE32(v))
    ensures XLongAt(s, pos) == Failed(EndOfFile) <==> pos >= |s| || (s[pos] == 0xFF && pos + 5 > |s|)
  {
    hide BE32, U32At;
    LongForm(s, pos, v);
    if v <= 254 && pos < |s| {
      assert s[pos..pos + 1] == [s[pos]];
    }
  }

  /** The alignment loops of the package writer: zero bytes, one at a time. */
  method PutZeros(stream: MemStream, count: nat)
    requires stream.Valid()
    modifies stream
    ensures stream.Valid()
    ensures stream.cursor == old(stream.cursor) + count
    ensures stream.data == Overwrite(old(stream.data), old(stream.cursor), Zeros(count))
    ensures stream.was == old(stream.was) && stream.start == old(stream.start)
    ensures stream.written == old(stream.written) + Zeros(count)
  {
    ghost var was, start, written := stream.data, stream.cursor, stream.written;
    assert was == Overwrite(was, start, Zeros(0)) && written == written + Zeros(0);
    for i := 0 to count
      invariant stream.Valid()
      invariant stream.cursor == start + i
      invariant stream.data == Overwrite(was, start, Zeros(i))
      invariant stream.was == old(stream.was) && stream.start == old(stream.start)
      invariant stream.written == written + Zeros(i)
    {
      hide Overwrite;
      stream.PutByte(0);
      OverwriteAppend(was, start, Zeros(i), [0]);
      assert Zeros(i) + [0] == Zeros(i + 1);
      AppendAssoc(written, Zeros(i), [0]);
    }
  }
}
