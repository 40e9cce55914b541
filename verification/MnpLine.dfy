/** Writing and reading frames byte by byte over the pipe below. */
module MnpLine {
  import opened Wrappers
  import opened Crc16
  import opened MnpFrame

  /** The pipe below, seen from one end: the bytes written to it, and the bytes it has to read. */
  class BytePipe {
    var sent: seq<bv8>
    var incoming: seq<bv8>
    var cursor: nat

    predicate Valid()
      reads this
    {
      cursor <= |incoming|
    }

    constructor (incoming: seq<bv8>)
      ensures Valid() && sent == [] && this.incoming == incoming && cursor == 0
    {
      sent, this.incoming, cursor := [], incoming, 0;
    }

    method WriteByte(b: bv8)
      modifies this`sent
      ensures sent == old(sent) + [b]
    {
      sent := sent + [b];
    }

    method ReadByte() returns (r: Option<bv8>)
      requires Valid()
      modifies this`cursor
      ensures Valid()
      ensures old(cursor) < |incoming| ==> r == Some(incoming[old(cursor)]) && cursor == old(cursor) + 1
      ensures old(cursor) == |incoming| ==> r == None && cursor == old(cursor)
    {
      if cursor < |incoming| {
        r := Some(incoming[cursor]);
        cursor := cursor + 1;
      } else {
        r := None;
      }
    }
  }

  /** What the reader returns for what it received: data, or the exception it throws. */
  ghost predicate Outcome(r: Result<seq<bv8>, Error>, received: Received, cursor: nat) {
    match received
    case Data(data, next) => r == Success(data) && cursor == next
    case Refused => r == Failure(UnknownError)
    case Waiting => r == Failure(EndOfFile)
  }

  lemma StuffedStep(data: seq<bv8>, i: nat)
    requires i < |data|
    ensures Stuffed(data[..i + 1]) == Stuffed(data[..i]) + if data[i] == DLE then [DLE, DLE] else [data[i]]
    ensures Crc(data[..i + 1]) == Update(Crc(data[..i]), data[i])
  {
    assert data[..i + 1][..i] == data[..i];
  }

  method WriteData(pipe: BytePipe, data: seq<bv8>) returns (crc: bv16)
    modifies pipe`sent
    ensures pipe.sent == old(pipe.sent) + Stuffed(data) && crc == Crc(data)
  {
    hide Stuffed, Update, Crc;
    crc := 0;
    StuffedNone();
    CrcNone();
    assert data[..|data|] == data && data[..0] == [];
    ghost var was := pipe.sent;
    assert was + [] == was;
    for i := 0 to |data|
      invariant pipe.sent == was + Stuffed(data[..i]) && crc == Crc(data[..i])
    {
      StuffedStep(data, i);
      Append3(was, Stuffed(data[..i]), data[i]);
      if data[i] == DLE {
        pipe.WriteByte(data[i]);
      }
      pipe.WriteByte(data[i]);
      crc := Update(crc, data[i]);
    }
  }

  lemma CrcNone()
    ensures Crc([]) == 0
  {
  }

  lemma Append3(a: seq<bv8>, b: seq<bv8>, x: bv8)
    ensures a + b + [x] == a + (b + [x]) && a + b + [x] + [x] == a + (b + [x, x])
  {
  }

  /** A whole frame, in one go. */
  method WriteFrame(pipe: BytePipe, data: seq<bv8>)
    modifies pipe`sent
    ensures pipe.sent == old(pipe.sent) + Frame(data)
  {
    hide Stuffed, Update, Crc, Low, High;
    ghost var was := pipe.sent;
    pipe.WriteByte(SYN);
    pipe.WriteByte(DLE);
    pipe.WriteByte(STX);
    var crc := WriteData(pipe, data);
    pipe.WriteByte(DLE);
    pipe.WriteByte(ETX);
    crc := Update(crc, ETX);
    pipe.WriteByte(Low(crc));
    pipe.WriteByte(High(crc));
    FrameInOrder(was, data, Stuffed(data), crc);
  }

  lemma FrameInOrder(was: seq<bv8>, data: seq<bv8>, stuffed: seq<bv8>, crc: bv16)
    requires stuffed == Stuffed(data) && crc == FrameCrc(data)
    ensures was + [SYN] + [DLE] + [STX] + stuffed + [DLE] + [ETX] + [Low(crc)] + [High(crc)] == was + Frame(data)
  {
    hide Stuffed, FrameCrc, Low, High;
  }

  /** The SYNs, the DLE and the STX of a frame; false is the exception for anything else. */
  method ReadLead(pipe: BytePipe) returns (r: Result<(), Error>)
    requires pipe.Valid()
    modifies pipe`cursor
    ensures pipe.Valid()
    ensures r.Success? ==> FrameAt(pipe.incoming, old(pipe.cursor)) == BodyAt(pipe.incoming, pipe.cursor, [])
    ensures r == Failure(UnknownError) ==> FrameAt(pipe.incoming, old(pipe.cursor)) == Refused
    ensures r == Failure(EndOfFile) ==> FrameAt(pipe.incoming, old(pipe.cursor)) == Waiting
    ensures r.Success? || r == Failure(UnknownError) || r == Failure(EndOfFile)
  {
    hide BodyAt;
    var b := pipe.ReadByte();
    while b == Some(SYN)
      invariant pipe.Valid()
      invariant b == None ==> pipe.cursor == |pipe.incoming|
      invariant b == None ==> SkipSyns(pipe.incoming, old(pipe.cursor)) == pipe.cursor
      invariant b.Some? ==> pipe.cursor > 0 && b.value == pipe.incoming[pipe.cursor - 1]
      invariant b.Some? ==> SkipSyns(pipe.incoming, old(pipe.cursor)) == SkipSyns(pipe.incoming, pipe.cursor - 1)
      decreases |pipe.incoming| - pipe.cursor, b.Some?
    {
      b := pipe.ReadByte();
    }
    if b == None {
      return Failure(EndOfFile);
    }
    if b.value != DLE {
      return Failure(UnknownError);
    }
    b := pipe.ReadByte();
    if b == None {
      return Failure(EndOfFile);
    }
    if b.value != STX {
      return Failure(UnknownError);
    }
    return Success(());
  }

  /** A buffer a fixed amount longer, with the same bytes at the start. */
  method Enlarged(buffer: array<bv8>) returns (larger: array<bv8>)
    ensures fresh(larger) && larger.Length == buffer.Length + FRAME_INCREMENT
    ensures larger[..buffer.Length] == buffer[..]
  {
    larger := new bv8[buffer.Length + FRAME_INCREMENT];
    for i := 0 to buffer.Length
      invariant larger[..i] == buffer[..i]
    {
      larger[i] := buffer[i];
    }
  }

  /** The CRC at the end of a frame, low byte first; nothing if the bytes are not there. */
  method ReadCrc(pipe: BytePipe) returns (r: Option<bv16>)
    requires pipe.Valid()
    modifies pipe`cursor
    ensures pipe.Valid()
    ensures r.Some? <==> old(pipe.cursor) + 2 <= |pipe.incoming|
    ensures r.Some? ==> pipe.cursor == old(pipe.cursor) + 2 && r.value == CrcAt(pipe.incoming, old(pipe.cursor))
  {
    var low := pipe.ReadByte();
    if low == None {
      return None;
    }
    var high := pipe.ReadByte();
    if high == None {
      return None;
    }
    return Some((low.value as bv16) | ((high.value as bv16) << 8));
  }

  /** Puts a byte after the others, in a buffer that has room for it. */
  method Store(buffer: array<bv8>, size: nat, b: bv8)
    requires size < buffer.Length
    modifies buffer
    ensures buffer[..size + 1] == old(buffer[..size]) + [b]
  {
    buffer[size] := b;
  }

  /** What the next byte, or the next two, make of the frame so far. */
  lemma BodyStep(s: seq<bv8>, pos: nat, data: seq<bv8>)
    requires pos <= |s|
    ensures pos == |s| ==> BodyAt(s, pos, data) == Waiting
    ensures pos < |s| && s[pos] != DLE ==> BodyAt(s, pos, data) == BodyAt(s, pos + 1, data + [s[pos]])
    ensures pos < |s| && s[pos] == DLE && pos + 1 == |s| ==> BodyAt(s, pos, data) == Waiting
    ensures pos + 1 < |s| && s[pos] == DLE ==> BodyAt(s, pos, data) == AfterEscape(s, pos, data)
  {
    hide FrameCrc, CrcAt;
  }

  function AfterEscape(s: seq<bv8>, pos: nat, data: seq<bv8>): Received
    requires pos + 1 < |s|
  {
    if s[pos + 1] == DLE then BodyAt(s, pos + 2, data + [DLE])
    else if s[pos + 1] != ETX then Refused
    else if pos + 4 > |s| then Waiting
    else if CrcAt(s, pos + 2) == FrameCrc(data) then Data(data, pos + 4)
    else Refused
  }

  /** The frame after its STX, in a buffer that grows as it fills. */
  method ReadBody(pipe: BytePipe) returns (r: Result<seq<bv8>, Error>)
    requires pipe.Valid()
    modifies pipe`cursor
    ensures pipe.Valid() && Outcome(r, BodyAt(pipe.incoming, old(pipe.cursor), []), pipe.cursor)
  {
    hide Update, CrcAt, BodyAt, Crc;
    ghost var s, start := pipe.incoming, pipe.cursor;
    var buffer := new bv8[FRAME_INCREMENT];
    var size, crc := 0, 0 as bv16;
    CrcNone();
    assert buffer[..0] == [];
    while true
      invariant pipe.Valid() && pipe.incoming == s
      invariant fresh(buffer) && size <= buffer.Length && crc == Crc(buffer[..size])
      invariant BodyAt(s, start, []) == BodyAt(s, pipe.cursor, buffer[..size])
      decreases |s| - pipe.cursor
    {
      ghost var before := buffer[..size];
      BodyStep(s, pipe.cursor, before);
      if size == buffer.Length {
        buffer := Enlarged(buffer);
        assert buffer[..size] == before;
      }
      var b := pipe.ReadByte();
      if b == None {
        return Failure(EndOfFile);
      }
      if b.value == DLE {
        b := pipe.ReadByte();
        if b == None {
          return Failure(EndOfFile);
        }
        if b.value == ETX {
          r := FinishFrame(pipe, Update(crc, b.value), buffer[..size]);
          return;
        } else if b.value != DLE {
          return Failure(UnknownError);
        }
      }
      Store(buffer, size, b.value);
      size := size + 1;
      CrcNext(before, b.value);
      crc := Update(crc, b.value);
    }
  }

  /** Compares the CRC of the frame with the one that follows it. */
  method FinishFrame(pipe: BytePipe, crc: bv16, data: seq<bv8>) returns (r: Result<seq<bv8>, Error>)
    requires pipe.Valid() && pipe.cursor >= 2 && pipe.incoming[pipe.cursor - 1] == ETX && crc == FrameCrc(data)
    modifies pipe`cursor
    ensures pipe.Valid() && Outcome(r, AfterEscape(pipe.incoming, old(pipe.cursor) - 2, data), pipe.cursor)
  {
    hide FrameCrc, CrcAt, BodyAt;
    var original := ReadCrc(pipe);
    if original == None {
      return Failure(EndOfFile);
    }
    if original.value != crc {
      return Failure(UnknownError);
    }
    return Success(data);
  }

  lemma CrcNext(data: seq<bv8>, b: bv8)
    ensures Crc(data + [b]) == Update(Crc(data), b)
  {
    assert (data + [b])[..|data|] == data;
  }

  /** The next frame, after any number of SYNs. */
  method ReadFrame(pipe: BytePipe) returns (r: Result<seq<bv8>, Error>)
    requires pipe.Valid()
    modifies pipe`cursor
    ensures pipe.Valid() && Outcome(r, FrameAt(pipe.incoming, old(pipe.cursor)), pipe.cursor)
  {
    hide FrameAt, BodyAt;
    var lead := ReadLead(pipe);
    if lead.Failure? {
      return Failure(lead.error);
    }
    r := ReadBody(pipe);
  }
}
