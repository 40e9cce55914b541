/** The MNP pipe: buffers over the frames, with a one-frame window and an acknowledgement for each data frame. */
module MnpPipes {
  import opened Wrappers
  import opened Sequences
  import opened MnpFrame
  import opened MnpLine
  import opened MnpEndpoint

  /** The next frame on the line, if it is a frame, is one the receiver can take. */
  predicate NextProper(s: Octets, pos: nat) {
    FrameAt(s, pos).Data? ==> Proper(FrameAt(s, pos).data)
  }

  /** All frames that can be received from a position on are ones the receiver can take. */
  ghost predicate LineProper(s: Octets, pos: nat) {
    forall n: nat :: FramesAt(s, pos, n).Batch? ==> NextProper(s, FramesAt(s, pos, n).next)
  }

  class MnpPipe {
    const line: BytePipe
    var inputBuffer: array<bv8>
    var inputSize: nat
    var inputCursor: nat
    const outputBuffer: array<bv8>
    var outputCursor: nat
    var inIndex: bv8
    var outIndex: bv8
    var keepAlive: bool

    /** As inside an operation, when the output buffer may be full. */
    ghost predicate ValidInside()
      reads this, line
    {
      && line.Valid()
      && inputCursor <= inputSize <= inputBuffer.Length && outputCursor <= outputBuffer.Length
      && inputBuffer != outputBuffer && outputBuffer.Length > 0
    }

    ghost predicate Valid()
      reads this, line
    {
      ValidInside() && outputCursor < outputBuffer.Length
    }

    ghost function Value(): Endpoint
      requires ValidInside()
      reads this, inputBuffer, outputBuffer, line
    {
      Endpoint(outputBuffer.Length, outputBuffer[..outputCursor], outIndex,
               inputBuffer[..inputSize], inputCursor, inIndex, keepAlive)
    }

    /** The pipe after the connection header has been exchanged: both packet indices are 1. */
    constructor (line: BytePipe, capacity: nat, keepAlive: bool)
      requires line.Valid() && capacity > 0
      ensures Valid() && this.line == line && fresh(inputBuffer) && fresh(outputBuffer)
      ensures Value() == Endpoint(capacity, [], 1, [], 0, 1, keepAlive)
    {
      this.line := line;
      inputBuffer := new bv8[FRAME_INCREMENT];
      inputSize, inputCursor := 0, 0;
      outputBuffer := new bv8[capacity];
      outputCursor := 0;
      inIndex, outIndex := 1, 1;
      this.keepAlive := keepAlive;
    }

    method SendAck()
      requires Valid()
      modifies line`sent
      ensures Valid() && Value() == old(Value())
      ensures line.sent == old(line.sent) + Frame(AckFrame(inIndex))
    {
      hide Frame;
      WriteFrame(line, [3, LA, inIndex, DEFAULT_CREDITS]);
    }

    method SendData()
      requires ValidInside()
      modifies this`outIndex, this`outputCursor, line`sent
      ensures Valid() && Value() == AfterSend(old(Value()))
      ensures line.sent == old(line.sent) + Frame(FrameToSend(old(Value())))
    {
      hide Frame;
      WriteFrame(line, [2, LT, outIndex] + outputBuffer[..outputCursor]);
      outIndex := outIndex + 1;
      outputCursor := 0;
    }

    method FlushOutput()
      requires Valid()
      modifies this`outIndex, this`outputCursor, line`sent
      ensures Valid() && Value() == AfterSend(old(Value()))
      ensures line.sent == old(line.sent) + Frame(FrameToSend(old(Value())))
    {
      hide Frame;
      SendData();
    }

    /** One turn of the writing loop: a chunk that fits, and a frame if that fills the buffer. */
    method WriteChunk(chunk: Octets)
      requires Valid() && outputCursor + |chunk| <= outputBuffer.Length
      modifies this`outIndex, this`outputCursor, outputBuffer, line`sent
      ensures Valid() && Value() == AfterChunk(old(Value()), chunk)
      ensures line.sent == old(line.sent) + Sent(ChunkFrames(old(Value()), chunk))
    {
      hide Frame;
      ghost var e := Value();
      SentFew(FrameToSend(e.(output := e.output + chunk)));
      forall i | 0 <= i < |chunk| {
        outputBuffer[outputCursor + i] := chunk[i];
      }
      outputCursor := outputCursor + |chunk|;
      assert Value() == e.(output := e.output + chunk) by {
        assert outputBuffer[..outputCursor] == e.output + chunk;
      }
      if outputCursor == outputBuffer.Length {
        SendData();
      } else {
        assert line.sent + [] == line.sent;
      }
    }

    method Write(data: Octets)
      requires Valid()
      modifies this`outIndex, this`outputCursor, outputBuffer, line`sent
      ensures Valid() && Value() == AfterWrite(old(Value()), data)
      ensures line.sent == old(line.sent) + Sent(WriteFrames(old(Value()), data))
    {
      hide AfterChunk, ChunkFrames, Sent, AfterWrite, WriteFrames;
      ghost var e, was, done := Value(), line.sent, [];
      var copied := 0;
      NothingWritten(e, data, was);
      while copied < |data|
        invariant copied <= |data| && Valid()
        invariant AfterWrite(e, data) == AfterWrite(Value(), data[copied..])
        invariant WriteFrames(e, data) == done + WriteFrames(Value(), data[copied..])
        invariant line.sent == was + Sent(done)
      {
        ghost var now, rest := Value(), data[copied..];
        var n := |data| - copied;
        if n + outputCursor > outputBuffer.Length {
          n := outputBuffer.Length - outputCursor;
        }
        assert rest[..n] == data[copied..copied + n] && rest[n..] == data[copied + n..];
        ChunkWritten(now, rest, n, done, was);
        WriteChunk(data[copied..copied + n]);
        done := done + ChunkFrames(now, rest[..n]);
        copied := copied + n;
      }
      AllWritten(Value(), data[copied..], done);
    }

    // ---- receiving ------------------------------------------------------------------------------

    /** Appends the data of a frame to the input buffer, enlarged to what it needs. */
    method Keep(data: Octets)
      requires Valid()
      modifies this`inputBuffer, this`inputSize, inputBuffer
      ensures Valid() && (inputBuffer == old(inputBuffer) || fresh(inputBuffer))
      ensures Value() == old(Value()).(input := old(Value()).input + data)
    {
      ghost var input := inputBuffer[..inputSize];
      if inputSize + |data| > inputBuffer.Length {
        var larger := new bv8[inputSize + |data|];
        forall i | 0 <= i < inputSize {
          larger[i] := inputBuffer[i];
        }
        inputBuffer := larger;
      }
      forall i | 0 <= i < |data| {
        inputBuffer[inputSize + i] := data[i];
      }
      inputSize := inputSize + |data|;
      assert inputBuffer[..inputSize] == input + data;
    }

    method ReceiveData() returns (r: Result<(), Error>)
      requires Valid() && NextProper(line.incoming, line.cursor)
      modifies this`inIndex, this`inputBuffer, this`inputSize, inputBuffer, line`cursor, line`sent
      ensures Valid() && (inputBuffer == old(inputBuffer) || fresh(inputBuffer))
      ensures Took(r, FrameAt(line.incoming, old(line.cursor)), old(Value()), Value(), line.cursor, old(line.sent), line.sent)
    {
      hide Frame, FrameAt, IsAck;
      ghost var e, was, start := Value(), line.sent, line.cursor;
      var frame := ReadFrame(line);
      if frame.Failure? {
        return Failure(frame.error);
      }
      var f := frame.value;
      SentFew(AckFrame(if IsAck(f) then inIndex else f[2]));
      if IsAck(f) {
        if keepAlive {
          SendAck();
        } else {
          assert was + [] == was;
        }
      } else {
        inIndex := f[2];
        SendAck();
        Keep(f[3..]);
      }
      return Success(());
    }

    /** Empties the input buffer, all of which has been read, and takes a frame. */
    method Refill(ghost was: Endpoint, ghost turns: seq<ReadTurn>, ghost frames: seq<Octets>, ghost out: Octets,
                  ghost start: nat, ghost sentBefore: Octets)
      returns (r: Result<(), Error>, ghost nowTurns: seq<ReadTurn>, ghost now: seq<Octets>)
      requires ReadSoFar(was, turns, frames, out, start, sentBefore) && inputCursor == inputSize
      modifies this`inIndex, this`inputBuffer, this`inputSize, this`inputCursor, inputBuffer, line`cursor, line`sent
      ensures inputBuffer == old(inputBuffer) || fresh(inputBuffer)
      ensures r.Success? ==> ReadSoFar(was, nowTurns, now, out, start, sentBefore) && line.cursor > old(line.cursor)
      ensures r.Failure? ==> ReadStopped(was, nowTurns, now, out, start, sentBefore, r.error)
    {
      hide Frame, FrameAt, Payloads, Sent, Replies, FramesAt, LastIndex, HasRead, Proper, AfterFrame, TurnsAre, AfterTurns,
           TurnsFit;
      ghost var e, pos := Value(), line.cursor;
      NextIsProper(line.incoming, start, frames, pos);
      inputCursor := 0;
      inputSize := 0;
      ReadEmptied(was, e, frames, out);
      ghost var emptied := Value();
      assert emptied == Emptied(e);
      r := ReceiveData();
      now, nowTurns := frames, turns;
      TurnsMean(was, e, turns, frames, out);
      if r.Success? {
        ghost var f := FrameAt(line.incoming, pos).data;
        now, nowTurns := frames + [f], turns + [Fetch(f)];
        FetchTurn(was, e, turns, frames, out, f);
        ReadFrameToo(was, emptied, frames, out, f);
        RepliesNext(was.keepAlive, was.inIndex, frames, f);
        SentAppend(Replies(was.keepAlive, was.inIndex, frames), Reply(was.keepAlive, emptied.inIndex, f));
        AppendAssoc(sentBefore, Sent(Replies(was.keepAlive, was.inIndex, frames)),
                    Sent(Reply(was.keepAlive, emptied.inIndex, f)));
        FramesAtNext(line.incoming, start, frames, pos);
        ReadFields(was, e, frames, out);
      }
    }

    /** Hands out unread bytes, as many as are wanted and there. */
    method Copy(wanted: nat, ghost was: Endpoint, ghost turns: seq<ReadTurn>, ghost frames: seq<Octets>, ghost out: Octets,
                ghost start: nat, ghost sentBefore: Octets)
      returns (copied: Octets, ghost nowTurns: seq<ReadTurn>)
      requires ReadSoFar(was, turns, frames, out, start, sentBefore)
      modifies this`inputCursor
      ensures ReadSoFar(was, nowTurns, frames, out + copied, start, sentBefore)
      ensures |copied| <= wanted && (|copied| < wanted ==> inputCursor == inputSize)
      ensures inputCursor == old(inputCursor) + |copied|
    {
      hide FrameAt, Payloads, Sent, Replies, FramesAt, LastIndex, HasRead, LineProper, TurnsAre;
      var n := wanted;
      if n + inputCursor > inputSize {
        n := inputSize - inputCursor;
      }
      ReadCopied(was, Value(), frames, out, n);
      CopyTurn(was, Value(), turns, frames, out, n);
      nowTurns := turns + [ReadTurn.Copy(n)];
      copied := inputBuffer[inputCursor..inputCursor + n];
      assert copied == Unread(Value())[..n];
      inputCursor := inputCursor + n;
    }

    /** Reads as many bytes as asked for, taking frames as it needs them, or throws with those it could get. */
    method Read(count: nat)
      returns (r: Result<(), Error>, out: Octets, ghost turns: seq<ReadTurn>, ghost frames: seq<Octets>)
      requires Valid() && LineProper(line.incoming, line.cursor)
      modifies this`inIndex, this`inputBuffer, this`inputSize, this`inputCursor, inputBuffer, line`cursor, line`sent
      ensures r.Success? ==> |out| == count && ReadSoFar(old(Value()), turns, frames, out, old(line.cursor), old(line.sent))
      ensures r.Failure? ==>
                |out| < count && ReadStopped(old(Value()), turns, frames, out, old(line.cursor), old(line.sent), r.error)
    {
      hide Value, ReadSoFar, ReadStopped;
      ghost var was, start, sentBefore := Value(), line.cursor, line.sent;
      out, turns, frames := [], [], [];
      ReadBegins();
      while |out| < count
        invariant |out| <= count && ReadSoFar(was, turns, frames, out, start, sentBefore)
        invariant inputBuffer == old(inputBuffer) || fresh(inputBuffer)
        decreases count - |out|, |line.incoming| - line.cursor
      {
        ReadBounds(was, turns, frames, out, start, sentBefore);
        if inputCursor == inputSize {
          r, turns, frames := Refill(was, turns, frames, out, start, sentBefore);
          if r.Failure? {
            return;
          }
        }
        ReadBounds(was, turns, frames, out, start, sentBefore);
        var copied: Octets;
        copied, turns := Copy(count - |out|, was, turns, frames, out, start, sentBefore);
        out := out + copied;
      }
      r := Success(());
    }

    lemma ReadBegins()
      requires Valid() && LineProper(line.incoming, line.cursor)
      ensures ReadSoFar(Value(), [], [], [], line.cursor, line.sent)
    {
      hide FrameAt, LineProper, HasRead, TurnsAre;
      NothingRead(Value());
      NoTurns(Value());
      SentNone();
      assert line.sent + [] == line.sent;
    }

    lemma ReadBounds(was: Endpoint, turns: seq<ReadTurn>, frames: seq<Octets>, out: Octets, start: nat, sentBefore: Octets)
      requires ReadSoFar(was, turns, frames, out, start, sentBefore)
      ensures line.cursor <= |line.incoming| && inputCursor <= inputSize
    {
    }

    /** In the middle of a read: what the frames taken so far have done. */
    ghost predicate ReadSoFar(was: Endpoint, turns: seq<ReadTurn>, frames: seq<Octets>, out: Octets, start: nat, sentBefore: Octets)
      reads this, inputBuffer, outputBuffer, line
    {
      && Valid() && was.cursor <= |was.input| && HasRead(was, Value(), frames, out)
      && TurnsAre(was, Value(), turns, frames, out)
      && LineProper(line.incoming, start) && AllProper(frames)
      && FramesAt(line.incoming, start, |frames|) == Batch(frames, line.cursor)
      && line.sent == sentBefore + Sent(Replies(was.keepAlive, was.inIndex, frames))
    }

    /** After a read that threw: everything before the bytes that are no frame has been taken. */
    ghost predicate ReadStopped(was: Endpoint, turns: seq<ReadTurn>, frames: seq<Octets>, out: Octets, start: nat,
                                sentBefore: Octets, error: Error)
      reads this, inputBuffer, outputBuffer, line
    {
      && Valid() && was.cursor <= |was.input| && HasRead(was, Value(), frames, out) && Unread(Value()) == []
      && TurnsFit(was, turns) && AfterTurns(was, turns).cursor == |AfterTurns(was, turns).input|
      && TurnsAre(was, AfterTurns(was, turns), turns, frames, out) && Value() == Emptied(AfterTurns(was, turns))
      && AllProper(frames)
      && FramesAt(line.incoming, start, |frames|).Batch? && FramesAt(line.incoming, start, |frames|).frames == frames
      && error == StopError(FrameAt(line.incoming, FramesAt(line.incoming, start, |frames|).next))
      && line.sent == sentBefore + Sent(Replies(was.keepAlive, was.inIndex, frames))
    }
  }

  /** The exception for bytes that are no frame, or not yet. */
  function StopError(received: Received): Error {
    if received.Waiting? then EndOfFile else UnknownError
  }

  /** What receiving a frame does, or what it leaves alone when there is none. */
  ghost predicate Took(r: Result<(), Error>, received: Received, was: Endpoint, now: Endpoint, cursor: nat,
                       sentBefore: Octets, sent: Octets)
  {
    match received
    case Data(f, next) =>
      Proper(f) && r == Success(()) && cursor == next && now == AfterFrame(was, f)
      && sent == sentBefore + Sent(Reply(was.keepAlive, was.inIndex, f))
    case Refused => r == Failure(UnknownError) && now == was && sent == sentBefore
    case Waiting => r == Failure(EndOfFile) && now == was && sent == sentBefore
  }

  lemma NothingWritten(e: Endpoint, data: Octets, was: Octets)
    requires RoomLeft(e)
    ensures data[0..] == data && [] + WriteFrames(e, data) == WriteFrames(e, data) && was + Sent([]) == was
  {
    hide WriteFrames;
  }

  lemma ChunkWritten(e: Endpoint, data: Octets, n: nat, done: seq<Octets>, was: Octets)
    requires RoomLeft(e) && data != [] && n == ChunkSize(e, |data|)
    ensures AfterWrite(e, data) == AfterWrite(AfterChunk(e, data[..n]), data[n..])
    ensures done + WriteFrames(e, data)
         == done + ChunkFrames(e, data[..n]) + WriteFrames(AfterChunk(e, data[..n]), data[n..])
    ensures was + Sent(done) + Sent(ChunkFrames(e, data[..n])) == was + Sent(done + ChunkFrames(e, data[..n]))
  {
    hide AfterChunk, ChunkFrames, Sent;
    var chunk := ChunkFrames(e, data[..n]);
    AppendAssoc(done, chunk, WriteFrames(AfterChunk(e, data[..n]), data[n..]));
    SentAppend(done, chunk);
    AppendAssoc(was, Sent(done), Sent(chunk));
  }

  lemma AllWritten(e: Endpoint, data: Octets, done: seq<Octets>)
    requires RoomLeft(e) && data == []
    ensures AfterWrite(e, data) == e && done + WriteFrames(e, data) == done
  {
  }

  lemma SentNone()
    ensures Sent([]) == []
  {
  }

  lemma SentFew(f: Octets)
    ensures Sent([]) == [] && Sent([f]) == Frame(f)
  {
    hide Frame;
    assert [f][..0] == [];
  }

  lemma {:induction false} SentAppend(a: seq<Octets>, b: seq<Octets>)
    ensures Sent(a + b) == Sent(a) + Sent(b)
  {
    hide Frame;
    if b == [] {
      assert a + b == a;
    } else {
      var n := |b| - 1;
      assert (a + b)[..|a + b| - 1] == a + b[..n];
      SentAppend(a, b[..n]);
      AppendAssoc(Sent(a), Sent(b[..n]), Frame(b[n]));
    }
  }

  lemma NextIsProper(s: Octets, start: nat, frames: seq<Octets>, pos: nat)
    requires LineProper(s, start) && FramesAt(s, start, |frames|) == Batch(frames, pos)
    ensures NextProper(s, pos)
  {
  }

  lemma FramesAtNext(s: Octets, start: nat, frames: seq<Octets>, pos: nat)
    requires FramesAt(s, start, |frames|) == Batch(frames, pos) && FrameAt(s, pos).Data?
    ensures FramesAt(s, start, |frames| + 1) == Batch(frames + [FrameAt(s, pos).data], FrameAt(s, pos).next)
    ensures pos < FrameAt(s, pos).next <= |s|
  {
    hide FrameAt, Tail;
    LineAccepted(s, pos, FrameAt(s, pos).data, FrameAt(s, pos).next);
  }

  lemma ReadFields(was: Endpoint, now: Endpoint, frames: seq<Octets>, out: Octets)
    requires was.cursor <= |was.input| && HasRead(was, now, frames, out)
    ensures now.keepAlive == was.keepAlive && now.inIndex == LastIndex(was.inIndex, frames)
  {
  }

  lemma TurnsMean(was: Endpoint, now: Endpoint, turns: seq<ReadTurn>, frames: seq<Octets>, out: Octets)
    requires TurnsAre(was, now, turns, frames, out)
    ensures TurnsFit(was, turns) && now == AfterTurns(was, turns)
  {
  }
}
