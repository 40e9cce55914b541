/** Frames as they are on the line, byte for byte: an acknowledgement and a data frame with a DLE in it. */
module MnpKnownFrames {
  import opened Crc16
  import opened MnpFrame
  import opened MnpEndpoint

  // The acknowledgement of the packet of index 1, with eight credits.
  const ACK_DATA: seq<bv8> := [0x03, 0x05, 0x01, 0x08]
  const ACK_LINE: seq<bv8> := [0x16, 0x10, 0x02, 0x03, 0x05, 0x01, 0x08, 0x10, 0x03, 0x52, 0xCD]

  // A data frame of index 2 with three bytes, the second of which is a DLE.
  const DATA_DATA: seq<bv8> := [0x02, 0x04, 0x02, 0x41, 0x10, 0x42]
  const DATA_LINE: seq<bv8> :=
    [0x16, 0x10, 0x02, 0x02, 0x04, 0x02, 0x41, 0x10, 0x10, 0x42, 0x10, 0x03, 0x3E, 0xDC]

  /** The CRC of a frame covers its data and the ETX that ends it, one bit after the other, the lowest first. */
  lemma FrameCrcIsSerial(data: seq<bv8>)
    ensures FrameCrc(data) == Serial(0, AllBits(data) + Bits(0x03))
  {
    hide Update, Crc, Serial, AllBits, Bits;
    CrcMore(data, ETX);
    CrcIsSerial(data + [ETX]);
    BitsMore(data, ETX);
  }

  lemma CrcMore(data: seq<bv8>, b: bv8)
    ensures Crc(data + [b]) == Update(Crc(data), b)
  {
    assert (data + [b])[..|data|] == data;
  }

  lemma BitsMore(data: seq<bv8>, b: bv8)
    ensures AllBits(data + [b]) == AllBits(data) + Bits(b)
  {
    assert (data + [b])[..|data|] == data;
  }

  lemma StuffedMore(data: seq<bv8>, b: bv8, line: seq<bv8>)
    requires Stuffed(data) == line
    ensures Stuffed(data + [b]) == line + if b == 0x10 then [0x10, 0x10] else [b]
  {
    StuffedNext(data, b);
  }

  lemma AckUpdates()
    ensures Update(0x0000, 0x03) == 0x0140 && Update(0x0140, 0x05) == 0xF3C0 && Update(0xF3C0, 0x01) == 0x9032
    ensures Update(0x9032, 0x08) == 0x1310 && Update(0x1310, 0x03) == 0xCD52
  {
  }

  lemma AckFronts()
    ensures ACK_DATA[..0] == [] && ACK_DATA[..4] == ACK_DATA
    ensures ACK_DATA[..0] + [0x03] == ACK_DATA[..1] && ACK_DATA[..1] + [0x05] == ACK_DATA[..2]
    ensures ACK_DATA[..2] + [0x01] == ACK_DATA[..3] && ACK_DATA[..3] + [0x08] == ACK_DATA[..4]
  {
  }

  lemma AckCrc()
    ensures FrameCrc(ACK_DATA) == 0xCD52
  {
    hide Update, Crc;
    AckUpdates();
    CrcNothing();
    AckFronts();
    CrcMore(ACK_DATA[..0], 0x03);
    CrcMore(ACK_DATA[..1], 0x05);
    CrcMore(ACK_DATA[..2], 0x01);
    CrcMore(ACK_DATA[..3], 0x08);
  }

  lemma CrcNothing()
    ensures Crc([]) == 0
  {
  }

  lemma AckStuffed()
    ensures Stuffed(ACK_DATA) == ACK_DATA
  {
    hide Stuffed;
    StuffedNone();
    AckFronts();
    StuffedMore(ACK_DATA[..0], 0x03, []);
    StuffedMore(ACK_DATA[..1], 0x05, [0x03]);
    StuffedMore(ACK_DATA[..2], 0x01, [0x03, 0x05]);
    StuffedMore(ACK_DATA[..3], 0x08, [0x03, 0x05, 0x01]);
  }

  lemma CrcOnLine(crc: bv16, low: bv8, high: bv8)
    requires crc == ((high as bv16) << 8) | (low as bv16)
    ensures Low(crc) == low && High(crc) == high
  {
  }

  /** Bytes on the line are a frame, and the receiver gets its data of them. */
  lemma FrameOnLine(data: seq<bv8>, stuffed: seq<bv8>, low: bv8, high: bv8, line: seq<bv8>)
    requires Stuffed(data) == stuffed && FrameCrc(data) == ((high as bv16) << 8) | (low as bv16)
    requires line == [0x16, 0x10, 0x02] + (stuffed + [0x10, 0x03, low, high])
    ensures Frame(data) == line && FrameAt(line, 0) == Data(data, |line|)
  {
    hide Stuffed, FrameCrc, Low, High, FrameAt;
    CrcOnLine(FrameCrc(data), low, high);
    assert Syns(1) == [0x16];
    assert [0x16] + ([0x10, 0x02] + Tail(data)) == line;
    assert line[0..|line|] == line;
    LineReadBack(line, 0, 1, data);
  }

  /** The acknowledgement of index 1 is these eleven bytes on the line, and they are received as its data. */
  lemma AckOnLine()
    ensures AckFrame(1) == ACK_DATA && Frame(AckFrame(1)) == ACK_LINE
    ensures FrameAt(ACK_LINE, 0) == Data([0x03, 0x05, 0x01, 0x08], 11)
  {
    hide Stuffed, FrameCrc, Frame, FrameAt;
    AckCrc();
    AckStuffed();
    FrameOnLine(ACK_DATA, ACK_DATA, 0x52, 0xCD, ACK_LINE);
  }

  lemma DataUpdates()
    ensures Update(0x0000, 0x02) == 0xC181 && Update(0xC181, 0x04) == 0xA300 && Update(0xA300, 0x02) == 0xC122
    ensures Update(0xC122, 0x41) == 0x2981 && Update(0x2981, 0x10) == 0xACE8 && Update(0xACE8, 0x42) == 0x7F2C
    ensures Update(0x7F2C, 0x03) == 0xDC3E
  {
  }

  lemma DataFronts()
    ensures DATA_DATA[..0] == [] && DATA_DATA[..6] == DATA_DATA
    ensures DATA_DATA[..0] + [0x02] == DATA_DATA[..1] && DATA_DATA[..1] + [0x04] == DATA_DATA[..2]
    ensures DATA_DATA[..2] + [0x02] == DATA_DATA[..3] && DATA_DATA[..3] + [0x41] == DATA_DATA[..4]
    ensures DATA_DATA[..4] + [0x10] == DATA_DATA[..5] && DATA_DATA[..5] + [0x42] == DATA_DATA[..6]
  {
  }

  lemma DataCrc()
    ensures FrameCrc(DATA_DATA) == 0xDC3E
  {
    hide Update, Crc;
    DataUpdates();
    DataFronts();
    CrcNothing();
    CrcMore(DATA_DATA[..0], 0x02);
    CrcMore(DATA_DATA[..1], 0x04);
    CrcMore(DATA_DATA[..2], 0x02);
    CrcMore(DATA_DATA[..3], 0x41);
    CrcMore(DATA_DATA[..4], 0x10);
    CrcMore(DATA_DATA[..5], 0x42);
  }

  lemma DataStuffed()
    ensures Stuffed(DATA_DATA) == [0x02, 0x04, 0x02, 0x41, 0x10, 0x10, 0x42]
  {
    hide Stuffed;
    DataFronts();
    StuffedNone();
    StuffedMore(DATA_DATA[..0], 0x02, []);
    StuffedMore(DATA_DATA[..1], 0x04, [0x02]);
    StuffedMore(DATA_DATA[..2], 0x02, [0x02, 0x04]);
    StuffedMore(DATA_DATA[..3], 0x41, [0x02, 0x04, 0x02]);
    StuffedMore(DATA_DATA[..4], 0x10, [0x02, 0x04, 0x02, 0x41]);
    StuffedMore(DATA_DATA[..5], 0x42, [0x02, 0x04, 0x02, 0x41, 0x10, 0x10]);
  }

  /** The data frame of index 2 that carries 41 10 42: its DLE is doubled on the line and single again when received. */
  lemma DataOnLine()
    ensures DataFrame(2, [0x41, 0x10, 0x42]) == DATA_DATA && Frame(DataFrame(2, [0x41, 0x10, 0x42])) == DATA_LINE
    ensures FrameAt(DATA_LINE, 0) == Data([0x02, 0x04, 0x02, 0x41, 0x10, 0x42], 14)
    ensures PayloadOf(DATA_DATA) == [0x41, 0x10, 0x42]
  {
    hide Stuffed, FrameCrc, Frame, FrameAt;
    DataCrc();
    DataStuffed();
    FrameOnLine(DATA_DATA, [0x02, 0x04, 0x02, 0x41, 0x10, 0x10, 0x42], 0x3E, 0xDC, DATA_LINE);
  }
}
